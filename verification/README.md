# YANET in Dafny

YANET turns an ordered list of firewall rules into a chain of lookup tables: address tries, a table of
network pairs, classifiers of ports and protocols in layers, a six-dimensional transport table, a total
table and lists of actions. Every stage refines a partition: a filter visits its cells, a cell whose
group predates the filter moves to the group remapped from it, and the stage then reports which groups
every filter owns. This project models these stages, the pass that flattens `skipto` programs in front
of them, and the lookups of a packet behind them, and proves that a packet reaches exactly the actions
of the rules that match it.

The main results:

- `Compiler.Compile`: for every list of rules and every packet, the chained lookups find nothing if no
  rule of the packet's acl takes it, and else the actions of the rules of that acl that take it, in
  increasing order, up to and including the first terminating one. Where the address classifiers are
  exact, these are the rules that match by an independent definition (`RuleMatches`); the list is
  characterised without naming the tables (`FirstRules`), and it is unique (`FirstRulesUnique`). All
  lookups stay within the tables. Compiling fails exactly for misplaced TCP flags, gapped networks that
  are not supported, or rules of one layer whose ranges together tell every two values of a header field
  apart, where the layers are those of the greedy distribution in the order of the filter sets. Rules
  with at most 127 ranges never overflow, and the bound is tight (`Capacity`).
- `Compiler.ExactIff`: the classifiers are exact (`NetsExact`) if and only if for all rules with these
  networks, whatever else they say, every packet is taken by exactly the rules that match it. Rules with
  one network on each side, or without networks inside a wider gapped region, are exact
  (`Networks.PlainExact`). `CompilerCases.StrayFlow` gives three rules with which a packet is sent to
  the flow of a rule that does not match it.
- `MixingLists.RightExact`: a gapped network inside the wider region of another one is inserted as two
  networks, its region and the part behind the gap, and read as the groups that both have. After the
  merge two addresses have one group exactly when they are in the same parts of all filters
  (`NetworkFilters.MergedParts`). A filter is read right in every list of filters that composes its
  networks in one way, if and only if no address mixes parts of different networks of the filter. A
  composed network beside a prefix is a filter for which this fails: 10.16.6.0 is listed for
  10.16.5.0/255.240.255.0 and 10.32.0.0/12 (`AddressCases.ComposedBeside`).
- `UnwindMeaning.UnwindExact`: flattening a `skipto` program keeps the actions of a packet, for all
  programs, exactly when the packet is not a fragment without transport header of TCP, UDP, ICMP or
  ICMPv6. For such a fragment a concrete program is given on which the flat list does something else:
  the test for an empty filter looks at ports, which the fragment does not have. Which lines the flat list
  takes, and how deep its jumps nest, is said line by line (`UnwindLines`).
- `Firewall.Build`: flattening and compiling together give every other packet the actions of the program,
  if it is taken by exactly the flat rules that match it, and fail exactly for jumps that nest too deep
  and where compiling the flat list fails.
- `Tree.AclTree`: the address trie with shared chunks. Preparing, inserting, merging, reading and
  renumbering are proved against the addresses: after `Merge` the group of an address joins the pair of
  its group under the warp and its own group, although chunks are shared and merged values are memoised.
- `Renumber.ListedExactly`: the counters of network groups start at 0, which is also the group of
  addresses in no filter. The membership test by listed groups is right exactly when the counter starts
  above 0, or every address is covered, or none is. `Compiler.Compile` therefore asks that all addresses
  are covered; one unrestricted rule is enough (`Rules.UnrestrictedCovers`). Without it the classifier
  of 10.0.0.0/8 alone lists 11.0.0.1 (`AddressCases.FirstGroup`).
- `Layers.PackInjective`: packing a group with its layer keeps all pairs apart exactly when the maximum
  number of layers is a power of two.
- `Stream.IntoExact`: reading takes a variable that already holds a value. All values of a type are read
  back into it exactly when nothing in it can survive reading: an empty text or an absent option leaves
  the variable as it is, and sets and maps keep what they hold. The bytes of a value are exactly those that
  the form of its type says (`Stream.WrittenExact`).
- Around the compiler: the prefix trie, the serializer, the weight tables, the allocator of ids, the
  generations and the incremental update of balancer reals.

Addresses are sequences of bytes (4 or 16), masks may have gaps. Groups are unbounded numbers; a table over
index tuples is a map in which a missing cell has group 0. An error of the source (an exception) is a
result `None` or `false`. Hash tables are maps, and the order in which they are iterated is arbitrary.

Modules, from the bottom up: `Partition`, `Renumber` and `GroupTable` hold the refinement of partitions;
`Nets`, `Masks`, `MaskShapes`, `NetOrder`, `ChunkForest`, `TreeInsert`, `TreeMerge`, `TreeGaps`, `TreePrepare`,
`TreeCompose`, `TreeGet` and `Tree` the address trie; `Composition`, `Mixing` and `MixingLists` what composed
networks mean; `NetworkFilters`, `Network`, `Addresses`, `AddressCases`, `NetworkTable` and `Networks` the
network stage; `Flat`, `TransportFilter`, `TransportLayer`, `TransportTable`, `TransportKeys`, `Layers`,
`Packing`, `Transports`, `Capacity`, `NetworkIds` and `TransportGroups` the transport stage; `Actions` and
`TotalTable` the actions; `Rules`, `Compiler` and `CompilerCases` the whole; `Filters`, `Unwind`,
`UnwindLines`, `UnwindMeaning` and `Firewall` the programs.

## Model

| member | source | states |
|---|---|---|
| `Compiler.Compile` | controlplane/acl_compiler.cpp:21-109 | for covered rules and a power of two of layers, every packet's chained lookups stay within the tables and give the actions of exactly the rules of its acl that take it up to the first terminating one, and nothing if none does; with exact classifiers these are the matching rules; it fails exactly for TCP flags with other protocols, gapped networks that are not supported, or rules that overflow together in a layer of the distribution; with one layer exactly if all live rules overflow, with at most 127 ranges never |
| `Compiler.ExactIff` | controlplane/acl_tree.h:206-233 | the classifiers are exact, if and only if for all rules with the same networks every packet is taken by exactly the rules that match it |
| `Compiler.ClaimsApply` | controlplane/acl_compiler.h:35-47 | with exact classifiers the rules that take a packet are those that match it |
| `Compiler.SpreadExact` | controlplane/acl_transport.cpp:27-40 | the numbers of transport filters are fixed by the rules, so whether a layer overflows is a property of the rules |
| `CompilerCases.StrayFlow` | controlplane/acl_tree.h:309-340 | with rules for 10.16.5.0/255.240.255.0 and 10.32.0.0/12, for 10.0.5.0/255.0.255.0 and for the rest, compiled tables give a packet from 10.16.6.0 the flow of the first rule, although only the last one matches it |
| `CompilerCases.StrayCompiles` | controlplane/acl_tree.h:487-563 | these rules are accepted: no misplaced flags, supported networks, no ranges |
| `Compiler.RuleListed` | controlplane/acl_compiler.h:35-47 | a rule takes a packet exactly when its filter is listed for the transport group that the packet's lookups reach |
| `Compiler.PacketCorrect` | controlplane/acl_total_table.cpp:35-95 | the rules of the reached group and acl are the rules that take the packet, so the found value executes their actions |
| `Compiler.FirstRulesUnique` | controlplane/acl_total_table.cpp:62-91 | there is only one list of the rules that a packet reaches, in increasing order up to the first terminating one |
| `Compiler.Finish` | controlplane/acl_compiler.cpp:444-484 | transport table, total table and values together are correct for every packet |
| `Compiler.PacketInside` | controlplane/acl_transport_table.cpp:107-139 | the network cell and the transport key of every packet lie within the dimensions of the tables |
| `Firewall.Build` | controlplane/acl.cpp:502-513 | every packet of the start filter that has its transport header and is taken by exactly the flat rules that match it reaches the actions that the skipto program gives it; with exact classifiers every packet with its header does; it fails exactly if jumps nest deeper than 1000 or compiling the flat list fails |
| `Firewall.FirstRun` | controlplane/acl_total_table.cpp:62-91 | the first rules of the flat list that apply to a packet have the actions of running the list |
| `Firewall.ListOpen` | controlplane/acl.cpp:158-171 | the flat list of an unrestricted start filter has a rule without address restriction, so all addresses are covered |
| `Firewall.ListFlat` | controlplane/acl.cpp:383-500 | every flat rule keeps the acl and direction of the start filter and is not empty |
| `Firewall.RuleSame` | controlplane/acl_compiler.cpp:140-276 | a flat filter and the rule made from it match the same packets |
| `UnwindMeaning.UnwindExact` | controlplane/acl.cpp:383-500 | for all programs the flat list keeps a packet's actions, if and only if the packet is not a headless fragment of a protocol with ports or types |
| `UnwindMeaning.UnwindPreserves` | controlplane/acl.cpp:383-500 | running the flat list gives the actions of interpreting the skipto program and then the dispatcher |
| `UnwindMeaning.ListInside` | controlplane/acl.cpp:425-500 | for every packet of the filter on the way, running the flat list is interpreting the program without the lines that were left out |
| `UnwindMeaning.ListOutside` | controlplane/acl.cpp:425-500 | a packet outside the filter on the way matches no rule of the flat list |
| `UnwindMeaning.CarryEnds` | controlplane/acl.cpp:341-348 | every packet on the way reaches a flow, because the last line leads to the dispatcher and the dispatcher has a line for all packets |
| `UnwindMeaning.StopPasses` | controlplane/acl.cpp:492-496 | a line without address, flag and protocol parts that was not left out matches every packet of the way, so nothing after it matters |
| `UnwindMeaning.KeptUnlessHidden` | controlplane/acl.cpp:450-459 | a line that a packet matches is left out as empty or incompatible only if the packet is such a fragment |
| `UnwindMeaning.TwoPortsMeaning` | controlplane/acl/rule.h:744-747 | a program in which a headless fragment reaches the flow behind two different ports |
| `UnwindMeaning.TwoPortsFlat` | controlplane/acl/rule.h:744-747 | on the same program running the flat list sends the fragment to the dispatcher instead |
| `Unwind.Unwinder.Gather` | controlplane/acl.cpp:425-500 | appends exactly the flat list of the rest of the program (`UnwindLines.FlatExact`), and fails exactly when jumps nest deeper than 1000 |
| `Unwind.Unwinder.GatherDispatcher` | controlplane/acl.cpp:383-423 | appends exactly the lines of the dispatcher that the filter leaves |
| `Unwind.Entry` | controlplane/acl.cpp:437-445 | a jump continues at the first line with at least the given number |
| `UnwindLines.DropsExact` | controlplane/acl.cpp:359-376 | a line is left out, if and only if it is for other interfaces, or its filter and the filter of the way have no acl, direction, address, protocol or parameter in common |
| `UnwindLines.NoneExact` | controlplane/acl/rule.h:926-929 | the conjunction of two filters counts as empty, if and only if they have no values of one of these parts in common |
| `UnwindLines.FlatExact` | controlplane/acl.cpp:446-500 | the flat list joins what the taken lines contribute, in their order: the lines that are not left out, up to the first of them that ends the search and restricts neither addresses nor flags nor protocols |
| `UnwindLines.DispatcherExact` | controlplane/acl.cpp:383-423 | the rules of the dispatcher are those of its taken lines, in their order, with the filter of the way |
| `UnwindLines.DepthBounds` | controlplane/acl.cpp:425-430 | no chain of jumps, each from a line that is taken where the one before it leads, is longer than the depth |
| `UnwindLines.DepthReached` | controlplane/acl.cpp:425-430 | some chain of jumps is as long as the depth |
| `Filters.AndPasses` | controlplane/acl/rule.h:1017-1026 | the conjunction of two filters matches exactly the packets that both match |
| `Filters.NetworksBoth` | controlplane/acl/rule.h:233-263 | the pairwise conjunction of two network lists contains exactly the addresses in both, also for masks with gaps |
| `Filters.RangesBoth` | controlplane/acl/rule.h:371-393 | the pairwise conjunction of two range lists contains exactly the values in both |
| `Filters.NoneEmpty` | controlplane/acl/rule.h:926-929 | a filter that counts as empty matches nothing but headless fragments of protocols with ports or types |
| `Filters.CompatibleCommon` | controlplane/acl/rule.h:974-1015 | filters with a common packet are compatible, so no matching line is skipped |
| `Rules.RuleNets` | controlplane/acl_compiler.cpp:143-218 | one family of a rule gets its normalised networks, any network for a missing list, and none unless both sides have the family; an address is in the set exactly when it matches the side |
| `Rules.FamilyNets` | controlplane/acl_compiler.cpp:160-203 | the ordered set of normalised networks of one side contains exactly the matching addresses |
| `Rules.ReachesBoth` | controlplane/acl_compiler.cpp:205-215 | clearing a family that one side lacks changes nothing for pairs of addresses |
| `Rules.UnrestrictedCovers` | controlplane/acl_compiler.cpp:176-183 | one rule without networks covers all addresses |
| `NetOrder.Insert` | controlplane/acl_network.h:22-22 | inserting adds exactly one element and keeps the set in the order of addresses and then masks, as numbers |
| `Networks.Build` | controlplane/acl_compiler.cpp:343-391 | a rule lists the network group of a pair of addresses exactly when it takes both addresses, every listed group is that of some pair, and the cell of every pair lies within the table; fails exactly for gapped networks that are not supported or whose overlapping regions end at different bytes |
| `Networks.CellMatches` | controlplane/acl_network_table.cpp:59-94 | the cell of a pair of addresses lies in the row of a rule exactly when the rule takes the pair, and v4 and v6 numbers never meet |
| `Networks.SideListed` | controlplane/acl_compiler.cpp:372-375 | the group of an address lies in the range of its family and is listed for exactly the rules that take it |
| `Networks.CellFound` | controlplane/acl_network_table.cpp:59-94 | a cell in the row of a rule is the cell of a pair of addresses that the rule takes, so no group is listed without addresses |
| `Networks.MatchesTaken` | controlplane/acl_tree.h:309-340 | every pair of addresses that matches a rule is taken by it |
| `Networks.UnmixedExact` | controlplane/acl_tree.h:309-340 | if no address mixes parts of the networks of one side of a rule, rules take exactly the pairs that match them |
| `Networks.PlainExact` | controlplane/acl_tree.h:206-233 | rules with one network on each side, or with none inside a wider gapped region, are exact |
| `NetworkTable.Build` | controlplane/acl_network_table.cpp:40-135 | two cells have one group exactly when the same filters contain them, a filter lists exactly the groups of its cells, and all visited cells lie within the table of the given height and a power of two of columns |
| `NetworkTable.CellsOf` | controlplane/acl_network_table.cpp:71-92 | a filter visits the products of its v4 lists and of its v6 lists |
| `NetworkTable.InBounds` | controlplane/acl_network_table.cpp:40-57 | cells of bounded lists lie within the table |
| `Networks.GroupsBounded` | controlplane/acl_compiler.cpp:384-387 | all groups of sources and of destinations are below the last counters, which are the dimensions of the network table |
| `NetworkTable.PowerWidth` | controlplane/acl_network_table.cpp:47-51 | the width is the least power of two that is large enough |
| `GroupTable.Table.Insert` | controlplane/acl_network_table.cpp:137-155 | visiting a cell keeps the run of a filter a splitting of the partition before it |
| `GroupTable.Table.Compile` | controlplane/acl_transport_table.cpp:141-339 | after all filters two cells have one group exactly when the same filters contain them, and group 0 is in no filter |
| `GroupTable.Table.Populate` | controlplane/acl_transport_table.cpp:341-539 | a filter lists a group exactly when a cell of the filter has it, and a cell is in a filter exactly when its group is listed |
| `Partition.SplitMove` | controlplane/acl_network_table.cpp:137-155 | moving cells of one older group to its remapped group keeps the run a splitting |
| `Partition.SplitSeen` | controlplane/acl_network_table.cpp:141-142 | cells that already carry a group of this filter are left alone |
| `Partition.SplitClassifies` | controlplane/acl_network_table.cpp:59-94 | a finished run refines the partition by exactly the new filter |
| `Addresses.Build` | controlplane/acl_network.h:40-159 | for any list of network sets the finished trie gives an address a group in the range of this classifier that is listed by exactly the sets that take it, equal for addresses taken by the same sets, and group 0 if none takes it; fails exactly for gapped networks that are not supported or whose overlapping regions end at different bytes |
| `AddressCases.ComposedBeside` | controlplane/acl_tree.h:309-340 | every classifier of 10.16.5.0/255.240.255.0 with 10.32.0.0/12 beside 10.0.5.0/255.0.255.0 lists 10.16.6.0 for the first two, although it is in none of the three |
| `AddressCases.BesideUsable` | controlplane/acl_tree.h:487-563 | these networks can be prepared |
| `AddressCases.FirstGroup` | controlplane/acl_compiler.cpp:128-129 | every classifier of 10.0.0.0/8 alone, counted from 0 on, lists 11.0.0.1 |
| `Addresses.FindLookup` | controlplane/acl_tree.h:1150-1164 | walking the finished chunks byte by byte is the lookup of the model |
| `Network.AclNetwork.Collect` | controlplane/acl_network.h:40-56 | equal filters get one number, a new filter is appended and its networks become prefixes of the tree |
| `Network.AclNetwork.Prepare` | controlplane/acl_network.h:58-62 | succeeds exactly when the gapped networks are supported and overlapping ones end their gaps at one byte, and then the tree is ready for all filters |
| `Network.AclNetwork.Compile` | controlplane/acl_network.h:64-78 | afterwards two addresses have one group exactly when they are in the same parts of all filters |
| `Network.AclNetwork.CompileFilter` | controlplane/acl_network.h:66-75 | one filter refines the partition of the cells by exactly its networks |
| `Network.AclNetwork.Populate` | controlplane/acl_network.h:80-105 | every filter lists exactly the groups of the addresses that it takes |
| `Network.AclNetwork.Remap` | controlplane/acl_network.h:107-159 | two taken addresses end with one number exactly when the same filters take them; the numbers run from the shared counter on without holes |
| `Network.SimpleGroups` | controlplane/acl_tree.h:738-841 | without gapped networks two addresses look up one group exactly when they are in the same filters |
| `Renumber.ListedExactly` | controlplane/acl_compiler.cpp:128-129 | the membership test by listed numbers is right for all addresses, if and only if the counter starts above 0, or all addresses are covered, or none is |
| `Renumber.RenumberListed` | controlplane/acl_network.h:107-159 | renumbering by sets of filters keeps membership and merges exactly the groups of equal membership |
| `Renumber.Number` | controlplane/acl_network.h:107-141 | one number for every set of filters, 0 for groups that no filter lists |
| `NetworkFilters.MergedParts` | controlplane/acl_tree.h:267-290 | after the merge two addresses have one group, if and only if they are in the same parts of all filters |
| `NetworkFilters.MergedPair` | controlplane/acl_tree.h:250-290 | after the merge the group of an address stands for its pair of groups under the warp and under the root |
| `NetworkFilters.JoinedOnce` | controlplane/acl_tree.h:931-1035 | a merged group belongs to one pair of groups |
| `NetworkFilters.NetAt` | controlplane/acl_tree.h:189-248 | inserting a network visits the cell of an address under the root exactly when the address is in its part under the root, and the cell under the warp exactly when it is in its part behind the gap |
| `NetworkFilters.NetSeen` | controlplane/acl_tree.h:293-382 | reading a network gives the group of an address exactly when every part of the network has an address in the same parts of all filters |
| `NetworkFilters.ComposedIff` | controlplane/acl_tree.h:502-549 | a network has no warp of its own exactly when it lies in the wider region of another gapped network |
| `Composition.NetParts` | controlplane/acl_tree.h:206-233 | an address is in a network exactly when it is in all its parts: for a composed one in its region, and behind the gap in the widest region around it |
| `Composition.Complete` | controlplane/acl_tree.h:309-340 | a filter takes every address of its networks |
| `Mixing.MixtureExact` | controlplane/acl_tree.h:309-340 | alone, a filter takes an address of none of its networks, if and only if the address mixes parts of different networks of the filter |
| `Mixing.RightIf` | controlplane/acl_tree.h:309-340 | a filter without mixtures takes exactly the addresses of its networks, in every list |
| `Mixing.NothingComposed` | controlplane/acl_tree.h:206-233 | one network alone, and networks without a composed one, have no mixtures |
| `MixingLists.RightExact` | controlplane/acl_tree.h:206-233 | a filter is read right in every list of filters that composes its networks in one way, if and only if it has no mixtures |
| `MixingLists.RootAbove` | controlplane/acl_tree.h:513-549 | every gapped network lies in the region of one that has a warp of its own |
| `Tree.AclTree.Prepare` | controlplane/acl_tree.h:164-187 | succeeds exactly when all gapped prefixes are supported and overlapping ones end their gaps at one byte; then every gapped prefix has a warp or is composed, chunks are shared only within gaps and every prefix can be inserted |
| `Tree.AclTree.PrepareGapped` | controlplane/acl_tree.h:487-563 | a gapped prefix gets its warp chunk, or is composed with the one warp around its region, or is refused: exactly if it is not supported or a warp around it ends at another byte |
| `Tree.AclTree.Collect` | controlplane/acl_tree.h:147-162 | the prefixes stay ordered with the wider gaps first, and exactly one is added |
| `Tree.AclTree.Compose` | controlplane/acl_tree.h:536-546 | the mask of the warp is recorded for the prefix, and its region becomes a prefix without gap |
| `Tree.AclTree.AddWarp` | controlplane/acl_tree.h:551-561 | a prefix apart from all warps gets a warp, and nothing else changes |
| `NetOrder.InsertByGap` | controlplane/acl_tree.h:147-162 | inserting into the prefixes adds exactly one and keeps them in the order of the one bits of the filled masks of gapped ones, then of addresses and masks as numbers |
| `TreeCompose.ClashStep` | controlplane/acl_tree.h:517-549 | looking at the warps alone decides whether all gapped prefixes so far agree |
| `TreeCompose.WiderRegion` | controlplane/acl_tree.h:150-155 | of two gapped networks whose last parts start together, the one with fewer mask bits has the wider region |
| `TreeCompose.WideWarp` | controlplane/acl_tree.h:221-232 | the second piece of a composed network has the warp that composes it, and the first has no gap |
| `TreeCompose.ReadiedCovers` | controlplane/acl_tree.h:206-233 | a composed network contains exactly the addresses that both its pieces contain |
| `Tree.AclTree.GappedStep` | controlplane/acl_tree.h:588-650 | after the step the region of the prefix is filled with shared chunks and nothing else has changed |
| `Tree.AclTree.PrepareSimple` | controlplane/acl_tree.h:565-586 | a prefix without gap gets private chunks in the gap in which it ends |
| `Tree.AclTree.SimpleStep` | controlplane/acl_tree.h:652-736 | the prefix is led out of the shared chunks of the gap |
| `Tree.AclTree.Insert` | controlplane/acl_tree.h:189-248 | splits the groups by exactly the cells of the network: its addresses, its last part under its warp, or both pieces of a composed network |
| `Tree.AclTree.InsertComposed` | controlplane/acl_tree.h:206-233 | a composed network is inserted as its region and its wide part, with one remapping |
| `Tree.AclTree.InsertStep` | controlplane/acl_tree.h:738-841 | below a chunk, all addresses of the network are moved and no others, whatever chunks are shared |
| `Tree.AclTree.UpdateNext` | controlplane/acl_tree.h:843-884 | every address below a slot is moved once, although chunks below it may be shared |
| `Tree.AclTree.UpdateLeaf` | controlplane/acl_tree.h:843-884 | an older group id in a slot is replaced by its remapped one |
| `Tree.AclTree.Privatise` | controlplane/acl_tree.h:761-797 | giving a slot a chunk of its own changes no lookup |
| `Tree.AclTree.LastChunks` | controlplane/acl_tree.h:886-929 | collects exactly the chunks at the ends of a gap |
| `Tree.AclTree.Merge` | controlplane/acl_tree.h:267-290 | merges every warp into every end of its gap |
| `Tree.AclTree.MergeChunk` | controlplane/acl_tree.h:931-1035 | below the origin chunk the groups become joins of the groups under the warp and the origin, with memoised values |
| `Tree.AclTree.MergeSlot` | controlplane/acl_tree.h:942-1033 | all combinations of values in a warp slot and an origin slot; the internal error is never raised |
| `Tree.AclTree.MergeNew` | controlplane/acl_tree.h:959-979 | a warp chunk over an origin group gets a chunk of its own |
| `Tree.AclTree.Get` | controlplane/acl_tree.h:293-382 | adds exactly the groups of the addresses of the network, or those that both pieces of a composed network have |
| `Tree.AclTree.GetComposed` | controlplane/acl_tree.h:309-340 | the groups of the region and of the wide part, intersected |
| `Tree.AclTree.GetStep` | controlplane/acl_tree.h:1037-1120 | the groups of the addresses of a prefix below a chunk |
| `Tree.AclTree.GetNext` | controlplane/acl_tree.h:1122-1148 | the groups below a slot, skipping chunks that were read before |
| `Tree.AclTree.Remap` | controlplane/acl_tree.h:390-395 | every address gets the new number of its group, although chunks are shared |
| `Tree.AclTree.RemapChunk` | controlplane/acl_tree.h:1166-1199 | every reachable chunk is renumbered exactly once |
| `TreeGaps.MergedLookup` | controlplane/acl_tree.h:250-290 | inside a region the merge joins the group under the warp with the group of the address |
| `TreeGaps.UnmergedLookup` | controlplane/acl_tree.h:250-290 | outside all regions the merge changes nothing |
| `TreePrepare.StagePrepared` | controlplane/acl_tree.h:164-187 | what preparing leaves behind is fit for inserting and merging |
| `TreePrepare.TailCovers` | controlplane/acl_tree.h:189-234 | a gapped network is its region and, behind the gap, a network without gap |
| `TreeInsert.HangKeepsLookup` | controlplane/acl_tree.h:761-797 | a new private chunk that copies its slot changes no lookup |
| `TreeMerge.SlotPair` | controlplane/acl_tree.h:1016-1027 | two groups that meet for the first time get a new group for their pair |
| `TreeMerge.SlotKnown` | controlplane/acl_tree.h:981-984 | a memoised value is right for the slot |
| `TreeGet.HoldsLookup` | controlplane/acl_tree.h:1122-1148 | the groups held below a chunk are the groups of the addresses below it |
| `Masks.OrderedNested` | controlplane/acl_tree.h:401-404 | in the order of the set a prefix never comes before one that contains it |
| `MaskShapes.ContiguousExact` | controlplane/acl_tree.h:429-432 | a mask has no gap, if and only if it is ones, one byte of leading ones, and zeros |
| `MaskShapes.SupportedExact` | controlplane/acl_tree.h:487-510 | a gapped network is accepted, if and only if its mask has one gap, which ends at a byte boundary |
| `Masks.FillTailIs` | controlplane/acl_tree.h:202-209 | the filled mask is the bitwise or of the mask and the mask minus one |
| `Masks.ClearTailIs` | controlplane/acl_tree.h:202-209 | the cleared mask is the bitwise and of the mask and the mask plus one |
| `Masks.MinusNumber` | controlplane/acl_tree.h:202-209 | subtracting one byte by byte with a borrow is subtracting one from the number, modulo its width |
| `Masks.PlusNumber` | controlplane/acl_tree.h:202-209 | adding one byte by byte with a carry is adding one to the number, modulo its width |
| `Flat.FlatClassifier.Compile` | controlplane/acl_flat.h:82-119 | two values have one group exactly when the ranges of the same filters contain them; groups are 1, 2, ... in the order of their first value |
| `Flat.FlatClassifier.Renumber` | controlplane/acl_flat.h:189-214 | keeps the partition, numbers it densely in first-occurrence order, and reports overflow exactly when the count exceeds the size |
| `Flat.FlatClassifier.Populate` | controlplane/acl_flat.h:121-162 | a value is in a filter exactly when its group is in the filter's list |
| `Flat.FlatClassifier.Finish` | controlplane/acl_flat.h:77-162 | a finished classifier fits its filters and its groups fit the packed key; it overflows exactly when the ranges tell every two values apart |
| `Flat.OverflowExact` | controlplane/acl_flat.h:209-212 | overflow, if and only if every value is in a group of its own |
| `TransportFilter.Make` | controlplane/acl_filter.cpp:5-155 | the field ranges hold exactly what the protocol part allows; fails exactly for TCP flags with UDP, ICMP or ICMPv6 |
| `TransportFilter.FieldsAsRule` | controlplane/acl_filter.cpp:5-155 | matching by fields is matching the protocol part of the rule |
| `TransportFilter.MakeFlags` | controlplane/acl_filter.cpp:157-196 | the flag values are exactly those of the listed fragment states |
| `TransportLayer.Build` | controlplane/acl_transport.cpp:114-177 | the classifiers of a layer fit all its filters; fails exactly when some field is split completely |
| `TransportTable.HeaderMatch` | controlplane/acl_transport_table.cpp:186-336 | the header groups of a packet are among those of a filter exactly when the filter matches the packet, although protocols may share a group |
| `TransportTable.Headers` | controlplane/acl_transport_table.cpp:186-336 | the headers that the loops of a filter enumerate |
| `TransportTable.SameProtocol` | controlplane/acl_transport_table.cpp:186-205 | protocols of one group are treated alike by every filter of the layer |
| `TransportKeys.FilterKeys` | controlplane/acl_transport_table.cpp:146-339 | the keys of a filter over all layers, each network id in its own layer |
| `TransportKeys.PacketKey` | controlplane/acl_transport_table.cpp:141-339 | the key of a packet is one of a filter's keys exactly when network, flags and transport part all match |
| `TransportKeys.PacketKeyInTable` | controlplane/acl_transport_table.cpp:107-139 | the key of a packet lies within the dimensions of its layer's table, in the column of its network id |
| `TransportKeys.FilterKeyInTable` | controlplane/acl_transport_table.cpp:107-139 | every cell that a filter visits lies within the dimensions of the table of its layer |
| `TransportKeys.Columns` | controlplane/acl_transport_table.h:35-48 | every network id of a layer gets its own column |
| `TransportKeys.ColumnUnique` | controlplane/acl_transport_table.h:50-60 | a column decodes back to its network id |
| `TransportGroups.Build` | controlplane/acl_transport_table.cpp:76-92 | a filter is listed for the group of a cell exactly when the cell is one of its keys, and all visited cells lie within the tables |
| `TransportGroups.Listing` | controlplane/acl_transport_table.cpp:589-600 | the filters of a group, each once, in increasing order |
| `Transports.Flags` | controlplane/acl_compiler.cpp:413-421 | the classifier of network flags lists a packet's flags for exactly the rules that match them, and it cannot overflow |
| `Transports.Filters` | controlplane/acl_transport.cpp:27-40 | every rule gets the number of its transport filter, every number belongs to a rule and equal filters share one, numbered as they first occur; fails exactly for a rule with misplaced TCP flags |
| `Transports.SameTransport` | controlplane/acl_transport.cpp:27-40 | rules that share a transport filter match the same segments |
| `Capacity.MadeTells` | controlplane/acl_filter.cpp:5-155 | every field of a filter tells two values apart exactly when the ranges that the rule brings to it do |
| `Capacity.OverflowDown` | controlplane/acl_flat.h:209-212 | an overflowing layer means that the rules of its filters together split a header field completely |
| `Capacity.OverflowUp` | controlplane/acl_flat.h:209-212 | rules that split a header field completely make every layer overflow that holds their filters |
| `Capacity.ApartNeeds` | controlplane/acl_flat.h:189-214 | telling every two of n values apart takes at least (n - 1) / 2 ranges |
| `Capacity.FewRangesFit` | controlplane/acl_flat.h:209-212 | rules with at most 127 ranges in all never overflow |
| `Capacity.WindowsOverflow` | controlplane/acl_flat.h:209-212 | 128 ranges can overflow: 128 rules, each for a window of 128 protocols |
| `Layers.Wanted` | controlplane/acl_transport.cpp:48-62 | for every network group exactly the transport filters that some rule needs with it |
| `Layers.Distribute` | controlplane/acl_transport.cpp:69-112 | every group is in exactly one layer, that layer holds every filter the group needs, there are at most the maximum number of layers, and their filters are those of the greedy distribution of the variations in their order: larger sets first, and of two sets of one size the one with the least number that is in one of them only |
| `Layers.Choose` | controlplane/acl_transport.cpp:76-107 | the first layer that is new, is empty or holds all filters, else the first of those that grow least |
| `Layers.BestExact` | controlplane/acl_transport.cpp:76-107 | the chosen layer is the first that is new, is empty or holds all filters; if there is none, no layer grows less and all before it grow more |
| `Layers.LayersExact` | controlplane/acl_transport.cpp:69-112 | from one empty layer on, one variation after the other adds its filters to the chosen layer and to no other |
| `Layers.OrderKeys` | controlplane/acl_transport.h:78-89 | the sets in their order: a larger set before a smaller one, and of two sets of one size first the one with the least number that is in one of them only |
| `Layers.LargerIs` | controlplane/acl_transport.h:78-89 | the comparator is the order by size and then by the least number that is in one of the sets only |
| `Layers.DescendingUnique` | controlplane/acl_transport.h:78-89 | there is only one list of the same sets in which no set comes before a larger one, or before one of its size that has the least number that is in one of the two only |
| `Layers.BeforeTotal` | controlplane/acl_transport.h:78-89 | of two different variations one comes first |
| `Layers.PackDecodes` | controlplane/acl_network_table.cpp:179-180 | group and layer can be read back from a packed id |
| `Layers.PackInjective` | controlplane/acl_compiler.cpp:26-26 | packing is injective, if and only if the maximum number of layers is a power of two |
| `Packing.PackAll` | controlplane/acl_network_table.cpp:164-190 | every group gets its packed id; the error "layers broken" is raised exactly when a group is in two layers |
| `Packing.LayerDecodes` | dataplane/worker.cpp:1419-1419 | the mask of the layers, an upper power of two of their number, reads the layer back from the id |
| `NetworkIds.Spread` | controlplane/acl_transport.cpp:48-112 | every group that a rule lists is in one layer, which holds the rule's transport filter; the variations are exactly the filter sets that groups want |
| `NetworkIds.IdFound` | controlplane/acl_network_table.cpp:164-219 | a rule lists a group exactly when it lists its id, in the layer that the id names and that holds the id and the rule's filter |
| `NetworkIds.Build` | controlplane/acl_compiler.cpp:423-442 | after packing, addresses are taken by a rule exactly when their id is listed for it in the right layer; fails exactly if the rules with the filters of some layer together overflow: only if all live rules do, always if those of one pair of addresses do, and with one layer exactly if all live rules do |
| `NetworkIds.OverflowExact` | controlplane/acl_transport.cpp:69-177 | some layer overflows, if and only if the distribution of the filter sets of all pairs of addresses puts overflowing rules into one layer |
| `NetworkIds.WantsVariation` | controlplane/acl_transport.cpp:48-67 | the sets of filters that network groups want are exactly those of the rules of pairs of addresses |
| `NetworkIds.LayerExact` | controlplane/acl_flat.h:209-212 | a layer overflows exactly if the rules with its filters do |
| `NetworkIds.LayerLive` | controlplane/acl_transport.cpp:114-177 | a layer overflows only if the live rules together do |
| `NetworkIds.PairFails` | controlplane/acl_transport.cpp:69-112 | the filters of the rules of one pair of addresses meet in one layer, so if they overflow a layer does |
| `NetworkIds.SingleFails` | controlplane/acl_transport.cpp:69-112 | in a single layer all live rules meet |
| `TotalTable.Compile` | controlplane/acl_total_table.cpp:35-95 | a key exists exactly for an acl and group with a rule, and its entry lists the rules in increasing order up to the first terminating one |
| `TotalTable.Fill` | controlplane/acl_total_table.cpp:62-91 | one entry: the first rule, and the following until one terminates |
| `TotalTable.Gather` | controlplane/acl_total_table.cpp:17-21 | every rule is filed under its filter and acl |
| `TotalTable.Store.Collect` | controlplane/acl_value.cpp:26-30 | a new entry holds the one action |
| `TotalTable.Store.AppendToLast` | controlplane/acl_value.cpp:32-35 | only the last entry grows |
| `TotalTable.Store.Compile` | controlplane/acl_value.cpp:72-80 | every entry is compiled to the path that its actions call for |
| `Actions.Intermediate.Add` | common/actions.h:397-415 | the path is the actions of the list with one more, at increasing positions: flows, the first check-state, the last timeout, dumps with fewer than 8 dumps and hit counts with fewer than 10000 hit counts before them; the remembered positions stay right |
| `Actions.Intermediate.AddTimeout` | common/actions.h:526-537 | the previous timeout is erased and all remembered positions move with it |
| `Actions.Intermediate.AddFlow` | common/actions.h:483-501 | a second flow replaces the first |
| `Actions.Intermediate.RemoveAt` | common/actions.h:555-578 | after erasing an action every other remembered position still names the same action |
| `Actions.Intermediate.EnsureTermination` | controlplane/acl_value.cpp:37-46 | a path without flow gets the default drop |
| `Actions.Intermediate.MoveTimeout` | controlplane/acl_value.cpp:48-58 | the last timeout leaves the path and becomes part of the flow |
| `Actions.Intermediate.Finalize` | common/actions.h:657-673 | the path without check-state, and the prefix up to the first check-state |
| `Actions.Intermediate.Compile` | controlplane/acl_value.cpp:37-80 | the default path is, at increasing positions, the dumps with fewer than 8 dumps and the hit counts with fewer than 10000 hit counts before them, then the flow with the last timeout; the known path is those before the first check-state, then that |
| `Actions.PicksAre` | common/actions.h:397-415 | the kept actions are those at the positions that stay, counted directly: for the dumps and hit counts, for all but timeouts, and for the whole path |
| `Actions.PicksOnce` | common/actions.h:397-415 | the positions that stay determine the kept actions |
| `Actions.ExecutesOnce` | controlplane/acl_value.cpp:37-80 | the matched actions determine the executed path |
| `Actions.CoreParts` | common/actions.h:657-673 | taking the first check-state out of the kept actions leaves the dumps and hit counts |
| `Actions.PlacedOut` | common/actions.h:555-578 | taking the timeout out of the path leaves the other kept actions |
| `PrefixTrie.Node.Insert` | common/btree.h:170-190 | the map of the node changes at exactly the key, and no node is shared |
| `PrefixTrie.Node.Remove` | common/btree.h:192-220 | the key leaves the map, and no child without value and children stays |
| `PrefixTrie.Node.Find` | common/btree.h:222-242 | the value of the map |
| `PrefixTrie.Node.Lookup` | common/btree.h:267-292 | the longest stored prefix below the node, else what was found above |
| `PrefixTrie.Node.LookupAll` | common/btree.h:294-319 | all stored prefixes of the key, the shortest first |
| `PrefixTrie.LongestIs` | common/btree.h:267-292 | the reported prefix is stored and no longer prefix of the key is |
| `PrefixTrie.LongestJoined` | common/btree.h:267-292 | the longest prefix at a node is that of the child on the key's way, else the node's own |
| `TrieWalk.Trie.Insert` | common/btree.h:26-36 | the trie refines a map: insertion |
| `TrieWalk.Trie.Remove` | common/btree.h:47-56 | the trie refines a map: removal |
| `TrieWalk.Trie.Lookup` | common/btree.h:109-120 | the longest stored prefix of the key with its value and length, or none is stored |
| `TrieWalk.Trie.LookupDeep` | common/btree.h:141-152 | first the longest match under the prefix itself, then every stored longer prefix exactly once with its address |
| `TrieWalk.Trie.GetAllTop` | common/btree.h:96-107 | exactly the stored prefixes without a stored shorter one, each once |
| `TrieWalk.Deep` | common/btree.h:321-395 | the walk with a key that is changed bit by bit reports the right keys and restores the key |
| `TrieWalk.Collect` | common/btree.h:349-367 | everything below a node, each key once, with the key restored |
| `TrieWalk.AllTop` | common/btree.h:244-265 | the topmost keys below a node, each once, with the key restored |
| `TrieWalk.ListsJoin` | common/btree.h:321-395 | the reports of a node and its children together are complete and free of repetitions |
| `Stream.WrittenExact` | common/stream.h:104-281 | bytes are the written ones of a value, if and only if they are what the form of its type says: texts and collections after their length in 8 bytes with the lowest first, variants after their index in 8 bytes, options after a byte 0 or 1, the elements one after the other |
| `Stream.DigitsAt` | common/stream.h:609-656 | byte i of a number is its digit i to the base 256 |
| `Stream.RoundTrip` | common/stream.h:104-281 | reading the bytes of a value of any type into a blank variable, whatever follows them, gives the value and stops behind it |
| `Stream.IntoExact` | common/stream.h:385-556 | all values of a type are read back into a variable, if and only if the variable is blank: no text, option, set or map in it holds anything |
| `Stream.NotBlank` | common/stream.h:385-556 | for every variable that is not blank there is a value that is not read back |
| `Stream.PrefixFails` | common/stream.h:330-605 | reading any strict prefix of the bytes of a value fails |
| `Stream.Truncated` | common/stream.h:330-605 | a successful read depends on exactly the bytes it consumed |
| `Stream.StreamOut.Push` | common/stream.h:609-656 | appends exactly the bytes of the value |
| `Stream.StreamIn.Pop` | common/stream.h:330-605 | reads what the bytes from the position on encode into the variable, or fails for good at the end |
| `Stream.StreamIn.PopMany` | common/stream.h:442-538 | vectors are resized and read over and stop at a failure, sets and maps go on with what they hold, and a failure stays |
| `Stream.StreamIn.PopItem` | common/stream.h:460-472 | an entry of a map is read into the value that its key has already |
| `Weight.Table.Insert` | common/weight.h:31-75 | the named slice holds the expanded weights; equal lists share it, other slices are disjoint and stay as they are; the fallback is taken exactly when there is no room or no id, although the sum is taken in 32 bits, and names the first items of the slice 0, 1, ..., 255 with which the table always begins |
| `Weight.FitsExact` | common/weight.h:41-46 | the test for room in 32 bits is right, if and only if the sum of the size and the weights stays below 2^32 or wraps to a value above the limit |
| `Weight.WrappedInput` | common/weight.h:41-46 | two weights that together are 2^32 pass the test for any table |
| `Weight.ExpandCounts` | common/weight.h:59-68 | item i occurs exactly weights[i] times in its slice |
| `Weight.ExpandOrdered` | common/weight.h:59-68 | items are in order in a slice |
| `Weight.ExpandOnes` | common/weight.h:24-28 | the fallback slice names items 0 to 255 in order |
| `Weight.SliceMore` | common/weight.h:57-70 | a slice behind the others leaves them unchanged |
| `RefArray.Allocator.Insert` | common/refarray.h:51-77 | a new value gets a free id; None exactly when all ids are in use; ids and values stay in bijection |
| `RefArray.Allocator.Update` | common/refarray.h:35-49 | one more reference to a known value |
| `RefArray.Allocator.UpdateOrInsert` | common/refarray.h:79-93 | a known value keeps its id, a new one gets a free id |
| `RefArray.Allocator.RemoveValue` | common/refarray.h:128-155 | the id is given back exactly with the last reference |
| `RefArray.Allocator.RemoveId` | common/refarray.h:95-126 | the value is given back exactly with the last reference |
| `RefArray.TakeFree` | common/refarray.h:63-67 | taking an id from the free list keeps the accounting of ids |
| `Generation.Manager.Update` | common/generation.h:186-194 | the next generation is the fold of all updates, the current one does not change |
| `Generation.Manager.Switch` | common/generation.h:197-217 | afterwards both generations are the fold of all updates |
| `Generation.FoldJoin` | common/generation.h:208-213 | replaying queued updates continues the fold |
| `Balancer.Controller.SetReals` | controlplane/balancer.cpp:655-678 | the enabled reals are the requests applied in order, exactly the requested reals become pending, and every configured real stays pending or shown |
| `Balancer.LastRequest` | controlplane/balancer.cpp:655-678 | the last request for a real decides whether it is enabled and with which weight, and a real without request keeps its state |
| `Balancer.Controller.Reconfigure` | controlplane/balancer.cpp:993-1106 | all reals with a weight of least-connection services get the computed weight, no other weight changes, and exactly those with a changed weight become pending |
| `Balancer.Controller.SetWlc` | controlplane/balancer.cpp:1091-1100 | a changed weight makes this real pending and no other, an unchanged one changes nothing |
| `Balancer.Controller.Flush` | controlplane/balancer.cpp:878-967 | afterwards no configured real with an id is pending, and the dataplane has it enabled exactly if it is, with the weight by least connections, else that of the request, else the configured one; other ids and pending reals stay as they are |
| `Balancer.Controller.FlushReal` | controlplane/balancer.cpp:914-961 | a pending real with an id is sent, with the weight by least connections, else that of the request, else the configured one, and is no longer pending |
| `Balancer.WlcOfExact` | controlplane/balancer.cpp:1036-1089 | the computed weight of a real, from the weights and connections of its service: sums in 32 bits over the reals, connections of those with a weight only, the power of the service if it is from 1 to 100 and else 10 |
| `Balancer.WeightsAdded` | controlplane/balancer.cpp:1036-1048 | the weight sum is that of the weights of the requests, else of the configuration, in 32 bits |
| `Balancer.LoadsAdded` | controlplane/balancer.cpp:1050-1074 | the load sum is that of the connections of the reals with a weight, in 32 bits |
| `Balancer.WlcWeight` | controlplane/balancer.cpp:1108-1126 | the weight is never lowered below an admissible configured one nor raised above the maximum |
| `Balancer.WlcExact` | controlplane/balancer.cpp:1108-1126 | in whole numbers: the weight boosted by the part of its share that a real does not carry, rounded half up, at least the configured weight and at most 100; a share of 0 gives no boost |

## Left out

- More than one thread of the transport table, logging, text rendering and capacity reservation.
- The 31-bit and 32-bit widths of group ids and packed ids; numbers are unbounded.
- What the dataplane does after a lookup misses the total table: it executes the first compiled value.
- `recordstate`, the rule ids and the log flag of flat rules: they do not decide what a rule matches, and `recordstate` has a single value.
- The empty sections that a jump inserts into the firewall map, and the error for rules of the parser.
- Jumps that lead backwards or behind the last line are excluded by `Unwind.Forward`, as is a dispatcher without a line for all packets of the direction.
- Filters with ports or types that mix UDP with ICMP or ICMPv6 are excluded by `TransportFilter.Unmixed`: the shared group fields of the transport key do not tell them apart.
- The hash tables of the dataplane and the flattening of tables into lists of rows; a lookup finds the row with its key.
- Generations with queued `fill` requests, locks and waiting.
- Reloading balancer configurations; the configuration is fixed while reals change.
- Balancer.WlcWeight: computes over real numbers where the source rounds in floating point.
- Weight.Table.Insert: asks that the 32-bit sum does not wrap into the limit, the exact condition of `Weight.FitsExact`; beyond it the source writes behind its vector.
- Stream.StreamIn.Pop: what a variable holds after a failure is not stated.
