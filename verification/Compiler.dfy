/**
  The whole compiler (`compiler_t::compile`) and the chain of lookups of a packet: the actions that
  a packet reaches are those of the rules of its acl that match it, in order, up to and including
  the first terminating one.
*/
module Compiler {
  import opened Base
  import opened Nets
  import opened Flat
  import opened GroupTable
  import opened NetworkTable
  import opened Actions
  import opened Rules
  import Composition
  import Addresses
  import opened Networks
  import opened Layers
  import opened Packing
  import opened TransportFilter
  import opened TransportLayer
  import opened TransportTable
  import opened TransportKeys
  import opened Transports
  import opened Capacity
  import opened NetworkIds
  import opened TransportGroups
  import opened TotalTable

  // ----- the reference ----------------------------------------------------------------------

  /** Rule r belongs to the acl of the packet and matches it. */
  ghost predicate Applies(rules: seq<Rule>, p: Packet, r: nat) {
    r < |rules| && rules[r].acl == p.acl && RuleMatches(rules[r], p)
  }

  ghost function Applying(rules: seq<Rule>, p: Packet): iset<nat> {
    iset r: nat | Applies(rules, p, r)
  }

  /** The classifiers take the packet for one of rule r. */
  ghost predicate RuleTakes(rules: seq<Rule>, r: nat, p: Packet)
    requires r < |rules|
  {
    NetTakes(rules, r, p.v6, p.source, p.destination) && FragmentMatches(rules[r], p.flags)
    && Matches(rules[r].proto, p.segment)
  }

  /** Rule r belongs to the acl of the packet and takes it. */
  ghost predicate Claims(rules: seq<Rule>, p: Packet, r: nat) {
    r < |rules| && rules[r].acl == p.acl && RuleTakes(rules, r, p)
  }

  ghost function Claiming(rules: seq<Rule>, p: Packet): iset<nat> {
    iset r: nat | Claims(rules, p, r)
  }

  /** Where the classifiers are exact, the rules that take the packet are those that match it. */
  lemma ClaimsApply(rules: seq<Rule>, p: Packet)
    requires RulesValid(rules) && NetsUsable(rules) && NetsExact(rules) && p.Valid()
    ensures Claiming(rules, p) == Applying(rules, p)
  {
    hide RulesValid, NetsUsable, NetTakes, NetMatches, FragmentMatches, Matches;
    forall r: nat
      ensures Claims(rules, p, r) <==> Applies(rules, p, r)
    {
      if r < |rules| && NetMatches(rules[r], p.v6, p.source, p.destination) {
        MatchesTaken(rules, r, p.v6, p.source, p.destination);
      }
    }
  }

  /** The rules have the same networks. */
  ghost predicate SameNetworks(rules: seq<Rule>, rules': seq<Rule>) {
    && |rules'| == |rules|
    && forall k | 0 <= k < |rules| ::
         rules'[k].source == rules[k].source && rules'[k].destination == rules[k].destination
  }

  lemma SidesSame(rules: seq<Rule>, rules': seq<Rule>, v6: bool, source: bool)
    requires SameNetworks(rules, rules')
    ensures SideSets(rules', v6, source) == SideSets(rules, v6, source)
  {
    hide ListsNet;
    forall k | 0 <= k < |rules|
      ensures SideSets(rules', v6, source)[k] == SideSets(rules, v6, source)[k]
    {
    }
  }

  lemma TakesAlike(rules: seq<Rule>, rules': seq<Rule>)
    requires SameNetworks(rules, rules')
    ensures NetsExact(rules') <==> NetsExact(rules)
    ensures NetsUsable(rules') <==> NetsUsable(rules)
  {
    hide SideSets, Composition.Takes, Addresses.Usable;
    forall v6: bool, source: bool
      ensures SideSets(rules', v6, source) == SideSets(rules, v6, source)
    {
      SidesSame(rules, rules', v6, source);
    }
    forall k, v6: bool, a: Bytes, b: Bytes | 0 <= k < |rules|
      ensures NetTakes(rules', k, v6, a, b) <==> NetTakes(rules, k, v6, a, b)
      ensures NetMatches(rules'[k], v6, a, b) <==> NetMatches(rules[k], v6, a, b)
    {
    }
    hide NetTakes, NetMatches;
  }

  /** The same rules without their fragment and protocol parts. */
  ghost function Bare(rules: seq<Rule>): (r: seq<Rule>)
    ensures |r| == |rules| && forall k | 0 <= k < |rules| :: r[k] == rules[k].(fragment := None, proto := None)
  {
    seq(|rules|, k requires 0 <= k < |rules| => rules[k].(fragment := None, proto := None))
  }

  /**
    The networks are exact, if and only if for all rules with these networks, whatever else they say, the
    rules that take a packet are those that match it.
  */
  lemma ExactIff(rules: seq<Rule>)
    requires RulesValid(rules) && NetsUsable(rules)
    ensures NetsExact(rules)
            <==> forall rules': seq<Rule>, p: Packet | SameNetworks(rules, rules') && RulesValid(rules') && p.Valid() ::
                   Claiming(rules', p) == Applying(rules', p)
  {
    hide NetsUsable, NetTakes, NetMatches, SameNetworks;
    if NetsExact(rules) {
      forall rules': seq<Rule>, p: Packet | SameNetworks(rules, rules') && RulesValid(rules') && p.Valid()
        ensures Claiming(rules', p) == Applying(rules', p)
      {
        TakesAlike(rules, rules');
        ClaimsApply(rules', p);
      }
    } else {
      var k, v6: bool, a: Bytes, b: Bytes :| 0 <= k < |rules| && |a| == |b| == Width(v6) && NetTakes(rules, k, v6, a, b)
        && !NetMatches(rules[k], v6, a, b);
      var rules' := Bare(rules);
      var p := Packet(v6, a, b, 0, Segment(0, false, 0, 0, 0), rules[k].acl);
      BareTakes(rules, k, v6, a, b);
      assert Claims(rules', p, k) && !Applies(rules', p, k);
      assert k in Claiming(rules', p) && k !in Applying(rules', p);
    }
  }

  lemma BareTakes(rules: seq<Rule>, k: nat, v6: bool, a: Bytes, b: Bytes)
    requires RulesValid(rules) && k < |rules|
    ensures SameNetworks(rules, Bare(rules)) && RulesValid(Bare(rules))
    ensures NetTakes(Bare(rules), k, v6, a, b) <==> NetTakes(rules, k, v6, a, b)
    ensures NetMatches(Bare(rules)[k], v6, a, b) <==> NetMatches(rules[k], v6, a, b)
  {
    hide SideSets, Composition.Takes, NetworksValid;
    SidesSame(rules, Bare(rules), v6, true);
    SidesSame(rules, Bare(rules), v6, false);
  }

  /** No rule among the hits before r ends the search. */
  ghost predicate StillOpen(rules: seq<Rule>, hits: iset<nat>, r: nat) {
    forall q: nat | q < r && q < |rules| && q in hits :: !rules[q].action.Flow?
  }

  /** The hits, in order, up to and including the first that ends the search. */
  ghost predicate FirstRules(rules: seq<Rule>, hits: iset<nat>, list: seq<nat>) {
    Increasing(list) && forall r: nat :: r in list <==> r in hits && StillOpen(rules, hits, r)
  }

  /** There is only one such list. */
  lemma FirstRulesUnique(rules: seq<Rule>, hits: iset<nat>, a: seq<nat>, b: seq<nat>)
    requires FirstRules(rules, hits, a) && FirstRules(rules, hits, b)
    ensures a == b
  {
    SameIncreasing(a, b);
  }

  ghost function ActionsOf(rules: seq<Rule>, list: seq<nat>): (r: seq<Action>)
    requires forall i | 0 <= i < |list| :: list[i] < |rules|
    ensures |r| == |list|
  {
    seq(|list|, i requires 0 <= i < |list| => rules[list[i]].action)
  }

  // ----- the tables and the lookups ---------------------------------------------------------

  datatype Compiled = Compiled(classifiers: Classifiers, networks: map<Pair, nat>, flags: FlatTable,
                               layers: seq<TableLayer>, shift: nat,
                               transports: map<Key, nat>, total: map<(nat, nat), nat>, values: seq<Path>, height: nat,
                               width: nat)
  {
    /** Lookups stay within their tables. */
    ghost predicate Valid() {
      && (forall l | 0 <= l < |layers| :: Looks(layers[l].tables)) && flags.Fits(256)
      && (forall k | k in total :: total[k] < |values|)
    }

    /** The transport group of a packet, if its network id has a row in the transport table. */
    function Group(p: Packet): Option<nat>
      requires Valid() && p.Valid()
    {
      var net := At(networks, classifiers.Cell(p.v6, p.source, p.destination));
      var l := LayerOf(net, |layers|);
      if l >= |layers| || net !in layers[l].nets then None
      else Some(At(transports, KeyFor(layers, l, net, flags.values[p.flags], p.segment, shift)))
    }

    /** The actions of a packet; None if the total table has no entry. */
    function Lookup(p: Packet): Option<Path>
      requires Valid() && p.Valid()
    {
      var g := Group(p);
      if g.None? || (p.acl, g.value) !in total then None else Some(values[total[(p.acl, g.value)]])
    }
  }

  /** The lookup of the packet finds the actions of the hits, and nothing if there are none. */
  ghost predicate Correct(c: Compiled, rules: seq<Rule>, drop: Action, p: Packet, hits: iset<nat>)
    requires c.Valid() && p.Valid() && drop.Flow?
  {
    && (c.Lookup(p).None? <==> forall r: nat :: r !in hits)
    && (c.Lookup(p).Some? ==> exists list :: Reaches(rules, drop, hits, list, c.Lookup(p).value))
  }

  /** The lookup of the packet stays within the dimensions of the network table and of the transport table. */
  ghost predicate Inside(c: Compiled, p: Packet)
    requires c.Valid() && p.Valid()
  {
    var cell := c.classifiers.Cell(p.v6, p.source, p.destination);
    var net := At(c.networks, cell);
    var l := LayerOf(net, |c.layers|);
    && cell.0 < c.height && cell.1 < c.width
    && (l < |c.layers| && net in c.layers[l].nets ==>
          KeyInside(c.layers[l], c.flags, KeyFor(c.layers, l, net, c.flags.values[p.flags], p.segment, c.shift)))
  }

  ghost predicate Reaches(rules: seq<Rule>, drop: Action, hits: iset<nat>, list: seq<nat>, path: Path)
    requires drop.Flow?
  {
    && list != [] && (forall i | 0 <= i < |list| :: list[i] < |rules|) && FirstRules(rules, hits, list)
    && Executes(path, ActionsOf(rules, list), drop)
  }

  // ----- one rule and one packet ------------------------------------------------------------

  /** The parts that a rule contributes to the transport table. */
  function RowOf(s: NetStage, flagIds: seq<nat>, transportIds: seq<nat>, k: nat): TableFilter
    requires k < |s.ids| && k < |flagIds| && k < |transportIds|
  {
    TableFilter(s.ids[k], flagIds[k], transportIds[k])
  }

  /** All stages before the total table. */
  ghost predicate Staged(rules: seq<Rule>, s: NetStage, flags: FlatTable, flagIds: seq<nat>, transports: seq<Transport>,
                         transportIds: seq<nat>, protos: seq<Option<Proto>>, t: IdStage, table: TableStage,
                         rows: seq<TableFilter>,
                         distinct: seq<TableFilter>) {
    && FlagsFit(rules, flags, flagIds) && TransportsFit(rules, transports, transportIds, protos)
    && IdStageFits(t, s, rules, transports, transportIds) && GroupsListed(table, rows, distinct, t, flags)
    && |rows| == |rules| && forall k | 0 <= k < |rules| :: rows[k] == RowOf(s, flagIds, transportIds, k)
  }

  /** The rule takes the packet exactly when its filter is listed for the transport group of the packet. */
  lemma RuleListed(rules: seq<Rule>, s: NetStage, flags: FlatTable, flagIds: seq<nat>, transports: seq<Transport>,
                   transportIds: seq<nat>,
                   protos: seq<Option<Proto>>, t: IdStage, table: TableStage, rows: seq<TableFilter>,
                   distinct: seq<TableFilter>,
                   c: Compiled, p: Packet, k: nat)
    requires Staged(rules, s, flags, flagIds, transports, transportIds, protos, t, table, rows, distinct)
    requires c.Valid() && c.classifiers == s.classifiers && c.networks == t.cells && c.flags == flags
             && c.layers == t.layers
    requires c.shift == t.shift && c.transports == table.cells && p.Valid() && k < |rules|
    ensures |table.ids| == |rules|
    ensures RuleTakes(rules, k, p) <==> c.Group(p).Some? && HasFilter(table.listed, c.Group(p).value, table.ids[k])
  {
    hide IdStageFits, FlagsFit, TransportsFit, Ready, KeyOf, KeyFor, NetTakes, FragmentMatches, Matches, FlatFits,
         Looks;
    var net := At(t.cells, s.classifiers.Cell(p.v6, p.source, p.destination));
    var l := LayerOf(net, |t.layers|);
    StageParts(rules, s, flags, flagIds, transports, transportIds, protos, t, p, k);
    var r := table.ids[k];
    assert distinct[r] == rows[k];
    if l < |t.layers| && net in t.layers[l].nets {
      var key := KeyFor(t.layers, l, net, flags.values[p.flags], p.segment, t.shift);
      LayerMade(rules, transports, transportIds, protos, t.layers[l].filters);
      PacketKey(rows[k], t.layers, t.groups[s.ids[k]], flags.groups[flagIds[k]], t.shift, transports, protos, l, net,
                flags.values[p.flags], p.segment);
      assert FilterListed(table, distinct, t, flags, r, key);
    }
  }

  lemma StageParts(rules: seq<Rule>, s: NetStage, flags: FlatTable, flagIds: seq<nat>, transports: seq<Transport>,
                   transportIds: seq<nat>,
                   protos: seq<Option<Proto>>, t: IdStage, p: Packet, k: nat)
    requires FlagsFit(rules, flags, flagIds) && TransportsFit(rules, transports, transportIds, protos)
    requires IdStageFits(t, s, rules, transports, transportIds) && p.Valid() && k < |rules|
    ensures |s.ids| == |flagIds| == |transportIds| == |rules| && s.ids[k] < |t.groups| && flagIds[k] < |flags.groups|
    ensures Ready(t.layers, transports, t.shift) && transportIds[k] < |transports| == |protos|
    ensures p.flags < |flags.values| && flags.values[p.flags] >= 1
    ensures IdMatches(t, s, rules, transportIds, k, p.v6, p.source, p.destination)
    ensures FragmentMatches(rules[k], p.flags) <==> flags.values[p.flags] in flags.groups[flagIds[k]]
    ensures Matches(protos[transportIds[k]], p.segment) <==> Matches(rules[k].proto, p.segment)
  {
    hide Ready, MadeFrom, IdMatches, Matches, Occurs, InFirstOrder, InRanges;
    assert FlagsListed(rules, flags, flagIds, k, p.flags);
    SameTransport(rules, transports, transportIds, protos, k, p.segment);
  }

  lemma LayerMade(rules: seq<Rule>, transports: seq<Transport>, ids: seq<nat>, protos: seq<Option<Proto>>,
                  held: set<nat>)
    requires TransportsFit(rules, transports, ids, protos)
    ensures AllMade(held, transports, protos)
  {
    hide MadeFrom, Unmixed;
  }

  // ----- the theorem ------------------------------------------------------------------------

  /** Every value executes the actions of its list of rules. */
  ghost predicate ValuesFit(rules: seq<Rule>, drop: Action, lists: seq<seq<nat>>, values: seq<Path>)
    requires drop.Flow?
  {
    |values| == |lists| && forall i | 0 <= i < |lists| :: ValueFits(rules, drop, lists[i], values[i])
  }

  ghost predicate ValueFits(rules: seq<Rule>, drop: Action, list: seq<nat>, value: Path)
    requires drop.Flow?
  {
    list != [] && (forall i | 0 <= i < |list| :: list[i] < |rules|) && Executes(value, ActionsOf(rules, list), drop)
  }

  lemma StoreFits(rules: seq<Rule>, drop: Action, actions: seq<Action>, list: seq<nat>, value: Path)
    requires drop.Flow? && StoreOf(rules, actions) && actions[0] == drop && TotalTable.Known(actions, ActionIds(list))
    requires Executes(value, Select(actions, ActionIds(list)), drop)
    ensures ValueFits(rules, drop, list, value)
  {
    hide Executes;
    forall i | 0 <= i < |list|
      ensures list[i] < |rules|
    {
      assert ActionIds(list)[i] == list[i] + 1;
    }
    assert Select(actions, ActionIds(list)) == ActionsOf(rules, list);
  }

  /** The rules of the group of the packet are the hits. */
  lemma HitsApply(rules: seq<Rule>, ids: seq<nat>, listed: map<nat, seq<nat>>, acl: nat, g: nat, hits: iset<nat>,
                  list: seq<nat>)
    requires forall r: nat :: Hit(rules, ids, listed, acl, g, r) <==> r in hits
    requires FirstHits(rules, ids, listed, acl, g, list)
    ensures FirstRules(rules, hits, list)
  {
    hide Increasing;
    forall r: nat
      ensures Open(rules, ids, listed, acl, g, r) <==> StillOpen(rules, hits, r)
    {
    }
    hide Open, StillOpen, Hit;
  }

  lemma PacketCorrect(rules: seq<Rule>, s: NetStage, flags: FlatTable, flagIds: seq<nat>, transports: seq<Transport>,
                      transportIds: seq<nat>,
                      protos: seq<Option<Proto>>, t: IdStage, table: TableStage, rows: seq<TableFilter>,
                      distinct: seq<TableFilter>,
                      c: Compiled, drop: Action, lists: seq<seq<nat>>, p: Packet)
    requires Staged(rules, s, flags, flagIds, transports, transportIds, protos, t, table, rows, distinct)
    requires c.Valid() && c.classifiers == s.classifiers && c.networks == t.cells && c.flags == flags
             && c.layers == t.layers
    requires c.shift == t.shift && c.transports == table.cells && p.Valid() && drop.Flow?
    requires EntriesFit(rules, table.ids, table.listed, c.total, lists) && ValuesFit(rules, drop, lists, c.values)
    requires forall acl: nat, g: nat :: (acl, g) in c.total <==> SomeHit(rules, table.ids, table.listed, acl, g)
    ensures Correct(c, rules, drop, p, Claiming(rules, p))
  {
    hide Staged, RuleTakes, Executes, EntriesFit, FirstHits, FirstRules, HasFilter;
    forall k: nat | k < |rules|
      ensures |table.ids| == |rules|
      ensures RuleTakes(rules, k, p) <==> c.Group(p).Some? && HasFilter(table.listed, c.Group(p).value, table.ids[k])
    {
      RuleListed(rules, s, flags, flagIds, transports, transportIds, protos, t, table, rows, distinct, c, p, k);
    }
    if c.Group(p).Some? {
      var g := c.Group(p).value;
      forall r: nat
        ensures Hit(rules, table.ids, table.listed, p.acl, g, r) <==> Claims(rules, p, r)
      {
      }
      hide Hit, Claims;
      if (p.acl, g) in c.total {
        EntryAt(rules, table.ids, table.listed, c.total, lists, p.acl, g);
        var list := lists[c.total[(p.acl, g)]];
        HitsApply(rules, table.ids, table.listed, p.acl, g, Claiming(rules, p), list);
        assert Reaches(rules, drop, Claiming(rules, p), list, c.Lookup(p).value);
      }
    }
  }

  lemma EntryAt(rules: seq<Rule>, ids: seq<nat>, listed: map<nat, seq<nat>>, table: map<(nat, nat), nat>,
                lists: seq<seq<nat>>, acl: nat, g: nat)
    requires EntriesFit(rules, ids, listed, table, lists) && (acl, g) in table
    ensures table[(acl, g)] < |lists| && FirstHits(rules, ids, listed, acl, g, lists[table[(acl, g)]])
  {
    assert EntryFits(rules, ids, listed, table, lists, acl, g);
  }

  ghost predicate SomeBadFlags(rules: seq<Rule>) {
    exists k :: 0 <= k < |rules| && BadFlags(rules[k].proto)
  }

  /**
    Compiling can fail: misplaced TCP flags, unsupported gapped networks, or live rules that together split a
    header field completely.
  */
  ghost predicate Fails(rules: seq<Rule>) {
    SomeBadFlags(rules) || !NetsUsable(rules) || RulesOverflow(rules, LiveRules(rules))
  }

  /** Compiling fails however the rules are spread over layers; with one layer this is the same as `Fails`. */
  ghost predicate MustFail(rules: seq<Rule>, max: nat) {
    SomeBadFlags(rules) || !NetsUsable(rules) || PairOverflow(rules)
    || (max == 1 && RulesOverflow(rules, LiveRules(rules)))
  }

  /** The transport filters, numbered as they first occur, overflow in some layer. */
  ghost predicate SpreadOverflows(rules: seq<Rule>, max: nat) {
    exists ids: seq<nat> :: |ids| == |rules| && FilterNumbers(rules, ids) && LayersOverflow(rules, ids, max)
  }

  /**
    Compiling fails: misplaced TCP flags, unsupported gapped networks, or rules of one layer that together
    split a header field completely.
  */
  ghost predicate Errs(rules: seq<Rule>, max: nat) {
    SomeBadFlags(rules) || !NetsUsable(rules) || SpreadOverflows(rules, max)
  }

  lemma SpreadExact(rules: seq<Rule>, ids: seq<nat>, max: nat)
    requires FilterNumbers(rules, ids) && |ids| == |rules|
    ensures SpreadOverflows(rules, max) <==> LayersOverflow(rules, ids, max)
  {
    hide LayersOverflow;
    if SpreadOverflows(rules, max) {
      var ids': seq<nat> :| |ids'| == |rules| && FilterNumbers(rules, ids') && LayersOverflow(rules, ids', max);
      NumbersUnique(FilterList(rules), DistinctOf(FilterList(rules)), ids, ids');
    }
  }

  lemma ErrsIs(rules: seq<Rule>, max: nat)
    ensures Errs(rules, max) <==> SomeBadFlags(rules) || !NetsUsable(rules) || SpreadOverflows(rules, max)
  {
    hide SomeBadFlags, NetsUsable, SpreadOverflows;
  }

  lemma BadIs(rules: seq<Rule>)
    ensures SomeBadFlags(rules) <==> exists k :: 0 <= k < |rules| && BadFlags(rules[k].proto)
  {
  }

  lemma FailsIs(rules: seq<Rule>, max: nat)
    ensures Fails(rules) <==> SomeBadFlags(rules) || !NetsUsable(rules) || RulesOverflow(rules, LiveRules(rules))
    ensures MustFail(rules, max)
            <==> SomeBadFlags(rules) || !NetsUsable(rules) || PairOverflow(rules)
                 || (max == 1 && RulesOverflow(rules, LiveRules(rules)))
  {
    hide SomeBadFlags, NetsUsable, RulesOverflow, PairOverflow;
  }

  lemma RowsReady(rules: seq<Rule>, s: NetStage, flags: FlatTable, flagIds: seq<nat>, transports: seq<Transport>,
                  transportIds: seq<nat>, t: IdStage,
                  rows: seq<TableFilter>)
    requires FlagsFit(rules, flags, flagIds) && IdStageFits(t, s, rules, transports, transportIds)
    requires |rows| == |rules| && |s.ids| == |flagIds| == |transportIds| == |rules|
    requires forall k | 0 <= k < |rules| :: rows[k] == RowOf(s, flagIds, transportIds, k)
    ensures Ready(t.layers, transports, t.shift) && flags.Fits(256)
            && forall k | 0 <= k < |rows| :: RowKnown(rows[k], t, flags)
  {
    hide Ready, IdMatches, InRanges, Occurs, InFirstOrder, FragmentMatches;
    assert FlagsValid(0);
    forall k | 0 <= k < |rows|
      ensures RowKnown(rows[k], t, flags)
    {
      assert FlagsListed(rules, flags, flagIds, k, 0);
    }
  }

  lemma StageSizes(rules: seq<Rule>, s: NetStage, flags: FlatTable, flagIds: seq<nat>, transports: seq<Transport>,
                   transportIds: seq<nat>, t: IdStage)
    requires FlagsFit(rules, flags, flagIds) && IdStageFits(t, s, rules, transports, transportIds)
    ensures |s.ids| == |flagIds| == |transportIds| == |rules|
  {
    hide Ready, IdMatches, FlatFits;
  }

  lemma TableSizes(table: TableStage, rows: seq<TableFilter>, distinct: seq<TableFilter>, t: IdStage, flags: FlatTable)
    requires GroupsListed(table, rows, distinct, t, flags)
    ensures |table.ids| == |rows|
  {
    hide FilterListed;
  }

  lemma CompiledValid(rules: seq<Rule>, flags: FlatTable, flagIds: seq<nat>, transports: seq<Transport>, c: Compiled,
                      table: TableStage, lists: seq<seq<nat>>)
    requires FlagsFit(rules, flags, flagIds) && Ready(c.layers, transports, c.shift) && c.flags == flags
    requires EntriesFit(rules, table.ids, table.listed, c.total, lists) && |c.values| == |lists|
    ensures c.Valid()
  {
    hide FlatFits, LayerFits, ColumnsFit, FirstHits, Looks, FlagsListed;
    forall l | 0 <= l < |c.layers|
      ensures Looks(c.layers[l].tables)
    {
      assert LayerReady(c.layers[l], transports, c.shift);
      FitsLooks(c.layers[l].tables, c.layers[l].filters, transports);
    }
    forall k | k in c.total
      ensures c.total[k] < |c.values|
    {
      EntryAt(rules, table.ids, table.listed, c.total, lists, k.0, k.1);
    }
  }

  lemma StoreActions(rules: seq<Rule>, drop: Action, actions: seq<Action>)
    requires actions == [drop] + seq(|rules|, k requires 0 <= k < |rules| => rules[k].action)
    ensures StoreOf(rules, actions) && actions[0] == drop
  {
  }

  /** The transport table, the total table and the values. */
  method Finish(rules: seq<Rule>, drop: Action, s: NetStage, flags: FlatTable, flagIds: seq<nat>,
                ghost transports: seq<Transport>,
                transportIds: seq<nat>, ghost protos: seq<Option<Proto>>, t: IdStage)
    returns (c: Compiled)
    requires FlagsFit(rules, flags, flagIds) && TransportsFit(rules, transports, transportIds, protos)
    requires IdStageFits(t, s, rules, transports, transportIds) && NetStageFits(s, rules) && drop.Flow?
    ensures c.Valid() && forall p: Packet | p.Valid() :: Correct(c, rules, drop, p, Claiming(rules, p)) && Inside(c, p)
  {
    hide *;
    StageSizes(rules, s, flags, flagIds, transports, transportIds, t);
    var rows := seq(|rules|, k requires 0 <= k < |rules| => RowOf(s, flagIds, transportIds, k));
    RowsReady(rules, s, flags, flagIds, transports, transportIds, t, rows);
    var table;
    ghost var distinct;
    table, distinct := TransportGroups.Build(rows, t, flags, transports);
    TableSizes(table, rows, distinct, t, flags);
    var store := new Store(rules, drop);
    StoreActions(rules, drop, store.actions);
    var total;
    ghost var lists;
    total, lists := TotalTable.Compile(rules, table.ids, table.listed, store);
    StoredSize(lists, store.lists);
    ghost var stored := store.lists;
    var values := store.Compile();
    c := Compiled(s.classifiers, t.cells, flags, t.layers, t.shift, table.cells, total, values, s.height, s.width);
    CompiledValid(rules, flags, flagIds, transports, c, table, lists);
    ValuesAre(rules, drop, store.actions, lists, stored, values);
    StagedAll(rules, s, flags, flagIds, transports, transportIds, protos, t, table, rows, distinct);
    forall p: Packet | p.Valid()
      ensures Correct(c, rules, drop, p, Claiming(rules, p)) && Inside(c, p)
    {
      PacketCorrect(rules, s, flags, flagIds, transports, transportIds, protos, t, table, rows, distinct, c, drop,
                    lists, p);
      PacketInside(rules, s, flags, flagIds, transports, transportIds, t, c, p);
    }
  }

  lemma PacketInside(rules: seq<Rule>, s: NetStage, flags: FlatTable, flagIds: seq<nat>, transports: seq<Transport>,
                     transportIds: seq<nat>,
                     t: IdStage, c: Compiled, p: Packet)
    requires NetStageFits(s, rules) && FlagsFit(rules, flags, flagIds)
             && IdStageFits(t, s, rules, transports, transportIds)
    requires c.Valid() && c.classifiers == s.classifiers && c.networks == t.cells && c.flags == flags
             && c.layers == t.layers
    requires c.shift == t.shift && c.height == s.height && c.width == s.width && p.Valid()
    ensures Inside(c, p)
  {
    hide FlatFits, Ready, KeyInside, KeyFor, Looks, IdMatches, NetsListed, FlagsListed, Live;
    assert CellInside(s, p.v6, p.source, p.destination);
    var net := At(t.cells, s.classifiers.Cell(p.v6, p.source, p.destination));
    var l := LayerOf(net, |t.layers|);
    if l < |t.layers| && net in t.layers[l].nets {
      FlagsInside(flags, p.flags);
      PacketKeyInTable(t.layers, l, net, flags, p.flags, p.segment, t.shift, transports);
    }
  }

  lemma FlagsInside(flags: FlatTable, v: nat)
    requires flags.Fits(256) && FlagsValid(v)
    ensures |flags.values| == 256 && v < 256 && flags.values[v] >= 1
  {
  }

  lemma ValuesAre(rules: seq<Rule>, drop: Action, actions: seq<Action>, lists: seq<seq<nat>>, stored: seq<seq<nat>>,
                  values: seq<Path>)
    requires drop.Flow? && StoreOf(rules, actions) && actions[0] == drop && Stored(lists, stored)
             && |values| == |stored|
    requires forall i | 0 <= i < |values| ::
               TotalTable.Known(actions, stored[i]) && Executes(values[i], Select(actions, stored[i]), actions[0])
    ensures ValuesFit(rules, drop, lists, values)
  {
    hide Executes, ValueFits;
    forall i | 0 <= i < |lists|
      ensures ValueFits(rules, drop, lists[i], values[i])
    {
      StoreFits(rules, drop, actions, lists[i], values[i]);
    }
  }

  lemma StagedAll(rules: seq<Rule>, s: NetStage, flags: FlatTable, flagIds: seq<nat>, transports: seq<Transport>,
                  transportIds: seq<nat>,
                  protos: seq<Option<Proto>>, t: IdStage, table: TableStage, rows: seq<TableFilter>,
                  distinct: seq<TableFilter>)
    requires FlagsFit(rules, flags, flagIds) && TransportsFit(rules, transports, transportIds, protos)
    requires IdStageFits(t, s, rules, transports, transportIds) && GroupsListed(table, rows, distinct, t, flags)
    requires |rows| == |rules| && |s.ids| == |flagIds| == |transportIds| == |rules|
    requires forall k | 0 <= k < |rules| :: rows[k] == RowOf(s, flagIds, transportIds, k)
    ensures Staged(rules, s, flags, flagIds, transports, transportIds, protos, t, table, rows, distinct)
  {
    hide FlagsFit, TransportsFit, IdStageFits, GroupsListed;
  }

  /**
    `compiler_t::compile` for flat rules in which every address is covered, with a maximum number
    of layers that is a power of two; None stands for an error.
  */
  method Compile(rules: seq<Rule>, drop: Action, max: nat) returns (r: Option<Compiled>)
    requires RulesValid(rules) && Covered(rules) && IsPower(max) && drop.Flow?
    ensures r.Some? ==> r.value.Valid()
    ensures r.Some? ==>
              forall p: Packet | p.Valid() :: Correct(r.value, rules, drop, p, Claiming(rules, p)) && Inside(r.value, p)
    ensures r.Some? && NetsExact(rules) ==>
              forall p: Packet | p.Valid() :: Correct(r.value, rules, drop, p, Applying(rules, p))
    ensures r.None? <==> Errs(rules, max)
    ensures MustFail(rules, max) ==> r.None?
    ensures r.None? ==> Fails(rules)
    ensures max == 1 ==> (r.None? <==> Fails(rules))
    ensures TotalRanges(rules) < 128 ==> (r.None? <==> SomeBadFlags(rules) || !NetsUsable(rules))
  {
    hide *;
    var transports, transportIds;
    ghost var protos;
    transports, transportIds, protos := Transports.Filters(rules);
    BadIs(rules);
    FailsIs(rules, max);
    ErrsIs(rules, max);
    if TotalRanges(rules) < 128 {
      FewRangesFit(rules, LiveRules(rules));
    }
    if transports.None? {
      return None;
    }
    var s := Networks.Build(rules);
    if s.None? {
      return None;
    }
    var flags, flagIds := Flags(rules);
    var t := NetworkIds.Build(s.value, rules, transports.value, transportIds, protos, max);
    SpreadExact(rules, transportIds, max);
    if t.None? {
      return None;
    }
    var c := Finish(rules, drop, s.value, flags, flagIds, transports.value, transportIds, protos, t.value);
    if NetsExact(rules) {
      forall p: Packet | p.Valid()
        ensures Correct(c, rules, drop, p, Applying(rules, p))
      {
        ClaimsApply(rules, p);
      }
    }
    return Some(c);
  }
}
