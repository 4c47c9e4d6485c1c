/** One address family of the ACL compiler (`acl::compiler::network_t`): filters over a tree of groups. */
module Network {
  import opened Base
  import opened Nets
  import opened Masks
  import NetOrder
  import opened Partition
  import opened ChunkForest
  import opened TreeInsert
  import opened TreeMerge
  import opened TreeGaps
  import opened TreePrepare
  import opened TreeCompose
  import opened TreeGet
  import opened Tree
  import opened Composition
  import opened NetworkFilters
  import opened Renumber

  lemma {:induction false} BlankLookup(chunks: seq<Chunk>, height: seq<nat>, c: nat, a: Digits)
    requires Blank(chunks) && WellFormed(chunks, height) && c < |chunks| && height[c] <= |a|
    ensures Lookup(chunks, height, c, a) == 0
  {
    LookupAtStop(chunks, height, c, a);
  }

  lemma BlankLabels(chunks: seq<Chunk>, height: seq<nat>, roots: set<nat>, warps: seq<Warp>, inter: Intersections,
                    simple: iset<Net>, h: nat)
    requires Blank(chunks) && WellFormed(chunks, height) && Rooted(height, roots)
    ensures FiltersKnown([], warps, inter, simple, h)
    ensures Classifies(Labels(chunks, height, roots), AllCells(warps, inter, [], simple, h), 1)
    ensures ZeroOutside(Labels(chunks, height, roots), AllCells(warps, inter, [], simple, h))
  {
    hide Layered;
    forall x: Cell | IsCell(height, roots, x)
      ensures Lookup(chunks, height, x.0, x.1) == 0
    {
      BlankLookup(chunks, height, x.0, x.1);
    }
  }

  lemma CellsMore(warps: seq<Warp>, inter: Intersections, filters: seq<Filter>, simple: iset<Net>, h: nat, k: nat)
    requires FiltersKnown(filters, warps, inter, simple, h) && k < |filters|
    ensures FiltersKnown(filters[..k], warps, inter, simple, h)
            && FiltersKnown(filters[..k + 1], warps, inter, simple, h)
    ensures FilterSized(filters[k], h)
    ensures AllCells(warps, inter, filters[..k + 1], simple, h)
            == AllCells(warps, inter, filters[..k], simple, h) + [FilterCells(warps, inter, filters[k], h)]
  {
    hide FilterCells, Known;
    assert FilterKnown(filters[k], warps, inter, simple, h);
    var now, was := AllCells(warps, inter, filters[..k + 1], simple, h),
        AllCells(warps, inter, filters[..k], simple, h);
    forall i | 0 <= i < |now|
      ensures now[i] == (was + [FilterCells(warps, inter, filters[k], h)])[i]
    {
      assert filters[..k + 1][i] == filters[i];
      if i < k {
        assert filters[..k][i] == filters[i];
      }
    }
  }

  function Zeros(n: nat): (vec: seq<nat>)
    ensures |vec| == n && forall i | 0 <= i < n :: vec[i] == 0
  {
    seq(n, _ => 0)
  }

  lemma ZerosAssigned(n: nat)
    ensures Assigned(Zeros(n)) == map[]
  {
  }

  class AclNetwork {
    const tree: AclTree
    var groupId: nat
    var filters: seq<Filter>
    var groups: seq<seq<nat>>
    ghost const h: nat

    constructor (ghost h: nat)
      requires h > 0
      ensures this.h == h && fresh(tree) && filters == [] && groups == [] && Empty()
    {
      tree := new AclTree(h);
      groupId, filters, groups := 1, [], [];
      this.h := h;
    }

    /** The tree has collected the networks of the filters, and nothing has been prepared yet. */
    ghost predicate Empty()
      reads this, tree
    {
      && tree.Placing(h) && tree.warps == [] && tree.intersections == map[] && groupId == 1
      && tree.mergeExtended == map[] && tree.mergeRemap == map[] && tree.saved == map[]
      && (forall n :: n in tree.prefixes <==> OneOf(AsSets(filters), n)) && (forall n | n in tree.prefixes :: Normal(n))
    }

    /**
      `collect`: the number of the filter; equal filters get one number, and the networks of a new one are
      collected.
    */
    method Collect(f: Filter) returns (id: nat)
      requires Empty() && FilterSized(f, h) && forall n | n in f :: Normal(n)
      modifies this`filters, tree`prefixes
      ensures Empty() && id < |filters| && filters[id] == f
      ensures filters == if f in old(filters) then old(filters) else old(filters) + [f]
    {
      hide Normal, AclTree.Placing, OneOf;
      id := 0;
      while id < |filters|
        invariant id <= |filters|
        invariant f !in filters[..id]
      {
        if filters[id] == f {
          return;
        }
        id := id + 1;
      }
      assert filters[..id] == filters;
      CollectNets(f);
      OneOfMore(filters, f);
      filters := filters + [f];
    }

    method CollectNets(f: Filter)
      requires tree.Placing(h) && FilterSized(f, h)
      modifies tree`prefixes
      ensures tree.Placing(h) && forall n :: n in tree.prefixes <==> n in old(tree.prefixes) || n in f
    {
      hide AclTree.Placing;
      for i := 0 to |f|
        invariant tree.Placing(h) && forall n :: n in tree.prefixes <==> n in old(tree.prefixes) || n in f[..i]
      {
        tree.Collect(f[i], h);
        assert f[..i + 1] == f[..i] + [f[i]];
      }
      assert f[..|f|] == f;
    }

    /**
      `prepare`: the tree prepares the networks of all filters.  It succeeds exactly when the gapped
      networks are supported and the last parts of overlapping ones start together.
    */
    method Prepare() returns (ok: bool)
      requires Empty() && h > 0
      modifies tree`chunks, tree`height, tree`roots, tree`warps, tree`intersections, tree`prefixes
      ensures ok <==> Clashless(GappedOf(AsSets(filters)), h)
      ensures ok ==> Open(SimpleOf(tree.prefixes)) && Blank(tree.chunks)
    {
      hide Stage, WarpsNormal, InterFits, InterListed, NetOrder.GapSorted, Normal, Blank, SimpleOf, InsertNets,
           FiltersKnown;
      hide NoClash, Clashless, Prepared, PlacedTo, RegionsApart, Settled, GappedOf, OneOf;
      ghost var collected := tree.prefixes;
      NetOrder.GapsAre(collected, h);
      ok := tree.Prepare(h);
      ClashlessIs(filters, collected, h);
      if ok {
        PrefixesSettle(filters, collected, tree.prefixes, tree.warps, tree.intersections, h);
        PreparedParts(tree.chunks, tree.height, tree.roots, InsertNets(tree.warps, SimpleOf(tree.prefixes)),
                      tree.warps);
      }
    }

    // ----- compile --------------------------------------------------------------------------

    /** All networks of the filters have been prepared, and the tree is ready for inserting. */
    ghost predicate Open(simple: iset<Net>)
      reads this, tree
    {
      && Prepared(tree.chunks, tree.height, tree.roots, InsertNets(tree.warps, simple), tree.warps)
      && tree.height[0] == h > 0 && FiltersKnown(filters, tree.warps, tree.intersections, simple, h)
      && Settled(tree.warps, tree.intersections, GappedOf(AsSets(filters)), h)
      && groupId >= 1 && tree.mergeExtended == map[] && tree.mergeRemap == map[] && tree.saved == map[]
    }

    ghost function CellsTo(simple: iset<Net>, k: nat): seq<iset<Cell>>
      reads this, tree
      requires k <= |filters| && FiltersKnown(filters[..k], tree.warps, tree.intersections, simple, h)
    {
      AllCells(tree.warps, tree.intersections, filters[..k], simple, h)
    }

    /** The first k filters have been inserted. */
    ghost predicate Inserted(simple: iset<Net>, k: nat)
      reads this, tree
      requires Open(simple) && k <= |filters|
    {
      && FiltersKnown(filters[..k], tree.warps, tree.intersections, simple, h)
      && Classifies(tree.Ids(), CellsTo(simple, k), groupId) && ZeroOutside(tree.Ids(), CellsTo(simple, k))
    }

    /** One round of the loop of `compile`: the groups are split by one filter. */
    method CompileFilter(k: nat, ghost simple: iset<Net>)
      requires Open(simple) && k < |filters| && Inserted(simple, k)
      modifies tree`chunks, tree`height, this`groupId
      ensures Open(simple) && Inserted(simple, k + 1)
    {
      hide Prepared, InsertNets, FiltersKnown, Classifies, ZeroOutside, Labels, Splitting, PieceCells, Known, Settled,
           FirstNetCells;
      var f := filters[k];
      ghost var nets, warps, inter := InsertNets(tree.warps, simple), tree.warps, tree.intersections;
      PreparedParts(tree.chunks, tree.height, tree.roots, nets, warps);
      CellsMore(warps, inter, filters, simple, h, k);
      CellsAt(warps, inter, filters, simple, h, k);
      ghost var before, lo := tree.Ids(), groupId;
      var remap := Zeros(groupId);
      ZerosAssigned(groupId);
      ClassifiesBelow(before, CellsTo(simple, k), groupId);
      SplitStart(before, groupId);
      FirstNetNone(warps, inter, f, h);
      for i := 0 to |f|
        invariant Prepared(tree.chunks, tree.height, tree.roots, nets, warps) && tree.Formed()
        invariant |tree.height| > 0 && tree.height[0] == h && |remap| == lo
        invariant Splitting(before, tree.Ids(), FirstNetCells(warps, inter, f, i, h), Assigned(remap), lo, groupId)
      {
        FirstNetStep(warps, inter, f, i, h);
        groupId, remap := tree.Insert(f[i], groupId, remap, simple, before, FirstNetCells(warps, inter, f, i, h));
        PreparedParts(tree.chunks, tree.height, tree.roots, nets, warps);
      }
      FilterSplit(before, tree.Ids(), CellsTo(simple, k), FilterCells(warps, inter, f, h), Assigned(remap), lo,
                  groupId);
    }

    /** After `compile`: addresses have one group id exactly when they are in the same parts of the filters. */
    ghost predicate Compiled()
      reads this, tree
    {
      && h > 0 && tree.Readable(h) && FiltersReadable(filters, tree.warps, tree.intersections, h)
      && Settled(tree.warps, tree.intersections, GappedOf(AsSets(filters)), h)
      && Grouped(tree.chunks, tree.height, GappedOf(AsSets(filters)), AsSets(filters), h, groupId)
    }

    method Compile(ghost simple: iset<Net>)
      requires Open(simple) && groupId == 1 && Blank(tree.chunks)
      modifies tree, this`groupId
      ensures Compiled()
    {
      InsertAll(simple);
      MergeAll(simple);
    }

    /** The loop of `compile`. */
    method InsertAll(ghost simple: iset<Net>)
      requires Open(simple) && groupId == 1 && Blank(tree.chunks)
      modifies tree`chunks, tree`height, this`groupId
      ensures Open(simple) && Inserted(simple, |filters|)
    {
      hide Prepared, InsertNets, FiltersKnown, Classifies, ZeroOutside, Labels, Blank, Settled;
      PreparedParts(tree.chunks, tree.height, tree.roots, InsertNets(tree.warps, simple), tree.warps);
      BlankLabels(tree.chunks, tree.height, tree.roots, tree.warps, tree.intersections, simple, h);
      assert filters[..0] == [];
      for k := 0 to |filters|
        invariant Open(simple) && Inserted(simple, k)
      {
        CompileFilter(k, simple);
      }
    }

    /** The end of `compile`: the gapped networks are merged. */
    method MergeAll(ghost simple: iset<Net>)
      requires Open(simple) && Inserted(simple, |filters|)
      modifies tree, this`groupId
      ensures Compiled()
    {
      hide Prepared, InsertNets, FiltersKnown, Classifies, ZeroOutside, Labels, Run, IdsBelow, JoinFits, IsLast,
           Layered, Grouped, FiltersReadable, EndsFit, Settled;
      hide GappedOf, PieceSeen, Known, AllCells, Rooted, Prepared;
      ghost var c0, h0, lo := tree.chunks, tree.height, groupId;
      ghost var nets := InsertNets(tree.warps, simple);
      assert filters[..|filters|] == filters;
      PreparedParts(c0, h0, tree.roots, nets, tree.warps);
      LabelsBelow(c0, h0, tree.roots, AllCells(tree.warps, tree.intersections, filters, simple, h), lo);
      ghost var done;
      groupId, done := tree.Merge(groupId, nets);
      MergeDone(c0, h0, tree.roots, nets, tree.warps, tree.intersections, tree.chunks, tree.height, tree.join,
                tree.frozen, done,
                tree.multirefs, filters, simple, lo, groupId, h);
    }

    // ----- populate -------------------------------------------------------------------------

    ghost predicate Populated()
      reads this, tree
    {
      && h > 0 && WellFormed(tree.chunks, tree.height) && |tree.chunks| > 0 && tree.height[0] == h
      && (forall a: Digits | |a| == h :: Lookup(tree.chunks, tree.height, 0, a) < groupId)
      && Listed(AddrIds(tree.chunks, tree.height, h), TakenSets(AsSets(filters)), groups)
    }

    /** One round of the loop of `populate`: the ids of all networks of the filter. */
    method FilterGroups(f: Filter) returns (bits: set<nat>)
      requires h > 0 && tree.Readable(h) && FilterReadable(f, tree.warps, tree.intersections, h)
      modifies tree`saved
      ensures tree.Readable(h)
      ensures forall g: nat ::
                g in bits <==> SeenTo(tree.chunks, tree.height, tree.warps, tree.intersections, f, |f|, h, g)
    {
      hide PieceSeen, Readied, EndsFit, Layered;
      bits := {};
      for i := 0 to |f|
        invariant tree.Readable(h)
        invariant forall g: nat ::
                    g in bits <==> SeenTo(tree.chunks, tree.height, tree.warps, tree.intersections, f, i, h, g)
      {
        bits := tree.Get(f[i], bits, h);
      }
    }

    /** `populate`: for every filter, the list of its group ids. */
    method Populate()
      requires Compiled()
      modifies this`groups, tree`saved
      ensures Populated() && tree.Readable(h)
    {
      hide PieceSeen, Readied, EndsFit, Layered, Grouped, FilterReadable, Settled;
      var lists: seq<seq<nat>> := [];
      ghost var c, t, w, m := tree.chunks, tree.height, tree.warps, tree.intersections;
      while |lists| < |filters|
        invariant |lists| <= |filters| && tree.Readable(h)
        invariant forall k, g: nat | 0 <= k < |lists| :: g in lists[k] <==> FilterSeen(c, t, w, m, filters[k], h, g)
      {
        var f := filters[|lists|];
        ReadableAt(filters, w, m, h, |lists|);
        var bits := FilterGroups(f);
        SeenSmall(c, t, w, m, GappedOf(AsSets(filters)), AsSets(filters), h, groupId, bits, f);
        var list := Ascending(bits, groupId);
        lists := lists + [list];
      }
      groups := lists;
      GroupsListed(c, t, w, m, filters, h, groupId, groups);
    }

    // ----- remap ----------------------------------------------------------------------------

    /** `remap`: groups of the same filters become one group, numbered from the shared counter on. */
    method Remap(shared: nat) returns (shared': nat)
      requires Populated()
      modifies this`groups, this`groupId, tree`chunks, tree`saved
      ensures WellFormed(tree.chunks, tree.height) && |tree.chunks| > 0 && tree.height[0] == h
              && shared <= shared' == groupId
      ensures Renumber.Renumbered(AddrIds(tree.chunks, tree.height, h), TakenSets(AsSets(filters)), groups, shared,
                                  shared')
    {
      hide Layered, InFilter, Members, Numbers, MappedAll;
      ghost var labels := AddrIds(tree.chunks, tree.height, h);
      var vec;
      vec, shared' := Number(groups, groupId, shared);
      NumbersOrder(groups, vec, groupId, shared, shared');
      tree.Remap(vec, h);
      ghost var old_groups := groups;
      GroupsSmall(labels, TakenSets(AsSets(filters)), groups, groupId);
      groups := MapGroups(groups, vec);
      RenumberListed(labels, AddrIds(tree.chunks, tree.height, h), TakenSets(AsSets(filters)), old_groups, groups, vec,
                     groupId, shared, shared');
      tree.saved := map[];
      groupId := shared';
    }
  }

  lemma NumbersOrder(groups: seq<seq<nat>>, vec: seq<nat>, n: nat, lo: nat, next: nat)
    requires Numbers(groups, vec, n, lo, next)
    ensures lo <= next
  {
  }

  lemma GroupsSmall(labels: imap<Digits, nat>, filters: seq<iset<Digits>>, groups: seq<seq<nat>>, n: nat)
    requires Listed(labels, filters, groups) && forall a | a in labels :: labels[a] < n
    ensures forall k, i | 0 <= k < |groups| && 0 <= i < |groups[k]| :: groups[k][i] < n
  {
    forall k, i | 0 <= k < |groups| && 0 <= i < |groups[k]|
      ensures groups[k][i] < n
    {
      assert groups[k][i] in groups[k];
      var a :| a in labels && labels[a] == groups[k][i];
    }
  }

  method MapGroups(groups: seq<seq<nat>>, vec: seq<nat>) returns (groups': seq<seq<nat>>)
    requires forall k, i | 0 <= k < |groups| && 0 <= i < |groups[k]| :: groups[k][i] < |vec|
    ensures MappedAll(groups, groups', vec)
  {
    groups' := [];
    for k := 0 to |groups|
      invariant |groups'| == k
      invariant forall j | 0 <= j < k :: groups'[j] == Mapped(groups[j], vec)
    {
      var list: seq<nat> := [];
      for i := 0 to |groups[k]|
        invariant |list| == i && forall j | 0 <= j < i :: list[j] == vec[groups[k][j]]
      {
        list := list + [vec[groups[k][i]]];
      }
      assert list == Mapped(groups[k], vec);
      groups' := groups' + [list];
    }
  }

  ghost predicate FiltersReadable(filters: seq<Filter>, warps: seq<Warp>, inter: Intersections, h: nat) {
    forall k | 0 <= k < |filters| :: FilterReadable(filters[k], warps, inter, h)
  }

  lemma OneOfMore(filters: seq<Filter>, f: Filter)
    ensures forall n :: OneOf(AsSets(filters + [f]), n) <==> OneOf(AsSets(filters), n) || n in f
  {
    forall n
      ensures OneOf(AsSets(filters + [f]), n) <==> OneOf(AsSets(filters), n) || n in f
    {
      OneOfSets(filters, n);
      OneOfSets(filters + [f], n);
      if n in f {
        assert n in (filters + [f])[|filters|];
      }
      if k :| 0 <= k < |filters| && n in filters[k] {
        assert n in (filters + [f])[k];
      }
    }
  }

  /** The gapped prefixes are the gapped networks of the filters. */
  lemma ClashlessIs(filters: seq<Filter>, prefixes: seq<Net>, h: nat)
    requires AllGapped(NetOrder.GapsOf(prefixes), h) && forall n :: n in prefixes <==> OneOf(AsSets(filters), n)
    requires forall n :: n in NetOrder.GapsOf(prefixes) <==> n in prefixes && !Contiguous(n.mask)
    ensures Clashless(GappedOf(AsSets(filters)), h)
            <==> NoClash(NetOrder.GapsOf(prefixes), |NetOrder.GapsOf(prefixes)|, h)
  {
    hide NetOrder.GapsOf, Supported, Together, OneOf, Contiguous;
    var list, gapped := NetOrder.GapsOf(prefixes), GappedOf(AsSets(filters));
    assert forall n :: n in gapped <==> n in list;
    hide GappedOf;
    forall i | 0 <= i < |list|
      ensures list[i] in gapped
    {
    }
  }

  /** After the preparation the warps are those of the gapped networks of the filters, and all filters are known. */
  lemma PrefixesSettle(filters: seq<Filter>, collected: seq<Net>, prefixes: seq<Net>, warps: seq<Warp>,
                       inter: Intersections, h: nat)
    requires AllGapped(NetOrder.GapsOf(collected), h) && (forall n :: n in collected <==> OneOf(AsSets(filters), n))
             && NetOrder.Sized(collected, h)
    requires forall n :: n in NetOrder.GapsOf(collected) <==> n in collected && !Contiguous(n.mask)
    requires PlacedTo(warps, inter, prefixes, NetOrder.GapsOf(collected), |NetOrder.GapsOf(collected)|, h)
    requires RegionsApart(warps) && Clashless(GappedOf(AsSets(filters)), h)
             && forall n | n in collected :: n in prefixes
    ensures Settled(warps, inter, GappedOf(AsSets(filters)), h)
            && FiltersKnown(filters, warps, inter, SimpleOf(prefixes), h)
  {
    hide NetOrder.GapsOf, Supported, Together, Contiguous, Placed, HasWarp, WarpOf, RegionOf, WarpsNormal, RegionsApart,
         InterFits, Clashless;
    var list := NetOrder.GapsOf(collected);
    forall n | n in collected
      ensures |n.addr| == |n.mask| == h
      ensures !Contiguous(n.mask) ==> Placed(warps, inter, n, h) && (!HasWarp(warps, n) ==> RegionOf(n) in prefixes)
    {
      if !Contiguous(n.mask) {
        var i :| 0 <= i < |list| && list[i] == n;
      }
    }
    FromOwned(warps, list, GappedOf(AsSets(filters)), h);
    KnownAll(filters, collected, prefixes, warps, inter, h);
  }

  lemma FromOwned(warps: seq<Warp>, list: seq<Net>, gapped: NetSet, h: nat)
    requires AllGapped(list, h) && WarpsFrom(warps, list, |list|, h) && forall n | n in list :: n in gapped
    ensures forall j | 0 <= j < |warps| :: OwnedBy(warps[j], gapped)
  {
    hide WarpOf, Contiguous;
    forall j | 0 <= j < |warps|
      ensures OwnedBy(warps[j], gapped)
    {
      assert OneFrom(warps[j], list, |list|, h);
      var i :| 0 <= i < |list| && WarpOf(warps[j], list[i]);
      assert list[i] in gapped;
    }
  }

  lemma KnownAll(filters: seq<Filter>, collected: seq<Net>, prefixes: seq<Net>, warps: seq<Warp>, inter: Intersections,
                 h: nat)
    requires (forall n | OneOf(AsSets(filters), n) :: n in collected) && forall n | n in collected :: n in prefixes
    requires forall n | n in collected :: |n.addr| == |n.mask| == h
    requires forall n | n in collected && !Contiguous(n.mask) && |n.addr| == |n.mask| == h ::
               Placed(warps, inter, n, h) && (!HasWarp(warps, n) ==> RegionOf(n) in prefixes)
    ensures FiltersKnown(filters, warps, inter, SimpleOf(prefixes), h)
  {
    hide Contiguous, Placed, HasWarp, RegionOf;
    forall k | 0 <= k < |filters|
      ensures FilterKnown(filters[k], warps, inter, SimpleOf(prefixes), h)
    {
      forall i | 0 <= i < |filters[k]|
        ensures Known(warps, inter, SimpleOf(prefixes), filters[k][i], h)
      {
        var n := filters[k][i];
        OneOfSets(filters, n);
        if !Contiguous(n.mask) {
          PlacedSupported(warps, inter, n, h);
          RegionContiguous(n);
        }
      }
    }
  }

  lemma ReadableAt(filters: seq<Filter>, warps: seq<Warp>, inter: Intersections, h: nat, k: nat)
    requires FiltersReadable(filters, warps, inter, h) && k < |filters|
    ensures FilterReadable(filters[k], warps, inter, h) && FilterSized(filters[k], h)
  {
    hide Readied;
    assert FilterReadable(filters[k], warps, inter, h);
  }

  lemma KnownReadable(filters: seq<Filter>, warps: seq<Warp>, inter: Intersections, simple: iset<Net>, h: nat)
    requires FiltersKnown(filters, warps, inter, simple, h)
    ensures FiltersReadable(filters, warps, inter, h)
  {
    hide Known, Readied;
    forall k | 0 <= k < |filters|
      ensures FilterReadable(filters[k], warps, inter, h)
    {
      assert FilterKnown(filters[k], warps, inter, simple, h);
      forall i | 0 <= i < |filters[k]|
        ensures Readied(warps, inter, filters[k][i], h)
      {
        KnownReadied(warps, inter, simple, filters[k][i], h);
      }
    }
  }

  /** Some network of the filter is seen with group id g. */
  ghost predicate FilterSeen(chunks: seq<Chunk>, height: seq<nat>, warps: seq<Warp>, inter: Intersections, f: Filter,
                             h: nat, g: nat)
    requires WellFormed(chunks, height) && |chunks| > 0 && height[0] == h
  {
    FilterSized(f, h) && SeenTo(chunks, height, warps, inter, f, |f|, h, g)
  }

  /** A group id that is seen is that of some address. */
  lemma SeenAddress(chunks: seq<Chunk>, height: seq<nat>, warps: seq<Warp>, inter: Intersections, f: Filter, h: nat,
                    g: nat) returns (a: Digits)
    requires WellFormed(chunks, height) && |chunks| > 0 && height[0] == h
             && FilterSeen(chunks, height, warps, inter, f, h, g)
    ensures |a| == h && Lookup(chunks, height, 0, a) == g
  {
    hide Layered, Covers, IsComposed, WideIn, RegionOf;
    var i :| 0 <= i < |f| && PieceSeen(chunks, height, warps, inter, f[i], g);
    var n := if IsComposed(warps, inter, f[i]) then RegionOf(f[i]) else f[i];
    a :| |a| == |n.mask| && Covers(Net(n.addr, n.mask), a) && Lookup(chunks, height, 0, a) == g;
  }

  lemma SeenSmall(chunks: seq<Chunk>, height: seq<nat>, warps: seq<Warp>, inter: Intersections, gapped: NetSet,
                  sets: seq<NetSet>,
                  h: nat, next: nat, bits: set<nat>, f: Filter)
    requires WellFormed(chunks, height) && |chunks| > 0 && height[0] == h
             && Grouped(chunks, height, gapped, sets, h, next)
    requires forall g: nat | g in bits :: FilterSeen(chunks, height, warps, inter, f, h, g)
    ensures forall g | g in bits :: g < next
  {
    hide FilterSeen, SameParts, Layered, Lookup;
    forall g | g in bits
      ensures g < next
    {
      var a := SeenAddress(chunks, height, warps, inter, f, h, g);
    }
  }

  lemma GroupsListed(chunks: seq<Chunk>, height: seq<nat>, warps: seq<Warp>, inter: Intersections, filters: seq<Filter>,
                     h: nat, next: nat,
                     groups: seq<seq<nat>>)
    requires WellFormed(chunks, height) && |chunks| > 0 && height[0] == h > 0
             && FiltersReadable(filters, warps, inter, h)
    requires Settled(warps, inter, GappedOf(AsSets(filters)), h)
             && Grouped(chunks, height, GappedOf(AsSets(filters)), AsSets(filters), h, next)
    requires |groups| == |filters|
    requires forall k, g: nat | 0 <= k < |groups| ::
               g in groups[k] <==> FilterSeen(chunks, height, warps, inter, filters[k], h, g)
    ensures Listed(AddrIds(chunks, height, h), TakenSets(AsSets(filters)), groups)
    ensures forall a: Digits | |a| == h :: Lookup(chunks, height, 0, a) < next
  {
    hide Layered, Settled, FilterReadable, SeenTo, TakesSet, Lookup, SameParts;
    var labels, gapped := AddrIds(chunks, height, h), GappedOf(AsSets(filters));
    GappedListed(filters);
    forall a, k | a in labels && 0 <= k < |filters|
      ensures a in TakenSets(AsSets(filters))[k] <==> labels[a] in groups[k]
    {
      ReadableAt(filters, warps, inter, h, k);
      FilterTakes(chunks, height, warps, inter, gapped, AsSets(filters), h, next, filters[k], a);
    }
    forall k, g | 0 <= k < |groups| && g in groups[k]
      ensures exists a :: a in labels && labels[a] == g
    {
      var a := SeenAddress(chunks, height, warps, inter, filters[k], h, g);
      assert a in labels && labels[a] == g;
    }
  }

  lemma GappedListed(filters: seq<Filter>)
    ensures GappedIn(filters, GappedOf(AsSets(filters)))
  {
    hide Contiguous;
    forall k, n | 0 <= k < |filters| && n in filters[k]
      ensures Contiguous(n.mask) || n in GappedOf(AsSets(filters))
    {
      OneOfSets(filters, n);
    }
  }

  lemma LabelsBelow(chunks: seq<Chunk>, height: seq<nat>, roots: set<nat>, cells: seq<iset<Cell>>, lo: nat)
    requires WellFormed(chunks, height) && Rooted(height, roots) && Classifies(Labels(chunks, height, roots), cells, lo)
    ensures IdsBelow(chunks, height, roots, lo)
  {
    hide Layered, Labels;
  }

  lemma AllEnds(c0: seq<Chunk>, h0: seq<nat>, roots: set<nat>, nets: iset<(nat, Net)>, warps: seq<Warp>,
                c1: seq<Chunk>, h1: seq<nat>, join: Joins, z1: set<nat>, done: set<nat>, ends: seq<set<nat>>, h: nat)
    requires Run(c0, h0, roots, nets, warps, c1, h1, join, z1, done) && Sized(c0) && WellFormed(c1, h1)
             && |ends| == |warps|
    requires |h0| > 0 && h0[0] == h
    requires forall i, o: nat | 0 <= i < |warps| :: o in ends[i] <==> IsLast(ShapeOf(c0), warps[i], o)
    ensures forall i | 0 <= i < |warps| :: EndsFit(c1, h1, warps[i], ends[i], h)
  {
    hide *;
    forall i | 0 <= i < |warps|
      ensures EndsFit(c1, h1, warps[i], ends[i], h)
    {
      RunEnds(c0, h0, roots, nets, warps, c1, h1, join, z1, done, i, ends[i], h);
    }
  }

  lemma MergeDone(c0: seq<Chunk>, h0: seq<nat>, roots: set<nat>, nets: iset<(nat, Net)>, warps: seq<Warp>,
                  inter: Intersections,
                  c1: seq<Chunk>, h1: seq<nat>, join: Joins, z1: set<nat>, done: set<nat>, ends: seq<set<nat>>,
                  filters: seq<Filter>, simple: iset<Net>, lo: nat, next: nat, h: nat)
    requires Run(c0, h0, roots, nets, warps, c1, h1, join, z1, done) && WellFormed(c0, h0) && Rooted(h0, roots)
    requires |ends| == |warps| && forall i, o: nat | 0 <= i < |warps| ::
               o in ends[i] <==> IsLast(ShapeOf(c0), warps[i], o)
    requires forall i, o: nat | 0 <= i < |warps| && o in ends[i] :: o in done
    requires JoinFits(join, lo, next) && 0 < |c0| && |h0| == |c0| && h0[0] == h > 0
    requires FiltersKnown(filters, warps, inter, simple, h) && Settled(warps, inter, GappedOf(AsSets(filters)), h)
    requires Classifies(Labels(c0, h0, roots), AllCells(warps, inter, filters, simple, h), lo)
    requires ZeroOutside(Labels(c0, h0, roots), AllCells(warps, inter, filters, simple, h))
    ensures WellFormed(c1, h1) && 0 < |c1| && |h1| == |c1| && h1[0] == h
    ensures forall i | 0 <= i < |warps| :: EndsFit(c1, h1, warps[i], ends[i], h)
    ensures FiltersReadable(filters, warps, inter, h)
            && Grouped(c1, h1, GappedOf(AsSets(filters)), AsSets(filters), h, next)
  {
    hide *;
    RunOpens(c0, h0, roots, nets, warps, c1, h1, join, z1, done);
    AllEnds(c0, h0, roots, nets, warps, c1, h1, join, z1, done, ends, h);
    KnownReadable(filters, warps, inter, simple, h);
    RunGrouped(c0, h0, roots, nets, warps, inter, c1, h1, join, z1, done, filters, simple, lo, next, h);
  }

  lemma RunGrouped(c0: seq<Chunk>, h0: seq<nat>, roots: set<nat>, nets: iset<(nat, Net)>, warps: seq<Warp>,
                   inter: Intersections,
                   c1: seq<Chunk>, h1: seq<nat>, join: Joins, z1: set<nat>, done: set<nat>,
                   filters: seq<Filter>, simple: iset<Net>, lo: nat, next: nat, h: nat)
    requires Run(c0, h0, roots, nets, warps, c1, h1, join, z1, done) && WellFormed(c0, h0) && WellFormed(c1, h1)
             && Rooted(h0, roots)
    requires forall j, o | 0 <= j < |warps| && IsLast(ShapeOf(c0), warps[j], o) :: o in done
    requires JoinFits(join, lo, next) && 0 < |c0| <= |c1| && |h0| == |c0| && |h1| == |c1| && h0[0] == h1[0] == h > 0
    requires FiltersKnown(filters, warps, inter, simple, h) && Settled(warps, inter, GappedOf(AsSets(filters)), h)
    requires Classifies(Labels(c0, h0, roots), AllCells(warps, inter, filters, simple, h), lo)
    requires ZeroOutside(Labels(c0, h0, roots), AllCells(warps, inter, filters, simple, h))
    ensures Grouped(c1, h1, GappedOf(AsSets(filters)), AsSets(filters), h, next)
  {
    hide Run, Layered, IsLast, JoinFits, FiltersKnown, Classifies, ZeroOutside, Labels, Settled, SameParts, GappedOf,
         GappedIn, Lookup;
    GappedListed(filters);
    forall a: Digits, b: Digits | |a| == h && |b| == h
      ensures Lookup(c1, h1, 0, a) < next
      ensures Lookup(c1, h1, 0, a) == Lookup(c1, h1, 0, b)
              <==> SameParts(GappedOf(AsSets(filters)), AsSets(filters), a, b)
    {
      MergedParts(c0, h0, roots, nets, warps, inter, c1, h1, join, z1, done, GappedOf(AsSets(filters)), filters, simple,
                  lo, next, a, b);
    }
  }

  lemma ClassifiesBelow(labels: imap<Cell, nat>, cells: seq<iset<Cell>>, next: nat)
    requires Classifies(labels, cells, next)
    ensures forall c | c in labels :: labels[c] < next
  {
  }

  lemma FilterSplit(before: imap<Cell, nat>, now: imap<Cell, nat>, cells: seq<iset<Cell>>, filter: iset<Cell>,
                    remap: map<nat, nat>, lo: nat, next: nat)
    requires Splitting(before, now, filter, remap, lo, next) && lo >= 1 && Classifies(before, cells, lo)
             && ZeroOutside(before, cells)
    ensures Classifies(now, cells + [filter], next) && ZeroOutside(now, cells + [filter]) && next >= 1
  {
    SplitClassifies(before, now, cells, filter, filter, remap, lo, next);
    ZeroKept(before, now, cells, filter, remap, lo, next);
  }

  // ----- filters without gaps ---------------------------------------------------------------

  /** Without gapped networks, two addresses have one group id exactly when they are in the same filters. */
  lemma SimpleGroups(chunks: seq<Chunk>, height: seq<nat>, sets: seq<NetSet>, h: nat, next: nat, a: Digits, b: Digits)
    requires WellFormed(chunks, height) && |chunks| > 0 && height[0] == h && |a| == |b| == h
    requires Grouped(chunks, height, GappedOf(sets), sets, h, next)
    requires forall n | OneOf(sets, n) :: |n.addr| == |n.mask| && Contiguous(n.mask)
    ensures Lookup(chunks, height, 0, a) == Lookup(chunks, height, 0, b)
            <==> forall k | 0 <= k < |sets| :: InSet(sets[k], a) <==> InSet(sets[k], b)
  {
    hide InSet, Layered, Lookup, Prefixed, Widened, GappedOf, Contiguous;
    forall k, x: Digits | 0 <= k < |sets| && |x| == h
      ensures (Prefixed(GappedOf(sets), sets[k], x) <==> InSet(sets[k], x)) && !Widened(GappedOf(sets), sets[k], x)
    {
      SimpleParts(GappedOf(sets), sets, k, x);
    }
  }

  lemma SimpleParts(gapped: NetSet, sets: seq<NetSet>, k: nat, x: Digits)
    requires k < |sets| && forall n | OneOf(sets, n) :: |n.addr| == |n.mask| && Contiguous(n.mask)
    ensures (Prefixed(gapped, sets[k], x) <==> InSet(sets[k], x)) && !Widened(gapped, sets[k], x)
  {
    hide Contiguous, Covers;
    forall n | n in sets[k]
      ensures (RootPart(gapped, n, x) <==> Covers(n, x)) && !WidePart(gapped, n, x)
    {
      assert OneOf(sets, n);
    }
  }
}
