/**
  The address classifiers of one family and side: all stages of `network_t` together, and the
  lookup of an address in the finished chunks.
*/
module Addresses {
  import opened Base
  import opened Nets
  import opened Masks
  import opened NetOrder
  import opened Partition
  import opened ChunkForest
  import opened TreePrepare
  import opened TreeCompose
  import opened Composition
  import opened Tree
  import opened NetworkFilters
  import opened Network
  import opened Rules
  import Renumber

  /** The finished classifier: chunks, the number of every rule's filter, the groups of every filter, the counter. */
  datatype AddressTable = AddressTable(chunks: seq<Chunk>, ids: seq<nat>, groups: seq<seq<nat>>, next: nat)

  /** The lookup of an address: one chunk per byte until a group is found. */
  function Find(chunks: seq<Chunk>, c: nat, a: Bytes): nat
    decreases |a|
  {
    if a == [] || c >= |chunks| || !chunks[c].Sized() then 0
    else
      match chunks[c].At(a[0])
      case Group(g) => g
      case Link(k) => Find(chunks, k, a[1..])
  }

  lemma {:induction false} FindLookup(chunks: seq<Chunk>, height: seq<nat>, c: nat, a: Bytes)
    requires WellFormed(chunks, height) && c < |chunks| && height[c] <= |a|
    ensures Find(chunks, c, a) == Lookup(chunks, height, c, a)
    decreases |a|
  {
    var s := ShapeOf(chunks);
    assert Kid(s, c, a[0]) == if chunks[c].At(a[0]).Link? then chunks[c].At(a[0]).chunk else -1;
    if chunks[c].At(a[0]).Link? {
      FindLookup(chunks, height, chunks[c].At(a[0]).chunk, a[1..]);
    }
  }

  /** No filter takes the address. */
  ghost predicate InNone(sets: seq<NetSet>, a: Bytes) {
    forall k | 0 <= k < |sets| :: !Takes(sets, k, a)
  }

  ghost predicate SameSets(sets: seq<NetSet>, a: Bytes, b: Bytes) {
    forall k | 0 <= k < |sets| :: Takes(sets, k, a) <==> Takes(sets, k, b)
  }

  /** Filter k lists the group of the address exactly when it takes the address. */
  ghost predicate Lists(t: AddressTable, sets: seq<NetSet>, k: nat, a: Bytes)
    requires |t.ids| == |sets| && k < |sets| && t.ids[k] < |t.groups|
  {
    Takes(sets, k, a) <==> Find(t.chunks, 0, a) in t.groups[t.ids[k]]
  }

  /** Some address taken by a filter has the group. */
  ghost predicate Inhabited(t: AddressTable, sets: seq<NetSet>, h: nat, g: nat) {
    exists a: Bytes :: |a| == h && !InNone(sets, a) && Find(t.chunks, 0, a) == g
  }

  /**
    Addresses taken by some filter have the groups in [lo, next), and all of these: one group exactly for
    addresses taken by the same filters, listed by exactly these filters.  Other addresses have group 0.
  */
  ghost predicate AddressFits(t: AddressTable, sets: seq<NetSet>, lo: nat, h: nat) {
    && |t.ids| == |sets| && lo <= t.next && (forall k | 0 <= k < |sets| :: t.ids[k] < |t.groups|)
    && (forall k, g | 0 <= k < |t.groups| && g in t.groups[k] :: lo <= g < t.next)
    && (forall a: Bytes | |a| == h && InNone(sets, a) :: Find(t.chunks, 0, a) == 0)
    && (forall a: Bytes | |a| == h && !InNone(sets, a) :: lo <= Find(t.chunks, 0, a) < t.next)
    && (forall a: Bytes, k | |a| == h && !InNone(sets, a) && 0 <= k < |sets| :: Lists(t, sets, k, a))
    && (forall a: Bytes, b: Bytes | |a| == |b| == h && !InNone(sets, a) && !InNone(sets, b) ::
          Find(t.chunks, 0, a) == Find(t.chunks, 0, b) <==> SameSets(sets, a, b))
    && (forall g | lo <= g < t.next :: Inhabited(t, sets, h, g))
  }

  /** The gapped networks of the filters are supported, and the last parts of overlapping ones start together. */
  ghost predicate Usable(sets: seq<NetSet>, h: nat) {
    Clashless(GappedOf(sets), h)
  }

  /** The number of every filter, as `collect` gives it. */
  ghost predicate Collected(distinct: seq<Filter>, filters: seq<Filter>, ids: seq<nat>) {
    && |ids| == |filters| && (forall k | 0 <= k < |filters| :: ids[k] < |distinct| && distinct[ids[k]] == filters[k])
    && (forall f | f in distinct :: f in filters)
  }

  /** `collect`, `prepare`, `compile`, `populate` and `remap` for the filters of all rules. */
  method Build(filters: seq<Filter>, v6: bool, shared: nat) returns (r: Option<AddressTable>)
    requires forall k | 0 <= k < |filters| :: FamilySet(filters[k], v6)
    ensures r.Some? <==> Usable(AsSets(filters), Width(v6))
    ensures r.Some? ==> AddressFits(r.value, AsSets(filters), shared, Width(v6))
  {
    var h := Width(v6);
    hide Normal, Usable, Clashless, GappedOf, OneOf, AclTree.Placing;
    var net := new AclNetwork(h);
    var ids: seq<nat> := [];
    for k := 0 to |filters|
      invariant fresh(net) && fresh(net.tree) && net.Empty()
      invariant Collected(net.filters, filters[..k], ids)
    {
      ghost var was := net.filters;
      SetNormal(filters[k], v6);
      var id := net.Collect(filters[k]);
      CollectedMore(was, net.filters, filters, ids, k, id);
      ids := ids + [id];
    }
    assert filters[..|filters|] == filters;
    SameNets(net.filters, filters, ids);
    UsableIs(AsSets(filters), h);
    var ok := net.Prepare();
    if !ok {
      return None;
    }
    net.Compile(SimpleOf(net.tree.prefixes));
    net.Populate();
    var next := net.Remap(shared);
    r := Some(AddressTable(net.tree.chunks, ids, net.groups, next));
    TableFound(r.value, net.tree.height, net.filters, filters, shared, h);
  }

  lemma UsableIs(sets: seq<NetSet>, h: nat)
    ensures Usable(sets, h) <==> Clashless(GappedOf(sets), h)
  {
  }

  lemma SetNormal(f: Filter, v6: bool)
    requires FamilySet(f, v6)
    ensures FilterSized(f, Width(v6)) && forall n | n in f :: Normal(n)
  {
    hide Normal, Sorted;
  }

  lemma SameNets(distinct: seq<Filter>, filters: seq<Filter>, ids: seq<nat>)
    requires Collected(distinct, filters, ids)
    ensures GappedOf(AsSets(distinct)) == GappedOf(AsSets(filters))
  {
    hide Contiguous;
    forall n
      ensures OneOf(AsSets(distinct), n) <==> OneOf(AsSets(filters), n)
    {
      OneOfSets(distinct, n);
      OneOfSets(filters, n);
      if k :| 0 <= k < |distinct| && n in distinct[k] {
        assert distinct[k] in filters;
      }
      if k :| 0 <= k < |filters| && n in filters[k] {
        assert n in distinct[ids[k]];
      }
    }
  }

  lemma CollectedMore(was: seq<Filter>, now: seq<Filter>, filters: seq<Filter>, ids: seq<nat>, k: nat, id: nat)
    requires k < |filters| && Collected(was, filters[..k], ids) && id < |now| && now[id] == filters[k]
    requires now == if filters[k] in was then was else was + [filters[k]]
    ensures Collected(now, filters[..k + 1], ids + [id])
  {
    assert filters[..k + 1] == filters[..k] + [filters[k]];
  }

  lemma TableFound(t: AddressTable, height: seq<nat>, distinct: seq<Filter>, filters: seq<Filter>, lo: nat, h: nat)
    requires WellFormed(t.chunks, height) && |t.chunks| > 0 && height[0] == h && Collected(distinct, filters, t.ids)
             && lo <= t.next
    requires Renumber.Renumbered(AddrIds(t.chunks, height, h), TakenSets(AsSets(distinct)), t.groups, lo, t.next)
    ensures AddressFits(t, AsSets(filters), lo, h)
  {
    hide *;
    LabelsFound(t.chunks, height, h);
    SetsFound(distinct, filters, t.ids);
    TableFrom(t, AddrIds(t.chunks, height, h), TakenSets(AsSets(distinct)), AsSets(filters), lo, h);
  }

  /** The labels are the results of the lookups. */
  ghost predicate LabelsAre(labels: imap<Bytes, nat>, chunks: seq<Chunk>, h: nat) {
    forall a: Bytes :: (a in labels <==> |a| == h) && (|a| == h ==> labels[a] == Find(chunks, 0, a))
  }

  lemma LabelsFound(chunks: seq<Chunk>, height: seq<nat>, h: nat)
    requires WellFormed(chunks, height) && |chunks| > 0 && height[0] == h
    ensures LabelsAre(AddrIds(chunks, height, h), chunks, h)
  {
    hide WellFormed, Find, Lookup;
    forall a: Bytes | |a| == h
      ensures Find(chunks, 0, a) == Lookup(chunks, height, 0, a)
    {
      FindLookup(chunks, height, 0, a);
    }
  }

  /** The taken sets are those of the filters, by their numbers. */
  ghost predicate SetsAre(taken: seq<iset<Bytes>>, sets: seq<NetSet>, ids: seq<nat>) {
    && |ids| == |sets| && (forall k | 0 <= k < |sets| :: ids[k] < |taken|)
    && (forall a: Bytes, k | 0 <= k < |sets| :: Takes(sets, k, a) <==> a in taken[ids[k]])
    && (forall a: Bytes :: Outside(taken, a) <==> InNone(sets, a))
    && (forall a: Bytes, b: Bytes :: Alike(taken, a, b) <==> SameSets(sets, a, b))
  }

  /** The addresses that filter k takes. */
  ghost predicate SetOf(taken: seq<iset<Bytes>>, sets: seq<NetSet>, k: nat, j: nat)
    requires k < |sets| && j < |taken|
  {
    forall a: Bytes :: Takes(sets, k, a) <==> a in taken[j]
  }

  ghost predicate SomeOf(taken: seq<iset<Bytes>>, sets: seq<NetSet>, j: nat)
    requires j < |taken|
  {
    exists k :: 0 <= k < |sets| && SetOf(taken, sets, k, j)
  }

  lemma SetsFound(distinct: seq<Filter>, filters: seq<Filter>, ids: seq<nat>)
    requires Collected(distinct, filters, ids)
    ensures SetsAre(TakenSets(AsSets(distinct)), AsSets(filters), ids)
  {
    hide TakenSets, AsSets, Takes;
    var taken, sets := TakenSets(AsSets(distinct)), AsSets(filters);
    forall j | 0 <= j < |distinct|
      ensures SomeOf(taken, sets, j)
    {
      assert distinct[j] in filters;
      var k :| 0 <= k < |filters| && filters[k] == distinct[j];
      SetIs(distinct, filters, ids, k, j);
    }
    forall k | 0 <= k < |filters|
      ensures SetOf(taken, sets, k, ids[k])
    {
      SetIs(distinct, filters, ids, k, ids[k]);
    }
    hide SetOf, SomeOf;
    forall a: Bytes
      ensures Outside(taken, a) <==> InNone(sets, a)
    {
      SetsOut(taken, sets, ids, a);
    }
    forall a: Bytes, b: Bytes
      ensures Alike(taken, a, b) <==> SameSets(sets, a, b)
    {
      SetsSame(taken, sets, ids, a, b);
    }
    forall a: Bytes, k | 0 <= k < |sets|
      ensures Takes(sets, k, a) <==> a in taken[ids[k]]
    {
      SetAt(taken, sets, k, ids[k], a);
    }
  }

  lemma SetAt(taken: seq<iset<Bytes>>, sets: seq<NetSet>, k: nat, j: nat, a: Bytes)
    requires k < |sets| && j < |taken| && SetOf(taken, sets, k, j)
    ensures Takes(sets, k, a) <==> a in taken[j]
  {
    hide Takes;
  }

  lemma SetsOut(taken: seq<iset<Bytes>>, sets: seq<NetSet>, ids: seq<nat>, a: Bytes)
    requires |ids| == |sets| && forall k | 0 <= k < |sets| :: ids[k] < |taken| && SetOf(taken, sets, k, ids[k])
    requires forall j | 0 <= j < |taken| :: SomeOf(taken, sets, j)
    ensures Outside(taken, a) <==> InNone(sets, a)
  {
    hide Takes;
    if InNone(sets, a) {
      forall j | 0 <= j < |taken|
        ensures a !in taken[j]
      {
        assert SomeOf(taken, sets, j);
      }
    }
    if Outside(taken, a) {
      forall k | 0 <= k < |sets|
        ensures !Takes(sets, k, a)
      {
        assert SetOf(taken, sets, k, ids[k]);
      }
    }
  }

  lemma SetsSame(taken: seq<iset<Bytes>>, sets: seq<NetSet>, ids: seq<nat>, a: Bytes, b: Bytes)
    requires |ids| == |sets| && forall k | 0 <= k < |sets| :: ids[k] < |taken| && SetOf(taken, sets, k, ids[k])
    requires forall j | 0 <= j < |taken| :: SomeOf(taken, sets, j)
    ensures Alike(taken, a, b) <==> SameSets(sets, a, b)
  {
    hide Takes;
    if SameSets(sets, a, b) {
      forall j | 0 <= j < |taken|
        ensures a in taken[j] <==> b in taken[j]
      {
        assert SomeOf(taken, sets, j);
      }
    }
    if Alike(taken, a, b) {
      forall k | 0 <= k < |sets|
        ensures Takes(sets, k, a) <==> Takes(sets, k, b)
      {
        assert SetOf(taken, sets, k, ids[k]);
      }
    }
  }

  lemma TableFrom(t: AddressTable, labels: imap<Bytes, nat>, taken: seq<iset<Bytes>>, sets: seq<NetSet>, lo: nat,
                  h: nat)
    requires LabelsAre(labels, t.chunks, h) && SetsAre(taken, sets, t.ids) && lo <= t.next
    requires Renumber.Renumbered(labels, taken, t.groups, lo, t.next)
    ensures AddressFits(t, sets, lo, h)
  {
    hide Takes, Outside, Alike, SameSets, InNone, Find;
    forall g | lo <= g < t.next
      ensures Inhabited(t, sets, h, g)
    {
      assert Renumber.HasCell(labels, taken, g);
    }
  }

  /** A filter takes the same addresses as the equal one among the distinct filters. */
  lemma SetIs(distinct: seq<Filter>, filters: seq<Filter>, ids: seq<nat>, k: nat, j: nat)
    requires Collected(distinct, filters, ids) && k < |filters| && j < |distinct| && filters[k] == distinct[j]
    ensures SetOf(TakenSets(AsSets(distinct)), AsSets(filters), k, j)
  {
    hide TakesSet, GappedOf, AsSet;
    SameNets(distinct, filters, ids);
    forall a: Bytes
      ensures Takes(AsSets(filters), k, a) <==> a in TakenSets(AsSets(distinct))[j]
    {
      TakesSame(GappedOf(AsSets(distinct)), distinct, filters, ids, AsSet(filters[k]), a);
    }
  }

  lemma TakesSame(gapped: NetSet, distinct: seq<Filter>, filters: seq<Filter>, ids: seq<nat>, f: NetSet, a: Bytes)
    requires Collected(distinct, filters, ids)
    ensures TakesSet(gapped, AsSets(distinct), f, a) <==> TakesSet(gapped, AsSets(filters), f, a)
  {
    hide RootPart, WidePart, HasRoot, Contiguous, SameParts, AsSets;
    forall b: Bytes
      ensures SameParts(gapped, AsSets(distinct), a, b) <==> SameParts(gapped, AsSets(filters), a, b)
    {
      PartsSame(gapped, distinct, filters, ids, a, b);
    }
    forall n | n in f
      ensures TakesNet(gapped, AsSets(distinct), n, a) <==> TakesNet(gapped, AsSets(filters), n, a)
    {
    }
  }

  lemma PartsSame(gapped: NetSet, distinct: seq<Filter>, filters: seq<Filter>, ids: seq<nat>, a: Bytes, b: Bytes)
    requires Collected(distinct, filters, ids)
    ensures SameParts(gapped, AsSets(distinct), a, b) <==> SameParts(gapped, AsSets(filters), a, b)
  {
    hide Prefixed, Widened, AsSet;
    var d, s := AsSets(distinct), AsSets(filters);
    forall j | 0 <= j < |distinct|
      ensures exists k :: 0 <= k < |s| && s[k] == d[j]
    {
      assert distinct[j] in filters;
      var k :| 0 <= k < |filters| && filters[k] == distinct[j];
      assert s[k] == d[j];
    }
    assert forall k | 0 <= k < |s| :: s[k] == d[ids[k]];
    hide AsSets;
  }
}
