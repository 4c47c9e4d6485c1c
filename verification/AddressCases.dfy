/** Two small lists of filters whose classifiers list an address that is in none of the networks. */
module AddressCases {
  import opened Base
  import opened Nets
  import opened Masks
  import opened TreeInsert
  import opened TreeGaps
  import opened TreePrepare
  import opened TreeCompose
  import opened Composition
  import opened Mixing
  import opened NetworkFilters
  import opened Rules
  import opened Addresses

  // ----- a composed network beside a prefix -------------------------------------------------

  /** 10.0.5.0/255.0.255.0 */
  function Wide(): Net {
    Net([10, 0, 5, 0], [0xFF, 0, 0xFF, 0])
  }

  /** 10.16.5.0/255.240.255.0 */
  function Narrow(): Net {
    Net([10, 16, 5, 0], [0xFF, 0xF0, 0xFF, 0])
  }

  /** 10.32.0.0/12 */
  function Prefix(): Net {
    Net([10, 32, 0, 0], [0xFF, 0xF0, 0, 0])
  }

  /** 10.16.6.0 is in the region of the narrow network, but behind the gap it is in neither gapped network. */
  function Stray(): Bytes {
    [10, 16, 6, 0]
  }

  lemma Filled(m: bv8)
    requires Leading(m) && m != 0xFF
    ensures FillTail([0xFF, m, 0xFF, 0]) == [0xFF, m, 0xFF, 0xFF] && ClearTail([0xFF, m, 0xFF, 0xFF]) == [0xFF, m, 0, 0]
    ensures TailStart([0xFF, m, 0xFF, 0xFF]) == 2 && ByteAligned([0xFF, m, 0xFF, 0xFF])
    ensures Contiguous([0xFF, m, 0, 0]) && !Contiguous([0xFF, m, 0xFF, 0])
  {
    var w: Bytes := [0xFF, m, 0xFF, 0];
    assert w[..3] == [0xFF, m, 0xFF] && w[..2] == [0xFF, m];
    FillLeading(0xFF);
    assert FillTail([0xFF, m, 0xFF]) == [0xFF, m, 0xFF];
    var x: Bytes := [0xFF, m, 0xFF, 0xFF];
    assert x[..3] == [0xFF, m, 0xFF] && x[..3][..2] == [0xFF, m];
    ClearEven(m);
    assert ClearTail([0xFF, m]) == [0xFF, m];
    TailStartIs(x, 2);
    var y: Bytes := [0xFF, m, 0, 0];
    assert y[1..] == [m, 0, 0] && y[1..][1..] == [0, 0];
    assert w[1..] == [m, 0xFF, 0] && w[1..][1..] == [0xFF, 0];
    assert w[1..][1] == 0xFF && w[1..][1..][0] == 0xFF;
  }

  lemma WideIs()
    ensures RegionOf(Wide()) == Net([10, 0, 0, 0], [0xFF, 0, 0, 0]) && GapLevel(Wide()) == 2
    ensures Supported(Wide()) && !Contiguous(Wide().mask) && TailOf(Wide(), 2) == Net([5, 0], [0xFF, 0])
  {
    Filled(0);
    hide FillTail, ClearTail, TailStart, ByteAligned, Contiguous;
    assert And([10, 0, 5, 0], [0xFF, 0, 0, 0]) == [10, 0, 0, 0];
  }

  lemma NarrowIs()
    ensures RegionOf(Narrow()) == Net([10, 16, 0, 0], [0xFF, 0xF0, 0, 0]) && GapLevel(Narrow()) == 2
    ensures Supported(Narrow()) && !Contiguous(Narrow().mask) && TailOf(Narrow(), 2) == Net([5, 0], [0xFF, 0])
  {
    Filled(0xF0);
    hide FillTail, ClearTail, TailStart, ByteAligned, Contiguous;
    assert And([10, 16, 5, 0], [0xFF, 0xF0, 0, 0]) == [10, 16, 0, 0];
  }

  lemma PrefixIs()
    ensures Contiguous(Prefix().mask)
  {
    Filled(0xF0);
  }

  /** The tail of the gapped networks starts with byte 5. */
  lemma NoTail(n: Net, gapped: NetSet, x: Bytes)
    requires (n == Wide() || n == Narrow()) && |x| == 4 && x[2] != 5
    ensures !WidePart(gapped, n, x)
  {
    WideIs();
    NarrowIs();
    hide RegionOf, GapLevel, Supported, Contiguous, InReach, TailOf;
    if WidePart(gapped, n, x) {
      TailByte(x);
    }
  }

  lemma TailByte(x: Bytes)
    requires |x| == 4 && Covers(Net([5, 0], [0xFF, 0]), x[2..])
    ensures x[2] == 5
  {
    assert Agree(x[2..][0], 0xFF, 5);
  }

  function Beside(): seq<Filter> {
    [[Narrow(), Prefix()], [Wide()]]
  }

  lemma BesideSets()
    ensures |AsSets(Beside())| == 2 && AsSets(Beside())[0] == iset{Narrow(), Prefix()}
            && AsSets(Beside())[1] == iset{Wide()}
  {
    hide Narrow, Prefix, Wide;
    assert Beside()[0] == [Narrow(), Prefix()] && Beside()[1] == [Wide()];
  }

  lemma WideAround()
    ensures Wider(Wide(), Narrow()) && !Wider(Narrow(), Wide()) && !Wider(Wide(), Wide())
    ensures Overlaps(RegionOf(Wide()), RegionOf(Narrow()))
  {
    WideIs();
    NarrowIs();
    hide RegionOf, GapLevel, Supported, Contiguous;
  }

  /** The wide network composes the narrow one. */
  lemma BesideComposed(gapped: NetSet)
    requires gapped == GappedOf(AsSets(Beside()))
    ensures gapped == iset{Narrow(), Wide()} && Composed(gapped, Narrow()) && !Composed(gapped, Wide())
  {
    BesideSets();
    WideIs();
    NarrowIs();
    PrefixIs();
    WideAround();
    var sets := AsSets(Beside());
    hide Narrow, Prefix, Wide, RegionOf, GapLevel, Supported, Contiguous, Wider, AsSets, Beside, TailOf, Overlaps;
    assert forall n :: OneOf(sets, n) <==> n in sets[0] || n in sets[1];
    assert forall n :: n in gapped <==> n == Narrow() || n == Wide();
  }

  /** The list can be prepared. */
  lemma BesideUsable()
    ensures Usable(AsSets(Beside()), 4)
  {
    var gapped := GappedOf(AsSets(Beside()));
    BesideComposed(gapped);
    BesideFacts();
    hide *;
    TwoClashless(gapped, Narrow(), Wide());
    UsableIs(AsSets(Beside()), 4);
  }

  lemma BesideFacts()
    ensures |Wide().addr| == |Wide().mask| == |Narrow().addr| == |Narrow().mask| == 4
            && GapLevel(Wide()) == GapLevel(Narrow())
    ensures Supported(Wide()) && Supported(Narrow()) && !Contiguous(Wide().mask) && !Contiguous(Narrow().mask)
  {
    WideIs();
    NarrowIs();
    hide GapLevel, Supported, Contiguous;
  }

  lemma TwoClashless(gapped: NetSet, n: Net, m: Net)
    requires gapped == iset{n, m} && |n.addr| == |n.mask| == |m.addr| == |m.mask| == 4 && GapLevel(n) == GapLevel(m)
    requires Supported(n) && Supported(m) && !Contiguous(n.mask) && !Contiguous(m.mask)
    ensures Clashless(gapped, 4)
  {
    hide GapLevel, Supported, Contiguous, RegionOf, Overlaps;
  }

  /**
    10.32.0.0/12 and 10.16.5.0/255.240.255.0 in one filter, and 10.0.5.0/255.0.255.0 in another one: every
    classifier lists 10.16.6.0 for the first filter, although it is in none of the three networks.
  */
  lemma ComposedBeside(t: AddressTable, lo: nat)
    requires AddressFits(t, AsSets(Beside()), lo, 4)
    ensures |t.ids| == 2 && t.ids[0] < |t.groups| && Find(t.chunks, 0, Stray()) in t.groups[t.ids[0]]
    ensures !Covers(Narrow(), Stray()) && !Covers(Prefix(), Stray()) && !Covers(Wide(), Stray())
  {
    StrayOutside();
    StrayTaken();
    BesideSets();
    assert |Stray()| == 4;
    hide Takes, Find, SameSets, Inhabited, Covers, Narrow, Prefix, Wide, Stray, AsSets, Beside;
    var sets := AsSets(Beside());
    assert !InNone(sets, Stray());
    assert Lists(t, sets, 0, Stray());
  }

  lemma StrayOutside()
    ensures !Covers(Narrow(), Stray()) && !Covers(Prefix(), Stray()) && !Covers(Wide(), Stray())
  {
    assert !Agree(Stray()[2], Narrow().mask[2], Narrow().addr[2]);
    assert !Agree(Stray()[1], Prefix().mask[1], Prefix().addr[1]);
    assert !Agree(Stray()[2], Wide().mask[2], Wide().addr[2]);
  }

  lemma StrayTaken()
    ensures Takes(AsSets(Beside()), 0, Stray())
  {
    var sets := AsSets(Beside());
    var gapped := GappedOf(sets);
    BesideSets();
    BesideComposed(gapped);
    PrefixIs();
    assert |Stray()| == |Prefix().addr|;
    StrayParts(gapped);
    hide GappedOf, Composed, Contiguous, SameParts, RootPart, WidePart, Narrow, Prefix, Wide, Stray, AsSets, Beside;
    assert TakesNet(gapped, sets, Prefix(), Stray());
  }

  lemma StrayRoots(gapped: NetSet)
    requires Composed(gapped, Narrow()) && !Composed(gapped, Wide())
    ensures RootPart(gapped, Narrow(), Stray()) && RootPart(gapped, Prefix(), Prefix().addr)
    ensures !RootPart(gapped, Wide(), Stray()) && !RootPart(gapped, Wide(), Prefix().addr)
    ensures !WidePart(gapped, Prefix(), Stray()) && !WidePart(gapped, Prefix(), Prefix().addr)
  {
    WideIs();
    NarrowIs();
    PrefixIs();
    CoversItself(Prefix());
    hide Composed, Contiguous, RegionOf, GapLevel, Supported, InReach, TailOf;
    assert Covers(Net([10, 16, 0, 0], [0xFF, 0xF0, 0, 0]), Stray());
    hide Covers;
  }

  /** The stray address and the address of the prefix are in the same parts. */
  lemma StrayParts(gapped: NetSet)
    requires Composed(gapped, Narrow()) && !Composed(gapped, Wide())
    ensures RootPart(gapped, Prefix(), Prefix().addr) && SameParts(gapped, AsSets(Beside()), Stray(), Prefix().addr)
  {
    hide *;
    BesideSets();
    StrayRoots(gapped);
    StrayTails(gapped);
    SameTwo(gapped, AsSets(Beside()), Narrow(), Prefix(), Wide(), Stray(), Prefix().addr);
  }

  lemma StrayTails(gapped: NetSet)
    ensures !WidePart(gapped, Narrow(), Stray()) && !WidePart(gapped, Narrow(), Prefix().addr)
    ensures !WidePart(gapped, Wide(), Stray()) && !WidePart(gapped, Wide(), Prefix().addr)
  {
    hide WidePart;
    NoTail(Narrow(), gapped, Stray());
    NoTail(Narrow(), gapped, Prefix().addr);
    NoTail(Wide(), gapped, Stray());
    NoTail(Wide(), gapped, Prefix().addr);
  }

  lemma SameTwo(gapped: NetSet, sets: seq<NetSet>, n: Net, m: Net, p: Net, a: Bytes, b: Bytes)
    requires |sets| == 2 && sets[0] == iset{n, m} && sets[1] == iset{p}
    requires RootPart(gapped, n, a) && RootPart(gapped, m, b) && !RootPart(gapped, p, a) && !RootPart(gapped, p, b)
    requires !WidePart(gapped, n, a) && !WidePart(gapped, m, a) && !WidePart(gapped, n, b) && !WidePart(gapped, m, b)
    requires !WidePart(gapped, p, a) && !WidePart(gapped, p, b)
    ensures SameParts(gapped, sets, a, b)
  {
    hide RootPart, WidePart;
    assert n in sets[0] && m in sets[0];
  }

  // ----- the first group --------------------------------------------------------------------

  /** 10.0.0.0/8 alone */
  function Alone(): seq<Filter> {
    [[Net([10, 0, 0, 0], [0xFF, 0, 0, 0])]]
  }

  /**
    Counted from 0 on, the group of addresses in no filter is that of a filter: every classifier lists
    11.0.0.1 for 10.0.0.0/8.
  */
  lemma FirstGroup(t: AddressTable)
    requires AddressFits(t, AsSets(Alone()), 0, 4)
    ensures |t.ids| == 1 && t.ids[0] < |t.groups| && Find(t.chunks, 0, [11, 0, 0, 1]) in t.groups[t.ids[0]]
    ensures !Covers(Alone()[0][0], [11, 0, 0, 1])
  {
    var sets := AsSets(Alone());
    AloneRight();
    hide Takes, Find, SameSets, AsSets, Alone, Covers;
    assert !InNone(sets, [10, 0, 0, 0]) && InNone(sets, [11, 0, 0, 1]);
    assert Inhabited(t, sets, 4, 0);
    var a: Bytes :| |a| == 4 && !InNone(sets, a) && Find(t.chunks, 0, a) == 0;
    assert Lists(t, sets, 0, a);
  }

  lemma AloneRight()
    ensures |AsSets(Alone())| == 1 && Takes(AsSets(Alone()), 0, [10, 0, 0, 0])
            && !Takes(AsSets(Alone()), 0, [11, 0, 0, 1])
    ensures !Covers(Alone()[0][0], [11, 0, 0, 1])
  {
    var sets, n := AsSets(Alone()), Alone()[0][0];
    assert n.mask[1..] == [0, 0, 0];
    assert Contiguous(n.mask);
    assert sets[0] == iset{n};
    assert !Agree([11, 0, 0, 1][0], n.mask[0], n.addr[0]);
    assert Covers(n, [10, 0, 0, 0]) && !Covers(n, [11, 0, 0, 1]);
    assert |n.addr| == |n.mask| == 4;
    hide AsSets, Alone, Covers, Contiguous;
    AloneUsable(sets, n);
    assert InSet(sets[0], [10, 0, 0, 0]) && !InSet(sets[0], [11, 0, 0, 1]);
    hide InSet, Takes;
    assert Right(sets, 0, 4);
  }

  lemma AloneUsable(sets: seq<NetSet>, n: Net)
    requires |sets| == 1 && sets[0] == iset{n} && Contiguous(n.mask) && |n.addr| == |n.mask| == 4
    ensures Right(sets, 0, 4)
  {
    hide Contiguous, Right, Unmixed, Fitting;
    assert GappedOf(sets) == iset{};
    assert SetsUsable(sets, 4);
    UsableFits(sets, 0, 4);
    NothingComposed(GappedOf(sets), sets[0], 4);
    RightIf(sets, 0, 4);
  }
}
