/**
  What the address tree means for lists of network filters: after inserting all filters and
  merging the gapped networks, two addresses have one group id exactly when they are in the same
  parts of the filters.
*/
module NetworkFilters {
  import opened Base
  import opened Nets
  import opened Masks
  import opened Partition
  import opened ChunkForest
  import opened TreeInsert
  import opened TreeMerge
  import opened TreeGaps
  import opened TreePrepare
  import opened TreeCompose
  import opened TreeGet
  import opened Tree
  import opened Composition

  /** A filter is a list of networks; an address is in the filter if it is in one of them. */
  type Filter = seq<Net>

  ghost predicate InFilter(f: Filter, a: Digits) {
    exists k :: 0 <= k < |f| && Covers(f[k], a)
  }

  ghost function AsSet(f: Filter): NetSet {
    iset n | n in f
  }

  ghost function AsSets(filters: seq<Filter>): (sets: seq<NetSet>)
    ensures |sets| == |filters|
  {
    seq(|filters|, k requires 0 <= k < |filters| => AsSet(filters[k]))
  }

  lemma OneOfSets(filters: seq<Filter>, n: Net)
    ensures OneOf(AsSets(filters), n) <==> exists k :: 0 <= k < |filters| && n in filters[k]
  {
    if k :| 0 <= k < |filters| && n in filters[k] {
      assert n in AsSets(filters)[k];
    }
  }

  ghost predicate FilterSized(f: Filter, h: nat) {
    forall k | 0 <= k < |f| :: |f[k].addr| == |f[k].mask| == h
  }

  /** The cells that inserting the first k networks of the filter visits. */
  ghost function FirstNetCells(warps: seq<Warp>, inter: Intersections, f: Filter, k: nat, h: nat): iset<Cell>
    requires FilterSized(f, h)
  {
    iset x: Cell | InFirst(warps, inter, f, k, h, x)
  }

  ghost predicate InFirst(warps: seq<Warp>, inter: Intersections, f: Filter, k: nat, h: nat, x: Cell)
    requires FilterSized(f, h)
  {
    exists i :: 0 <= i < k && i < |f| && x in PieceCells(warps, inter, f[i])
  }

  ghost function FilterCells(warps: seq<Warp>, inter: Intersections, f: Filter, h: nat): iset<Cell>
    requires FilterSized(f, h)
  {
    FirstNetCells(warps, inter, f, |f|, h)
  }

  lemma FirstNetNone(warps: seq<Warp>, inter: Intersections, f: Filter, h: nat)
    requires FilterSized(f, h)
    ensures FirstNetCells(warps, inter, f, 0, h) == iset{}
  {
  }

  lemma FirstNetStep(warps: seq<Warp>, inter: Intersections, f: Filter, k: nat, h: nat)
    requires FilterSized(f, h) && k < |f|
    ensures FirstNetCells(warps, inter, f, k + 1, h) == FirstNetCells(warps, inter, f, k, h) + PieceCells(warps, inter,
          f[k])
  {
    hide PieceCells;
    forall x: Cell
      ensures InFirst(warps, inter, f, k + 1, h, x)
              <==> InFirst(warps, inter, f, k, h, x) || x in PieceCells(warps, inter, f[k])
    {
    }
  }

  /** The networks of the filter have been prepared. */
  ghost predicate FilterKnown(f: Filter, warps: seq<Warp>, inter: Intersections, simple: iset<Net>, h: nat) {
    FilterSized(f, h) && forall k | 0 <= k < |f| :: Known(warps, inter, simple, f[k], h)
  }

  // ----- the warps of the gapped networks ---------------------------------------------------

  ghost predicate OwnedBy(w: Warp, gapped: NetSet) {
    exists p :: p in gapped && |p.addr| == |p.mask| && WarpOf(w, p)
  }

  /** The warps and the recorded masks are those of the gapped networks. */
  ghost predicate Settled(warps: seq<Warp>, inter: Intersections, gapped: NetSet, h: nat) {
    && WarpsNormal(warps, h) && RegionsApart(warps) && Clashless(gapped, h)
    && (forall n | n in gapped :: |n.addr| == |n.mask| == h && !Contiguous(n.mask) && Placed(warps, inter, n, h))
    && (forall j | 0 <= j < |warps| :: OwnedBy(warps[j], gapped))
  }

  lemma SettledNet(warps: seq<Warp>, inter: Intersections, gapped: NetSet, h: nat, n: Net)
    requires Settled(warps, inter, gapped, h) && n in gapped
    ensures |n.addr| == |n.mask| == h && !Contiguous(n.mask) && Placed(warps, inter, n, h) && Supported(n)
  {
    hide WarpsNormal, RegionsApart, Contiguous, Supported, HasWarp, ComposedIn, Together;
  }

  lemma SettledParts(warps: seq<Warp>, inter: Intersections, gapped: NetSet, h: nat)
    requires Settled(warps, inter, gapped, h)
    ensures WarpsNormal(warps, h) && RegionsApart(warps) && Clashless(gapped, h)
    ensures forall j | 0 <= j < |warps| :: |warps[j].region.addr| == |warps[j].region.mask| == h
  {
    WarpSizes(warps, h);
  }

  lemma OwnerOf(warps: seq<Warp>, inter: Intersections, gapped: NetSet, h: nat, j: nat) returns (p: Net)
    requires Settled(warps, inter, gapped, h) && j < |warps|
    ensures p in gapped && |p.addr| == |p.mask| == h && WarpOf(warps[j], p) && RegionOf(p) == warps[j].region
  {
    hide WarpsNormal, RegionsApart, Clashless, Contiguous, Placed, WarpOf;
    assert OwnedBy(warps[j], gapped);
    p :| p in gapped && |p.addr| == |p.mask| && WarpOf(warps[j], p);
    OwnWarp(warps[j], p);
  }

  lemma SameRegion(r: Net, s: Net)
    requires |r.addr| == |r.mask| == |s.addr| == |s.mask| && Normal(r) && Normal(s) && Overlaps(r, s)
             && r.mask == s.mask
    ensures r == s
  {
    hide Agree, Sub;
    forall t | 0 <= t < |r.addr|
      ensures r.addr[t] == s.addr[t]
    {
      SameByte(r.addr[t], s.addr[t], r.mask[t]);
    }
  }

  lemma SameByte(a: bv8, b: bv8, m: bv8)
    requires Sub(a, m) && Sub(b, m) && Agree(a, m & m, b)
    ensures a == b
  {
  }

  /** A network with a warp of its own is in no wider region. */
  lemma OwnNotWider(warps: seq<Warp>, inter: Intersections, gapped: NetSet, h: nat, n: Net, p: Net)
    requires Settled(warps, inter, gapped, h) && n in gapped && p in gapped && HasWarp(warps, n)
    ensures !Wider(p, n)
  {
    hide *;
    SettledParts(warps, inter, gapped, h);
    SettledNet(warps, inter, gapped, h, n);
    SettledNet(warps, inter, gapped, h, p);
    var j := PlaceOf(warps, inter, p, h);
    var i := OneWarp(warps, n);
    OwnWarp(warps[i], n);
    if Wider(p, n) {
      WiderParts(p, n);
      OverlapsSym(RegionOf(p), RegionOf(n));
      OverlapsUp(RegionOf(n), RegionOf(p), warps[j].region);
      OverlapsOne(warps, i, j);
      SubmaskBoth(RegionOf(p).mask, RegionOf(n).mask);
    }
  }

  lemma WiderParts(p: Net, n: Net)
    requires Wider(p, n)
    ensures |p.addr| == |p.mask| == |n.addr| == |n.mask| && Overlaps(RegionOf(p), RegionOf(n))
    ensures Submask(RegionOf(p).mask, RegionOf(n).mask) && RegionOf(p).mask != RegionOf(n).mask
  {
  }

  /** A network without a warp of its own is in the wider region of the warp that composes it. */
  lemma ComposedWider(warps: seq<Warp>, inter: Intersections, gapped: NetSet, h: nat, n: Net)
    requires Settled(warps, inter, gapped, h) && n in gapped && !HasWarp(warps, n)
    ensures Composed(gapped, n)
  {
    hide *;
    SettledParts(warps, inter, gapped, h);
    SettledNet(warps, inter, gapped, h, n);
    var j := PlaceOf(warps, inter, n, h);
    var p := OwnerOf(warps, inter, gapped, h, j);
    OverlapsSym(RegionOf(n), RegionOf(p));
    if RegionOf(p).mask == RegionOf(n).mask {
      RegionNormal(n);
      RegionNormal(p);
      SameRegion(RegionOf(n), RegionOf(p));
      WarpIs(n, warps[j]);
      HasWarpAt(warps, n, j);
    }
    WiderFrom(p, n);
    WiderComposed(gapped, p, n);
  }

  lemma WiderFrom(p: Net, n: Net)
    requires |p.addr| == |p.mask| == |n.addr| == |n.mask| && Overlaps(RegionOf(p), RegionOf(n))
    requires Submask(RegionOf(p).mask, RegionOf(n).mask) && RegionOf(p).mask != RegionOf(n).mask
    ensures Wider(p, n)
  {
  }

  lemma ComposedIff(warps: seq<Warp>, inter: Intersections, gapped: NetSet, h: nat, n: Net)
    requires Settled(warps, inter, gapped, h) && n in gapped && |n.addr| == |n.mask|
    ensures Composed(gapped, n) <==> !HasWarp(warps, n)
  {
    hide Settled, HasWarp, Wider, Contiguous;
    if HasWarp(warps, n) {
      forall p | p in gapped
        ensures !Wider(p, n)
      {
        OwnNotWider(warps, inter, gapped, h, n, p);
      }
    } else {
      ComposedWider(warps, inter, gapped, h, n);
    }
  }

  /** The widest region around a network is that of its warp. */
  lemma ReachIs(warps: seq<Warp>, inter: Intersections, gapped: NetSet, h: nat, n: Net, j: nat, a: Digits)
    requires Settled(warps, inter, gapped, h) && n in gapped && j < |warps| && |a| == h
    requires |n.addr| == |n.mask| == |warps[j].region.addr| == |warps[j].region.mask| == h
    requires Overlaps(RegionOf(n), warps[j].region) && Submask(warps[j].region.mask, RegionOf(n).mask)
    ensures InReach(gapped, n, a) <==> Covers(warps[j].region, a)
  {
    hide Settled, Overlaps, RegionOf, Submask, Covers, WarpOf, RegionsApart, WarpsNormal, Placed, Clashless;
    SettledParts(warps, inter, gapped, h);
    if Covers(warps[j].region, a) {
      var p := OwnerOf(warps, inter, gapped, h, j);
      OverlapsSym(RegionOf(n), RegionOf(p));
      assert Spans(p, n, a);
    }
    if p :| p in gapped && Spans(p, n, a) {
      SettledNet(warps, inter, gapped, h, p);
      var i := PlaceOf(warps, inter, p, h);
      OverlapsUp(RegionOf(p), RegionOf(n), warps[j].region);
      OnlyOverlap(warps, p, i, j, h);
      InnerCovers(RegionOf(p), warps[j].region, a);
    }
  }

  // ----- an address and its cells -----------------------------------------------------------

  /** The warp around the address, if there is one. */
  ghost predicate Around(warps: seq<Warp>, i: int, a: Digits): (b: bool)
    ensures b ==> 0 <= i < |warps| && warps[i].level <= |a|
  {
    0 <= i < |warps| && warps[i].level <= |a| && Covers(warps[i].region, a)
  }

  /** The last part of the address below the warp around it is among the cells. */
  ghost predicate TailIn(warps: seq<Warp>, cells: iset<Cell>, a: Digits) {
    exists i :: Around(warps, i, a) && (warps[i].chunk, a[warps[i].level..]) in cells
  }

  lemma SimpleAt(height: seq<nat>, roots: set<nat>, nets: iset<(nat, Net)>, warps: seq<Warp>, n: Net, a: Digits)
    requires WarpsFit(height, roots, nets, warps) && |n.addr| == |n.mask| && Contiguous(n.mask)
    ensures ((0, a) in CellsOf(warps, n) <==> Covers(n, a)) && !TailIn(warps, CellsOf(warps, n), a)
  {
    hide Covers, Contiguous;
    CellsOfSimple(warps, n);
    hide CellsOf;
    forall i | Around(warps, i, a)
      ensures warps[i].chunk != 0
    {
      assert WarpFits(height, roots, nets, warps[i]);
    }
  }

  lemma GappedAt(height: seq<nat>, roots: set<nat>, nets: iset<(nat, Net)>, warps: seq<Warp>, n: Net, i: nat, a: Digits)
    requires WarpsFit(height, roots, nets, warps) && |height| > 0 && |n.addr| == |n.mask| == |a| == height[0] > 0
    requires !Contiguous(n.mask) && Supported(n) && i < |warps| && WarpOf(warps[i], n)
    ensures (0, a) !in CellsOf(warps, n) && (Covers(n, a) <==> TailIn(warps, CellsOf(warps, n), a))
  {
    hide Covers, Contiguous, Supported, WarpOf, CellsOf, WarpFits;
    var w := warps[i];
    CellsOfWarp(height, roots, nets, warps, n, i);
    WarpParts(height, roots, nets, warps, i);
    assert w.chunk != 0 by { WarpChunk(height, roots, nets, warps, i); }
    TailCovers(n, w, height[0]);
    RegionPrefix(height, roots, nets, warps, i, a);
    if Covers(n, a) {
      assert Around(warps, i, a) && (w.chunk, a[w.level..]) in CellsOf(warps, n);
    }
    if j :| Around(warps, j, a) && (warps[j].chunk, a[warps[j].level..]) in CellsOf(warps, n) {
      assert warps[j].chunk == w.chunk;
      assert Covers(TailOf(n, w.level), a[w.level..]);
    }
  }

  lemma WarpChunk(height: seq<nat>, roots: set<nat>, nets: iset<(nat, Net)>, warps: seq<Warp>, i: nat)
    requires WarpsFit(height, roots, nets, warps) && i < |warps|
    ensures warps[i].chunk != 0 && warps[i].chunk in roots
  {
    assert WarpFits(height, roots, nets, warps[i]);
  }

  lemma RegionPrefix(height: seq<nat>, roots: set<nat>, nets: iset<(nat, Net)>, warps: seq<Warp>, i: nat, a: Digits)
    requires WarpsFit(height, roots, nets, warps) && i < |warps| && |height| > 0 && |a| == height[0]
    ensures warps[i].level <= |a|
    ensures Covers(warps[i].region, a) <==> Covers(warps[i].region, a[..warps[i].level])
  {
    assert WarpFits(height, roots, nets, warps[i]);
    var l := warps[i].level;
    assert a == a[..l] + a[l..];
    hide WarpsFit, WarpFits, Covers;
    if Covers(warps[i].region, a[..l]) {
      CoversMore(warps[i], height, roots, nets, a[..l], a[l..]);
    }
    if Covers(warps[i].region, a) {
      CoversLess(warps[i].region, a[..l], a[l..]);
    }
  }

  /** The wide network of a composed one is its part behind the gap. */
  lemma WideIsPart(warps: seq<Warp>, inter: Intersections, gapped: NetSet, h: nat, n: Net, a: Digits)
    requires Settled(warps, inter, gapped, h) && n in gapped && |n.addr| == |n.mask| == |a| == h > 0
             && IsComposed(warps, inter, n)
    ensures Covers(WideIn(warps, inter, n), a) <==> WidePart(gapped, n, a)
  {
    hide Settled, HasWarp, Supported, Contiguous, RegionOf, GapLevel, WarpKey, WideOf, WarpMask, WarpOf, Covers,
         InReach, TailOf, ComposedBy;
    SettledNet(warps, inter, gapped, h, n);
    var j :| 0 <= j < |warps| && ComposedAs(warps[j], inter[WarpKey(n)], n, h);
    var w, wide := warps[j], WideIn(warps, inter, n);
    ByParts(w, n, h);
    WideWarp(w, n, h);
    OwnWarp(w, wide);
    GappedCovers(wide, h, a);
    ReachIs(warps, inter, gapped, h, n, j, a);
    WideTail(w, n, h);
  }

  lemma WideTail(w: Warp, n: Net, h: nat)
    requires ComposedBy(w, n, h)
    ensures |n.addr| == |n.mask| == |w.region.mask| == h && w.level <= h
    ensures TailOf(WideOf(n, WarpMask(w, h)), w.level) == TailOf(n, w.level)
  {
    hide *;
    ByParts(w, n, h);
    ComposedBytes(w, n, h);
    TailSame(n, RegionOf(n), w.region, WideOf(n, WarpMask(w, h)), w.level, h);
  }

  lemma TailSame(n: Net, region: Net, around: Net, wide: Net, l: nat, h: nat)
    requires |n.addr| == |n.mask| == |wide.addr| == |wide.mask| == h && l <= h
             && Bytewise(n, region, around, wide, l, h)
    ensures TailOf(wide, l) == TailOf(n, l)
  {
    hide Bytewise;
    forall t | l <= t < h
      ensures wide.addr[t] == n.addr[t] && wide.mask[t] == n.mask[t]
    {
      BehindSame(n, region, around, wide, l, h, t);
    }
    assert wide.addr[l..] == n.addr[l..] && wide.mask[l..] == n.mask[l..];
  }

  lemma BehindSame(n: Net, region: Net, around: Net, wide: Net, l: nat, h: nat, t: nat)
    requires Bytewise(n, region, around, wide, l, h) && l <= t < h
    ensures wide.addr[t] == n.addr[t] && wide.mask[t] == n.mask[t]
  {
    hide ByteBefore;
    assert BytesFit(n, region, around, wide, l, h, t);
  }

  /** The cells of a network are its parts. */
  lemma NetAt(height: seq<nat>, roots: set<nat>, nets: iset<(nat, Net)>, warps: seq<Warp>, inter: Intersections,
              gapped: NetSet, simple: iset<Net>, h: nat, n: Net, a: Digits)
    requires WarpsFit(height, roots, nets, warps) && |height| > 0 && |a| == height[0] == h > 0
    requires Settled(warps, inter, gapped, h) && Known(warps, inter, simple, n, h)
             && (Contiguous(n.mask) || n in gapped)
    ensures (0, a) in PieceCells(warps, inter, n) <==> RootPart(gapped, n, a)
    ensures TailIn(warps, PieceCells(warps, inter, n), a) <==> WidePart(gapped, n, a)
  {
    hide Covers, WarpsFit, CellsOf, Contiguous, Supported, WarpOf, HasWarp, NetCells, Settled, Placed, RegionOf,
         GapLevel, TailOf, InReach, Around;
    if Contiguous(n.mask) {
      PiecesOwn(warps, inter, n);
      SimpleAt(height, roots, nets, warps, n, a);
    } else {
      ComposedIff(warps, inter, gapped, h, n);
      if HasWarp(warps, n) {
        OwnAt(height, roots, nets, warps, inter, gapped, h, n, a);
      } else {
        ComposedAt(height, roots, nets, warps, inter, gapped, simple, h, n, a);
      }
    }
  }

  lemma OwnAt(height: seq<nat>, roots: set<nat>, nets: iset<(nat, Net)>, warps: seq<Warp>, inter: Intersections,
              gapped: NetSet, h: nat, n: Net, a: Digits)
    requires WarpsFit(height, roots, nets, warps) && |height| > 0 && |n.addr| == |n.mask| == |a| == height[0] == h > 0
    requires Settled(warps, inter, gapped, h) && n in gapped && HasWarp(warps, n) && !Composed(gapped, n)
    ensures (0, a) !in PieceCells(warps, inter, n)
    ensures TailIn(warps, PieceCells(warps, inter, n), a) <==> WidePart(gapped, n, a)
  {
    hide Covers, WarpsFit, CellsOf, Contiguous, Supported, WarpOf, HasWarp, Settled, Placed, WidePart, TailIn,
         Clashless;
    SettledNet(warps, inter, gapped, h, n);
    SettledParts(warps, inter, gapped, h);
    PiecesOwn(warps, inter, n);
    var i := OneWarp(warps, n);
    GappedAt(height, roots, nets, warps, n, i, a);
    NetParts(gapped, n, h, a);
  }

  lemma ComposedAt(height: seq<nat>, roots: set<nat>, nets: iset<(nat, Net)>, warps: seq<Warp>, inter: Intersections,
                   gapped: NetSet, simple: iset<Net>, h: nat, n: Net, a: Digits)
    requires WarpsFit(height, roots, nets, warps) && |height| > 0 && |n.addr| == |n.mask| == |a| == height[0] == h > 0
    requires Settled(warps, inter, gapped, h) && n in gapped && !HasWarp(warps, n) && Known(warps, inter, simple, n, h)
             && !Contiguous(n.mask)
    ensures (0, a) in PieceCells(warps, inter, n) <==> Covers(RegionOf(n), a)
    ensures TailIn(warps, PieceCells(warps, inter, n), a) <==> WidePart(gapped, n, a)
  {
    hide Covers, WarpsFit, CellsOf, Contiguous, Supported, WarpOf, HasWarp, Settled, Placed, WidePart, IsComposed,
         WideIn, RegionOf, Around;
    KnownReadied(warps, inter, simple, n, h);
    ReadiedComposed(warps, inter, n, h);
    var region, wide := RegionOf(n), WideIn(warps, inter, n);
    SimpleAt(height, roots, nets, warps, region, a);
    var i := OneWarp(warps, wide);
    GappedAt(height, roots, nets, warps, wide, i, a);
    WideIsPart(warps, inter, gapped, h, n, a);
    TailBoth(warps, CellsOf(warps, region), CellsOf(warps, wide), a);
  }

  lemma TailBoth(warps: seq<Warp>, cells: iset<Cell>, cells': iset<Cell>, a: Digits)
    ensures TailIn(warps, cells + cells', a) <==> TailIn(warps, cells, a) || TailIn(warps, cells', a)
  {
    hide Around;
  }

  /** The cells of a filter are its parts. */
  lemma FilterAt(height: seq<nat>, roots: set<nat>, nets: iset<(nat, Net)>, warps: seq<Warp>, inter: Intersections,
                 gapped: NetSet, f: Filter, simple: iset<Net>, h: nat, a: Digits)
    requires WarpsFit(height, roots, nets, warps) && |height| > 0 && |a| == height[0] == h > 0
             && FilterKnown(f, warps, inter, simple, h)
    requires Settled(warps, inter, gapped, h) && forall n | n in f :: Contiguous(n.mask) || n in gapped
    ensures (0, a) in FilterCells(warps, inter, f, h) <==> Prefixed(gapped, AsSet(f), a)
    ensures TailIn(warps, FilterCells(warps, inter, f, h), a) <==> Widened(gapped, AsSet(f), a)
  {
    hide WarpsFit, Contiguous, Settled, Known, PieceCells, RootPart, WidePart, Around;
    forall k | 0 <= k < |f|
      ensures (0, a) in PieceCells(warps, inter, f[k]) <==> RootPart(gapped, f[k], a)
      ensures TailIn(warps, PieceCells(warps, inter, f[k]), a) <==> WidePart(gapped, f[k], a)
    {
      NetAt(height, roots, nets, warps, inter, gapped, simple, h, f[k], a);
    }
    if Prefixed(gapped, AsSet(f), a) {
      var n :| n in f && RootPart(gapped, n, a);
      var k :| 0 <= k < |f| && f[k] == n;
    }
    if TailIn(warps, FilterCells(warps, inter, f, h), a) {
      var i :| Around(warps, i, a) && (warps[i].chunk, a[warps[i].level..]) in FilterCells(warps, inter, f, h);
      var k :| 0 <= k < |f| && (warps[i].chunk, a[warps[i].level..]) in PieceCells(warps, inter, f[k]);
      assert TailIn(warps, PieceCells(warps, inter, f[k]), a);
    }
    if Widened(gapped, AsSet(f), a) {
      var n :| n in f && WidePart(gapped, n, a);
      var k :| 0 <= k < |f| && f[k] == n;
      var i :| Around(warps, i, a) && (warps[i].chunk, a[warps[i].level..]) in PieceCells(warps, inter, f[k]);
      assert InFirst(warps, inter, f, |f|, h, (warps[i].chunk, a[warps[i].level..]));
    }
  }

  // ----- before the merge -------------------------------------------------------------------

  ghost predicate FiltersKnown(filters: seq<Filter>, warps: seq<Warp>, inter: Intersections, simple: iset<Net>,
                               h: nat) {
    forall k | 0 <= k < |filters| :: FilterKnown(filters[k], warps, inter, simple, h)
  }

  ghost function AllCells(warps: seq<Warp>, inter: Intersections, filters: seq<Filter>, simple: iset<Net>,
                          h: nat): (cells: seq<iset<Cell>>)
    requires FiltersKnown(filters, warps, inter, simple, h)
    ensures |cells| == |filters|
  {
    seq(|filters|, k requires 0 <= k < |filters| => FilterCells(warps, inter, filters[k], h))
  }

  // ----- after the merge --------------------------------------------------------------------

  ghost predicate NoneAround(warps: seq<Warp>, a: Digits) {
    forall i :: !Around(warps, i, a)
  }

  /** The group ids of an address before the merge: its own, and that below the warp around it (0 if there is none). */
  ghost predicate PairOf(labels: imap<Cell, nat>, warps: seq<Warp>, a: Digits, own: nat, warp: nat) {
    && (0, a) in labels && labels[(0, a)] == own
    && (NoneAround(warps, a) ==> warp == 0)
    && (forall i | Around(warps, i, a) ::
          (warps[i].chunk, a[warps[i].level..]) in labels && labels[(warps[i].chunk, a[warps[i].level..])] == warp)
  }

  lemma AroundUnique(height: seq<nat>, roots: set<nat>, nets: iset<(nat, Net)>, warps: seq<Warp>, a: Digits, i: nat,
                     j: nat)
    requires WarpsFit(height, roots, nets, warps) && |height| > 0 && |a| == height[0] && Around(warps, i, a)
             && Around(warps, j, a)
    ensures i == j
  {
    hide Covers;
  }

  /** After the merge the id of an address joins its pair of ids. */
  lemma MergedPair(c0: seq<Chunk>, h0: seq<nat>, roots: set<nat>, nets: iset<(nat, Net)>, warps: seq<Warp>,
                   c1: seq<Chunk>, h1: seq<nat>, join: Joins, z1: set<nat>, done: set<nat>,
                   a: Digits) returns (own: nat, warp: nat)
    requires Run(c0, h0, roots, nets, warps, c1, h1, join, z1, done) && WellFormed(c0, h0) && WellFormed(c1, h1)
             && Rooted(h0, roots)
    requires forall j, o | 0 <= j < |warps| && IsLast(ShapeOf(c0), warps[j], o) :: o in done
    requires 0 < |c0| <= |c1| && |a| == h0[0] == h1[0]
    ensures PairOf(Labels(c0, h0, roots), warps, a, own, warp) && Joined(join, warp, own, Lookup(c1, h1, 0, a))
  {
    hide *;
    RunOpens(c0, h0, roots, nets, warps, c1, h1, join, z1, done);
    PreparedParts(c0, h0, roots, nets, warps);
    own := Lookup(c0, h0, 0, a);
    var z0 := WarpChunks(c0, h0, warps);
    if i :| Around(warps, i, a) {
      AroundParts(warps, i, a);
      WarpParts(h0, roots, nets, warps, i);
      MergedLookup(c0, h0, roots, nets, warps, z0, c1, h1, join, z1, done, i, a);
      warp := Lookup(c0, h0, warps[i].chunk, a[warps[i].level..]);
      PairIs(c0, h0, roots, nets, warps, i, a, own, warp);
    } else {
      warp := 0;
      NoAround(h0, roots, nets, warps, a);
      UnmergedLookup(c0, h0, roots, nets, warps, z0, c1, h1, join, z1, done, a);
      PairIsNone(c0, h0, roots, nets, warps, a, own, join);
    }
  }

  lemma AroundParts(warps: seq<Warp>, i: int, a: Digits)
    requires Around(warps, i, a)
    ensures 0 <= i < |warps| && warps[i].level <= |a| && Covers(warps[i].region, a)
  {
  }

  lemma NoAround(height: seq<nat>, roots: set<nat>, nets: iset<(nat, Net)>, warps: seq<Warp>, a: Digits)
    requires WarpsFit(height, roots, nets, warps) && |height| > 0 && |a| == height[0]
             && forall i :: !Around(warps, i, a)
    ensures NoneAround(warps, a) && forall j | 0 <= j < |warps| :: !Covers(warps[j].region, a)
  {
    hide Covers;
    forall j | 0 <= j < |warps|
      ensures !Covers(warps[j].region, a)
    {
      assert WarpFits(height, roots, nets, warps[j]);
      assert !Around(warps, j, a);
    }
  }

  lemma PairIs(c0: seq<Chunk>, h0: seq<nat>, roots: set<nat>, nets: iset<(nat, Net)>, warps: seq<Warp>, i: nat,
               a: Digits, own: nat, warp: nat)
    requires WellFormed(c0, h0) && Rooted(h0, roots) && 0 in roots && WarpsFit(h0, roots, nets, warps) && |h0| > 0
             && |a| == h0[0]
    requires Around(warps, i, a) && own == Lookup(c0, h0, 0, a) && warps[i].chunk < |c0|
             && h0[warps[i].chunk] == |a| - warps[i].level
    requires warp == Lookup(c0, h0, warps[i].chunk, a[warps[i].level..])
    ensures PairOf(Labels(c0, h0, roots), warps, a, own, warp)
  {
    assert WarpFits(h0, roots, nets, warps[i]);
    hide Covers, Layered, WarpFits;
    LabelsKeys(c0, h0, roots);
    forall j | Around(warps, j, a)
      ensures j == i
    {
      AroundUnique(h0, roots, nets, warps, a, i, j);
    }
    assert IsCell(h0, roots, (0, a)) && IsCell(h0, roots, (warps[i].chunk, a[warps[i].level..]));
  }

  lemma PairIsNone(c0: seq<Chunk>, h0: seq<nat>, roots: set<nat>, nets: iset<(nat, Net)>, warps: seq<Warp>, a: Digits,
                   own: nat, join: Joins)
    requires WellFormed(c0, h0) && Rooted(h0, roots) && 0 in roots && |h0| > 0 && |a| == h0[0]
    requires NoneAround(warps, a) && own == Lookup(c0, h0, 0, a)
    ensures PairOf(Labels(c0, h0, roots), warps, a, own, 0) && Joined(join, 0, own, own)
  {
    hide Around, Layered;
    LabelsKeys(c0, h0, roots);
    assert IsCell(h0, roots, (0, a));
  }

  /** A merged id belongs to one pair of ids. */
  lemma JoinedOnce(join: Joins, lo: nat, next: nat, w1: nat, o1: nat, w2: nat, o2: nat, r: nat)
    requires JoinFits(join, lo, next) && o1 < lo && o2 < lo && Joined(join, w1, o1, r) && Joined(join, w2, o2, r)
    ensures w1 == w2 && o1 == o2 && r < next
  {
  }

  lemma SameCell(labels: imap<Cell, nat>, cells: seq<iset<Cell>>, lo: nat, k: nat, x: Cell, y: Cell)
    requires Classifies(labels, cells, lo) && k < |cells| && x in labels && y in labels && labels[x] == labels[y]
    ensures x in cells[k] <==> y in cells[k]
  {
    assert Alike(cells, x, y);
  }

  /** The address is in the same cells of every filter. */
  ghost predicate SameCells(warps: seq<Warp>, cells: seq<iset<Cell>>, a: Digits, b: Digits) {
    forall k | 0 <= k < |cells| ::
      ((0, a) in cells[k] <==> (0, b) in cells[k]) && (TailIn(warps, cells[k], a) <==> TailIn(warps, cells[k], b))
  }

  /** Addresses with one pair of ids are in the same cells. */
  lemma PairAlike(labels: imap<Cell, nat>, warps: seq<Warp>, cells: seq<iset<Cell>>, lo: nat, k: nat, a: Digits,
                  b: Digits, own: nat, warp: nat)
    requires Classifies(labels, cells, lo) && ZeroOutside(labels, cells) && k < |cells|
    requires PairOf(labels, warps, a, own, warp) && PairOf(labels, warps, b, own, warp)
    ensures (0, a) in cells[k] <==> (0, b) in cells[k]
    ensures TailIn(warps, cells[k], a) ==> TailIn(warps, cells[k], b)
  {
    hide Around, Classifies, Alike;
    SameCell(labels, cells, lo, k, (0, a), (0, b));
    if TailIn(warps, cells[k], a) {
      var i :| Around(warps, i, a) && (warps[i].chunk, a[warps[i].level..]) in cells[k];
      var x := (warps[i].chunk, a[warps[i].level..]);
      assert labels[x] == warp != 0;
      assert !NoneAround(warps, b);
      var j :| Around(warps, j, b);
      SameCell(labels, cells, lo, k, x, (warps[j].chunk, b[warps[j].level..]));
    }
  }

  /** The warp id of an address that no filter visits behind a gap is 0. */
  lemma PairOutside(height: seq<nat>, roots: set<nat>, nets: iset<(nat, Net)>, labels: imap<Cell, nat>,
                    warps: seq<Warp>,
                    cells: seq<iset<Cell>>, a: Digits, own: nat, warp: nat)
    requires WarpsFit(height, roots, nets, warps) && |height| > 0 && |a| == height[0] && ZeroOutside(labels, cells)
    requires PairOf(labels, warps, a, own, warp) && forall k | 0 <= k < |cells| :: !TailIn(warps, cells[k], a)
    ensures warp == 0
  {
    hide WarpsFit, Around;
    if i :| Around(warps, i, a) {
      var x := (warps[i].chunk, a[warps[i].level..]);
      assert Outside(cells, x);
    }
  }

  /** Addresses in the same cells have one pair of ids. */
  lemma AlikePair(height: seq<nat>, roots: set<nat>, nets: iset<(nat, Net)>, labels: imap<Cell, nat>, warps: seq<Warp>,
                  cells: seq<iset<Cell>>, lo: nat, a: Digits, b: Digits, own: nat, warp: nat, own': nat, warp': nat)
    requires WarpsFit(height, roots, nets, warps) && |height| > 0 && |a| == |b| == height[0]
    requires Classifies(labels, cells, lo) && ZeroOutside(labels, cells) && SameCells(warps, cells, a, b)
    requires PairOf(labels, warps, a, own, warp) && PairOf(labels, warps, b, own', warp')
    ensures own == own' && warp == warp'
  {
    hide WarpsFit, Around, ZeroOutside;
    assert Alike(cells, (0, a), (0, b));
    if i, j :| Around(warps, i, a) && Around(warps, j, b) {
      var x, y := (warps[i].chunk, a[warps[i].level..]), (warps[j].chunk, b[warps[j].level..]);
      forall k | 0 <= k < |cells|
        ensures x in cells[k] <==> y in cells[k]
      {
        TailAt(height, roots, nets, warps, cells[k], a, i);
        TailAt(height, roots, nets, warps, cells[k], b, j);
      }
      assert Alike(cells, x, y);
    } else {
      hide Alike, Classifies;
      forall k | 0 <= k < |cells|
        ensures !TailIn(warps, cells[k], a) && !TailIn(warps, cells[k], b)
      {
      }
      PairOutside(height, roots, nets, labels, warps, cells, a, own, warp);
      PairOutside(height, roots, nets, labels, warps, cells, b, own', warp');
    }
  }

  lemma TailAt(height: seq<nat>, roots: set<nat>, nets: iset<(nat, Net)>, warps: seq<Warp>, cells: iset<Cell>,
               a: Digits, i: nat)
    requires WarpsFit(height, roots, nets, warps) && |height| > 0 && |a| == height[0] && Around(warps, i, a)
    ensures TailIn(warps, cells, a) <==> (warps[i].chunk, a[warps[i].level..]) in cells
  {
    hide WarpsFit, Around;
    if TailIn(warps, cells, a) {
      var j :| Around(warps, j, a) && (warps[j].chunk, a[warps[j].level..]) in cells;
      AroundUnique(height, roots, nets, warps, a, i, j);
    }
  }

  /** Two addresses have one group id exactly when they are in the same parts of the filters. */
  ghost predicate Grouped(chunks: seq<Chunk>, height: seq<nat>, gapped: NetSet, sets: seq<NetSet>, h: nat, next: nat)
    requires WellFormed(chunks, height) && |chunks| > 0 && height[0] <= h
  {
    && (forall a: Digits | |a| == h :: Lookup(chunks, height, 0, a) < next)
    && (forall a: Digits, b: Digits | |a| == h && |b| == h ::
          Lookup(chunks, height, 0, a) == Lookup(chunks, height, 0, b) <==> SameParts(gapped, sets, a, b))
  }

  /** The filters' cells are their parts. */
  lemma PartsAt(height: seq<nat>, roots: set<nat>, nets: iset<(nat, Net)>, warps: seq<Warp>, inter: Intersections,
                gapped: NetSet, filters: seq<Filter>, simple: iset<Net>, h: nat, a: Digits, b: Digits)
    requires WarpsFit(height, roots, nets, warps) && |height| > 0 && |a| == |b| == height[0] == h > 0
    requires FiltersKnown(filters, warps, inter, simple, h) && Settled(warps, inter, gapped, h)
             && GappedIn(filters, gapped)
    ensures SameCells(warps, AllCells(warps, inter, filters, simple, h), a, b)
            <==> SameParts(gapped, AsSets(filters), a, b)
  {
    hide WarpsFit, Settled, FiltersKnown, AllCells, Prefixed, Widened, TailIn, Contiguous, AsSet;
    var cells, sets := AllCells(warps, inter, filters, simple, h), AsSets(filters);
    forall k | 0 <= k < |filters|
      ensures ((0, a) in cells[k] <==> Prefixed(gapped, sets[k], a))
              && (TailIn(warps, cells[k], a) <==> Widened(gapped, sets[k], a))
      ensures ((0, b) in cells[k] <==> Prefixed(gapped, sets[k], b))
              && (TailIn(warps, cells[k], b) <==> Widened(gapped, sets[k], b))
    {
      CellsAt(warps, inter, filters, simple, h, k);
      FilterAt(height, roots, nets, warps, inter, gapped, filters[k], simple, h, a);
      FilterAt(height, roots, nets, warps, inter, gapped, filters[k], simple, h, b);
    }
    hide AsSets;
  }

  ghost predicate GappedIn(filters: seq<Filter>, gapped: NetSet) {
    forall k, n | 0 <= k < |filters| && n in filters[k] :: Contiguous(n.mask) || n in gapped
  }

  /** The group ids after the merge are those of the parts. */
  lemma MergedParts(c0: seq<Chunk>, h0: seq<nat>, roots: set<nat>, nets: iset<(nat, Net)>, warps: seq<Warp>,
                    inter: Intersections,
                    c1: seq<Chunk>, h1: seq<nat>, join: Joins, z1: set<nat>, done: set<nat>,
                    gapped: NetSet, filters: seq<Filter>, simple: iset<Net>, lo: nat, next: nat, a: Digits, b: Digits)
    requires Run(c0, h0, roots, nets, warps, c1, h1, join, z1, done) && WellFormed(c0, h0) && WellFormed(c1, h1)
             && Rooted(h0, roots)
    requires forall j, o | 0 <= j < |warps| && IsLast(ShapeOf(c0), warps[j], o) :: o in done
    requires JoinFits(join, lo, next) && 0 < |c0| <= |c1| && |a| == |b| == h0[0] == h1[0] && h0[0] > 0
    requires FiltersKnown(filters, warps, inter, simple, h0[0]) && Settled(warps, inter, gapped, h0[0])
             && GappedIn(filters, gapped)
    requires Classifies(Labels(c0, h0, roots), AllCells(warps, inter, filters, simple, h0[0]), lo)
    requires ZeroOutside(Labels(c0, h0, roots), AllCells(warps, inter, filters, simple, h0[0]))
    ensures Lookup(c1, h1, 0, a) < next
    ensures Lookup(c1, h1, 0, a) == Lookup(c1, h1, 0, b) <==> SameParts(gapped, AsSets(filters), a, b)
  {
    hide *;
    RunOpens(c0, h0, roots, nets, warps, c1, h1, join, z1, done);
    PreparedParts(c0, h0, roots, nets, warps);
    var labels, cells := Labels(c0, h0, roots), AllCells(warps, inter, filters, simple, h0[0]);
    PartsAt(h0, roots, nets, warps, inter, gapped, filters, simple, h0[0], a, b);
    var own, warp := MergedPair(c0, h0, roots, nets, warps, c1, h1, join, z1, done, a);
    var own', warp' := MergedPair(c0, h0, roots, nets, warps, c1, h1, join, z1, done, b);
    OwnBelow(labels, warps, cells, lo, a, own, warp);
    OwnBelow(labels, warps, cells, lo, b, own', warp');
    JoinedOnce(join, lo, next, warp, own, warp, own, Lookup(c1, h1, 0, a));
    if Lookup(c1, h1, 0, a) == Lookup(c1, h1, 0, b) {
      JoinedOnce(join, lo, next, warp, own, warp', own', Lookup(c1, h1, 0, a));
      PairSame(labels, warps, cells, lo, a, b, own, warp);
    }
    if SameCells(warps, cells, a, b) {
      AlikePair(h0, roots, nets, labels, warps, cells, lo, a, b, own, warp, own', warp');
      JoinedSame(join, warp, own, Lookup(c1, h1, 0, a), Lookup(c1, h1, 0, b));
    }
  }

  lemma JoinedSame(join: Joins, warp: nat, own: nat, r: nat, r': nat)
    requires Joined(join, warp, own, r) && Joined(join, warp, own, r')
    ensures r == r'
  {
  }

  lemma PairSame(labels: imap<Cell, nat>, warps: seq<Warp>, cells: seq<iset<Cell>>, lo: nat, a: Digits, b: Digits,
                 own: nat, warp: nat)
    requires Classifies(labels, cells, lo) && ZeroOutside(labels, cells)
    requires PairOf(labels, warps, a, own, warp) && PairOf(labels, warps, b, own, warp)
    ensures SameCells(warps, cells, a, b)
  {
    hide Classifies, ZeroOutside, PairOf, TailIn;
    forall k | 0 <= k < |cells|
      ensures ((0, a) in cells[k] <==> (0, b) in cells[k])
              && (TailIn(warps, cells[k], a) <==> TailIn(warps, cells[k], b))
    {
      PairAlike(labels, warps, cells, lo, k, a, b, own, warp);
      PairAlike(labels, warps, cells, lo, k, b, a, own, warp);
    }
  }

  lemma OwnBelow(labels: imap<Cell, nat>, warps: seq<Warp>, cells: seq<iset<Cell>>, lo: nat, a: Digits, own: nat,
                 warp: nat)
    requires Classifies(labels, cells, lo) && PairOf(labels, warps, a, own, warp)
    ensures own < lo
  {
  }

  lemma CellsAt(warps: seq<Warp>, inter: Intersections, filters: seq<Filter>, simple: iset<Net>, h: nat, k: nat)
    requires FiltersKnown(filters, warps, inter, simple, h) && k < |filters|
    ensures FilterKnown(filters[k], warps, inter, simple, h) && FilterSized(filters[k], h)
    ensures AllCells(warps, inter, filters, simple, h)[k] == FilterCells(warps, inter, filters[k], h)
  {
    hide PieceCells, Known;
  }

  // ----- reading the tree after the merge ---------------------------------------------------

  lemma RunEnds(c0: seq<Chunk>, h0: seq<nat>, roots: set<nat>, nets: iset<(nat, Net)>, warps: seq<Warp>,
                c1: seq<Chunk>, h1: seq<nat>, join: Joins, z1: set<nat>, done: set<nat>, i: nat, ends: set<nat>, h: nat)
    requires Run(c0, h0, roots, nets, warps, c1, h1, join, z1, done) && Sized(c0) && WellFormed(c1, h1) && i < |warps|
    requires |h0| > 0 && h0[0] == h && forall o: nat :: o in ends <==> IsLast(ShapeOf(c0), warps[i], o)
    ensures EndsFit(c1, h1, warps[i], ends, h)
  {
    hide *;
    RunOpens(c0, h0, roots, nets, warps, c1, h1, join, z1, done);
    PreparedParts(c0, h0, roots, nets, warps);
    WarpParts(h0, roots, nets, warps, i);
    GapKept(c0, h0, roots, nets, warps, WarpChunks(c0, h0, warps), c1, h1, join, z1, done, i);
    RunParts(c0, h0, roots, nets, warps, WarpChunks(c0, h0, warps), c1, h1, join, z1, done);
    EndsKeptFit(c1, h1, ShapeOf(c0), warps[i], ends, h);
  }

  lemma EndsKeptFit(c1: seq<Chunk>, h1: seq<nat>, s0: Shape, w: Warp, ends: set<nat>, h: nat)
    requires WellFormed(c1, h1) && 0 < |c1| && |h1| == |c1| && h1[0] == h && w.level < h
    requires forall o: nat :: o in ends <==> IsLast(s0, w, o)
    requires forall p: Digits | |p| == w.level && Covers(w.region, p) ::
               Walk(s0, 0, p).Some? && Walk(ShapeOf(c1), 0, p) == Walk(s0, 0, p)
    ensures EndsFit(c1, h1, w, ends, h)
  {
    hide Walk, Covers, Layered;
  }

  // ----- the ids of addresses ---------------------------------------------------------------

  ghost function AddrIds(chunks: seq<Chunk>, height: seq<nat>, h: nat): imap<Digits, nat>
    requires WellFormed(chunks, height) && |chunks| > 0 && height[0] == h
  {
    imap a: Digits | |a| == h :: Lookup(chunks, height, 0, a)
  }

  /** The addresses that every filter takes. */
  ghost function TakenSets(sets: seq<NetSet>): (taken: seq<iset<Digits>>)
    ensures |taken| == |sets|
  {
    seq(|sets|, k requires 0 <= k < |sets| => iset a: Digits | Takes(sets, k, a))
  }

  /** One of the first k networks of the filter is seen with group id g. */
  ghost predicate SeenTo(chunks: seq<Chunk>, height: seq<nat>, warps: seq<Warp>, inter: Intersections, f: Filter,
                         k: nat, h: nat, g: nat)
    requires WellFormed(chunks, height) && |chunks| > 0 && height[0] == h && FilterSized(f, h)
  {
    exists i :: 0 <= i < k && i < |f| && PieceSeen(chunks, height, warps, inter, f[i], g)
  }

  /** A network seen with the group id of an address takes the address. */
  lemma NetSeen(chunks: seq<Chunk>, height: seq<nat>, warps: seq<Warp>, inter: Intersections, gapped: NetSet,
                sets: seq<NetSet>,
                h: nat, next: nat, n: Net, a: Digits)
    requires WellFormed(chunks, height) && |chunks| > 0 && height[0] == h > 0
             && Grouped(chunks, height, gapped, sets, h, next)
    requires Settled(warps, inter, gapped, h) && Readied(warps, inter, n, h) && (Contiguous(n.mask) || n in gapped)
             && |a| == h
    ensures PieceSeen(chunks, height, warps, inter, n, Lookup(chunks, height, 0, a)) <==> TakesNet(gapped, sets, n, a)
  {
    hide Settled, Seen, Contiguous, Supported, HasWarp, Placed, RegionOf, WideIn, Layered, Grouped, RootTaken,
         WideTaken, Composed;
    if Contiguous(n.mask) {
      RootIs(gapped, n, h);
      RootSeen(chunks, height, gapped, sets, h, next, n, n, a);
    } else {
      ComposedIff(warps, inter, gapped, h, n);
      if HasWarp(warps, n) {
        OwnWide(warps, inter, gapped, h, n);
        WideSeen(chunks, height, gapped, sets, h, next, n, n, a);
      } else {
        ReadiedComposed(warps, inter, n, h);
        RootIs(gapped, n, h);
        ComposedWide(warps, inter, gapped, h, n);
        RootSeen(chunks, height, gapped, sets, h, next, n, RegionOf(n), a);
        WideSeen(chunks, height, gapped, sets, h, next, n, WideIn(warps, inter, n), a);
      }
    }
  }

  /** The network m is the part of n under the root. */
  ghost predicate RootNet(gapped: NetSet, n: Net, m: Net, h: nat) {
    forall b: Digits | |b| == h :: Covers(m, b) <==> RootPart(gapped, n, b)
  }

  ghost predicate WideNet(gapped: NetSet, n: Net, m: Net, h: nat) {
    forall b: Digits | |b| == h :: Covers(m, b) <==> WidePart(gapped, n, b)
  }

  lemma RootIs(gapped: NetSet, n: Net, h: nat)
    requires |n.addr| == |n.mask| == h && HasRoot(gapped, n)
    ensures RootNet(gapped, n, if Contiguous(n.mask) then n else RegionOf(n), h)
  {
    hide Covers, Contiguous, Composed, RegionOf;
  }

  lemma OwnWide(warps: seq<Warp>, inter: Intersections, gapped: NetSet, h: nat, n: Net)
    requires Settled(warps, inter, gapped, h) && n in gapped && |n.addr| == |n.mask| == h > 0 && !Composed(gapped, n)
    ensures WideNet(gapped, n, n, h)
  {
    hide Settled, Covers, WidePart, RootPart, Composed, Contiguous, Clashless;
    SettledNet(warps, inter, gapped, h, n);
    SettledParts(warps, inter, gapped, h);
    forall b: Digits | |b| == h
      ensures Covers(n, b) <==> WidePart(gapped, n, b)
    {
      NetParts(gapped, n, h, b);
    }
  }

  lemma ComposedWide(warps: seq<Warp>, inter: Intersections, gapped: NetSet, h: nat, n: Net)
    requires Settled(warps, inter, gapped, h) && n in gapped && |n.addr| == |n.mask| == h > 0
             && IsComposed(warps, inter, n)
    ensures WideNet(gapped, n, WideIn(warps, inter, n), h)
  {
    hide Settled, Covers, WidePart, WideIn, IsComposed;
    forall b: Digits | |b| == h
      ensures Covers(WideIn(warps, inter, n), b) <==> WidePart(gapped, n, b)
    {
      WideIsPart(warps, inter, gapped, h, n, b);
    }
  }

  lemma RootSeen(chunks: seq<Chunk>, height: seq<nat>, gapped: NetSet, sets: seq<NetSet>, h: nat, next: nat, n: Net,
                 m: Net, a: Digits)
    requires WellFormed(chunks, height) && |chunks| > 0 && height[0] == h
             && Grouped(chunks, height, gapped, sets, h, next)
    requires |m.addr| == |m.mask| == |a| == h && RootNet(gapped, n, m, h)
    ensures Seen(chunks, height, 0, m.addr, m.mask, Lookup(chunks, height, 0, a)) <==> RootTaken(gapped, sets, n, a)
  {
    hide Covers, Layered, SameParts, RootPart, Lookup;
    assert m == Net(m.addr, m.mask);
    forall b: Digits | |b| == h
      ensures Lookup(chunks, height, 0, b) == Lookup(chunks, height, 0, a) <==> SameParts(gapped, sets, a, b)
    {
    }
  }

  lemma WideSeen(chunks: seq<Chunk>, height: seq<nat>, gapped: NetSet, sets: seq<NetSet>, h: nat, next: nat, n: Net,
                 m: Net, a: Digits)
    requires WellFormed(chunks, height) && |chunks| > 0 && height[0] == h
             && Grouped(chunks, height, gapped, sets, h, next)
    requires |m.addr| == |m.mask| == |a| == h && WideNet(gapped, n, m, h)
    ensures Seen(chunks, height, 0, m.addr, m.mask, Lookup(chunks, height, 0, a)) <==> WideTaken(gapped, sets, n, a)
  {
    hide Covers, Layered, SameParts, WidePart, Lookup;
    assert m == Net(m.addr, m.mask);
    forall b: Digits | |b| == h
      ensures Lookup(chunks, height, 0, b) == Lookup(chunks, height, 0, a) <==> SameParts(gapped, sets, a, b)
    {
    }
  }

  /** The networks of the filters can be read. */
  ghost predicate FilterReadable(f: Filter, warps: seq<Warp>, inter: Intersections, h: nat) {
    FilterSized(f, h) && forall k | 0 <= k < |f| :: Readied(warps, inter, f[k], h)
  }

  /** A filter seen with the group id of an address takes the address. */
  lemma FilterTakes(chunks: seq<Chunk>, height: seq<nat>, warps: seq<Warp>, inter: Intersections, gapped: NetSet,
                    sets: seq<NetSet>,
                    h: nat, next: nat, f: Filter, a: Digits)
    requires WellFormed(chunks, height) && |chunks| > 0 && height[0] == h > 0
             && Grouped(chunks, height, gapped, sets, h, next)
    requires Settled(warps, inter, gapped, h) && FilterReadable(f, warps, inter, h) && |a| == h
    requires forall n | n in f :: Contiguous(n.mask) || n in gapped
    ensures SeenTo(chunks, height, warps, inter, f, |f|, h, Lookup(chunks, height, 0, a))
            <==> TakesSet(gapped, sets, AsSet(f), a)
  {
    hide Settled, PieceSeen, TakesNet, Contiguous, Readied, Layered, Grouped, Lookup;
    forall i | 0 <= i < |f|
      ensures PieceSeen(chunks, height, warps, inter, f[i], Lookup(chunks, height, 0, a))
              <==> TakesNet(gapped, sets, f[i], a)
    {
      NetSeen(chunks, height, warps, inter, gapped, sets, h, next, f[i], a);
    }
    if TakesSet(gapped, sets, AsSet(f), a) {
      var n :| n in f && TakesNet(gapped, sets, n, a);
      var i :| 0 <= i < |f| && f[i] == n;
    }
  }
}
