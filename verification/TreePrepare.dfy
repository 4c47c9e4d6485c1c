/**
  Preparing the tree for gapped prefixes (`prepare_gapped_step`, `prepare_simple_step`).

  Inside the region of a gapped prefix the bytes of the gap do not matter, so all paths through
  the gap are led to one chain of shared chunks.  A simple prefix that ends inside the gap gets a
  chain of its own, so that no shared chunk lies both inside and outside of it.
*/
module TreePrepare {
  import opened Base
  import opened Nets
  import opened Masks
  import opened ChunkForest
  import opened TreeInsert
  import opened TreeMerge
  import opened TreeGaps

  // ----- grafting a chain of shared chunks --------------------------------------------------

  /** The slots of the chunk from low to high refer to `target`, the others are kept. */
  ghost predicate Linked(k: Chunk, k': Chunk, low: bv8, high: bv8, target: nat) {
    && k.Sized() && k'.Sized() && k'.multirefs == k.multirefs
    && forall d: bv8 :: k'.At(d) == if Between(low, d, high) then Link(target) else k.At(d)
  }

  /** Slots low to high of chunk c lead into a new chain of m shared, empty chunks. */
  ghost predicate Grafted(chunks: seq<Chunk>, chunks': seq<Chunk>, c: nat, low: bv8, high: bv8, m: nat) {
    && c < |chunks| && |chunks'| == |chunks| + m
    && (forall x | 0 <= x < |chunks| && x != c :: chunks'[x] == chunks[x])
    && Linked(chunks[c], chunks'[c], low, high, |chunks|)
    && (forall x | |chunks| <= x < |chunks'| :: chunks'[x] == ChainChunk(|chunks'|, x))
  }

  /** A chunk of a chain of shared chunks that ends before index `end`. */
  ghost function ChainChunk(end: nat, x: nat): Chunk {
    Filled(true, if x + 1 < end then Link(x + 1) else Group(0))
  }

  /** The passed slots of chunk c refer to a new shared chunk, all other slots are as before. */
  ghost predicate LinkedTo(was: seq<Chunk>, chunks: seq<Chunk>, c: nat, low: bv8, high: bv8, d: bv8, more: bool) {
    && c < |was| && |chunks| == |was| + 1 && chunks[|was|] == Filled(true, Group(0))
    && (forall x | 0 <= x < |was| && x != c :: chunks[x] == was[x])
    && was[c].Sized() && chunks[c].Sized() && chunks[c].multirefs == was[c].multirefs
    && (forall e: bv8 :: chunks[c].At(e) == if Passed(low, high, d, more, e) then Link(|was|) else was[c].At(e))
  }

  lemma LinkStart(was: seq<Chunk>, c: nat, low: bv8, high: bv8)
    requires c < |was| && was[c].Sized() && forall e :: !Passed(low, high, low, true, e)
    ensures LinkedTo(was, was + [Filled(true, Group(0))], c, low, high, low, true)
  {
    hide Passed;
  }

  lemma LinkHere(was: seq<Chunk>, chunks: seq<Chunk>, c: nat, low: bv8, high: bv8, d: bv8)
    requires LinkedTo(was, chunks, c, low, high, d, true)
    ensures c < |chunks| && |chunks| == |was| + 1 && chunks[c].Sized() && chunks[c].At(d) == was[c].At(d)
    ensures chunks[c].At(d).Link? && chunks[c].At(d).chunk < |was| && was[chunks[c].At(d).chunk].multirefs ==>
              chunks[chunks[c].At(d).chunk].multirefs
  {
    NotYet(low, high, d);
    hide Passed;
  }

  lemma LinkMore(was: seq<Chunk>, chunks: seq<Chunk>, c: nat, low: bv8, high: bv8, d: bv8)
    requires LinkedTo(was, chunks, c, low, high, d, true)
    ensures forall d': bv8, more: bool | PassedBoth(low, high, d, d', more) ::
              LinkedTo(was, chunks[c := chunks[c].Put(d, Link(|was|))], c, low, high, d', more)
  {
    hide Passed;
  }

  lemma LinkEnd(was: seq<Chunk>, chunks: seq<Chunk>, c: nat, low: bv8, high: bv8, d: bv8)
    requires LinkedTo(was, chunks, c, low, high, d, false)
    ensures Grafted(was, chunks, c, low, high, 1)
  {
    forall e { PassedAll(low, high, d, e); }
    hide Passed, Between;
  }

  /** A chain grows at its end. */
  lemma GraftLonger(chunks: seq<Chunk>, chunks1: seq<Chunk>, chunks2: seq<Chunk>, c: nat, low: bv8, high: bv8,
                    low': bv8, high': bv8, m: nat)
    requires Grafted(chunks, chunks1, c, low, high, 1) && m > 0
    requires Grafted(chunks1, chunks2, |chunks|, low', high', m) && forall d :: Between(low', d, high')
    ensures Grafted(chunks, chunks2, c, low, high, m + 1)
  {
    hide Between;
    assert chunks1[|chunks|] == ChainChunk(|chunks1|, |chunks|);
    SameChunk(chunks2[|chunks|], ChainChunk(|chunks2|, |chunks|));
  }

  lemma SameChunk(k: Chunk, k': Chunk)
    requires k.Sized() && k'.Sized() && k.multirefs == k'.multirefs && forall d: bv8 :: k.At(d) == k'.At(d)
    ensures k == k'
  {
    forall i | 0 <= i < 256
      ensures k.values[i] == k'.values[i]
    {
      assert k.At(i as bv8) == k'.At(i as bv8);
    }
  }

  ghost function GraftHeight(height: seq<nat>, c: nat, m: nat): seq<nat>
    requires c < |height| && m < height[c]
  {
    height + seq(m, t requires 0 <= t < m => height[c] - 1 - t)
  }

  ghost predicate GraftedShape(s: Shape, s': Shape, c: nat, low: bv8, high: bv8, m: nat) {
    && c < |s| && |s'| == |s| + m
    && (forall x, d | 0 <= x < |s| && x != c :: Kid(s', x, d) == Kid(s, x, d))
    && (forall d :: Kid(s', c, d) == if Between(low, d, high) then |s| else Kid(s, c, d))
    && (forall x, d | |s| <= x < |s| + m :: Kid(s', x, d) == if x + 1 < |s| + m then x + 1 else -1)
  }

  ghost predicate SharedMore(flags: seq<bool>, flags': seq<bool>, m: nat) {
    && |flags'| == |flags| + m
    && (forall x | 0 <= x < |flags| :: flags'[x] == flags[x])
    && (forall x | |flags| <= x < |flags'| :: flags'[x])
  }

  lemma GraftShape(chunks: seq<Chunk>, chunks': seq<Chunk>, c: nat, low: bv8, high: bv8, m: nat)
    requires Sized(chunks) && Grafted(chunks, chunks', c, low, high, m)
    ensures Sized(chunks') && |chunks'| == |chunks| + m && c < |chunks|
    ensures GraftedShape(ShapeOf(chunks), ShapeOf(chunks'), c, low, high, m)
    ensures SharedMore(Flags(chunks), Flags(chunks'), m)
  {
    hide Between;
    forall x | 0 <= x < |chunks'|
      ensures chunks'[x].Sized()
    {
    }
  }

  lemma GraftLayered(s: Shape, s': Shape, height: seq<nat>, c: nat, low: bv8, high: bv8, m: nat)
    requires Layered(s, height) && Exact(s, height) && GraftedShape(s, s', c, low, high, m) && 0 < m < height[c]
    ensures Layered(s', GraftHeight(height, c, m)) && Exact(s', GraftHeight(height, c, m))
  {
    hide Between;
    var h' := GraftHeight(height, c, m);
    forall x, d | 0 <= x < |s'| && Kid(s', x, d) >= 0
      ensures Kid(s', x, d) < |s'| && h'[Kid(s', x, d)] + 1 == h'[x]
    {
      if x < |s| {
        assert h'[x] == height[x];
      }
    }
  }

  /** The paths that lead into the new chain. */
  ghost predicate Zone(q: Digits, low: bv8, high: bv8, r: nat, x: Digits) {
    r == 0 && |x| > |q| && x[..|q|] == q && Between(low, x[|q|], high)
  }

  ghost function ChainWalk(base: nat, q: Digits, m: nat, x: Digits): Option<nat>
    requires |x| > |q|
  {
    if |x| <= |q| + m then Some(base + |x| - |q| - 1) else None
  }

  lemma {:induction false} GraftWalk(s: Shape, s': Shape, roots: set<nat>, c: nat, q: Digits, low: bv8, high: bv8,
                                     m: nat,
                                     height: seq<nat>, r: nat, x: Digits)
    requires GraftedShape(s, s', c, low, high, m) && m > 0 && r in roots && Layered(s, height) && |height| == |s|
             && Rooted(height, roots)
    requires Walk(s, 0, q) == Some(c) && 0 in roots
    requires forall r', x' | r' in roots && Walk(s, r', x') == Some(c) :: r' == 0 && x' == q
    ensures Walk(s', r, x) == if Zone(q, low, high, r, x) then ChainWalk(|s|, q, m, x) else Walk(s, r, x)
    decreases |x|
  {
    hide Between, Layered;
    if x != [] {
      var x', d := x[..|x| - 1], x[|x| - 1];
      GraftWalk(s, s', roots, c, q, low, high, m, height, r, x');
      ZoneStep(q, low, high, r, x);
      if Walk(s, r, x').Some? {
        WalkHeight(s, height, r, x');
      }
    }
  }

  /** Only the paths in the zone change: they now lead along the chain. */
  ghost predicate GraftedWalks(s: Shape, s': Shape, roots: set<nat>, q: Digits, low: bv8, high: bv8, m: nat) {
    forall r, x | r in roots ::
      Walk(s', r, x) == if Zone(q, low, high, r, x) then ChainWalk(|s|, q, m, x) else Walk(s, r, x)
  }

  lemma GraftAllWalks(s: Shape, s': Shape, roots: set<nat>, c: nat, q: Digits, low: bv8, high: bv8, m: nat,
                      height: seq<nat>)
    requires GraftedShape(s, s', c, low, high, m) && m > 0 && Layered(s, height) && |height| == |s|
             && Rooted(height, roots)
    requires Walk(s, 0, q) == Some(c) && 0 in roots
    requires forall r', x' | r' in roots && Walk(s, r', x') == Some(c) :: r' == 0 && x' == q
    ensures GraftedWalks(s, s', roots, q, low, high, m)
  {
    hide Walk, GraftedShape, Layered, Between;
    forall r, x | r in roots
      ensures Walk(s', r, x) == if Zone(q, low, high, r, x) then ChainWalk(|s|, q, m, x) else Walk(s, r, x)
    {
      GraftWalk(s, s', roots, c, q, low, high, m, height, r, x);
    }
  }

  lemma ZoneStep(q: Digits, low: bv8, high: bv8, r: nat, x: Digits)
    requires x != []
    ensures var x', d := x[..|x| - 1], x[|x| - 1];
            Zone(q, low, high, r, x) <==> Zone(q, low, high, r, x') || (r == 0 && x' == q && Between(low, d, high))
  {
    hide Between;
    var x' := x[..|x| - 1];
    if |x'| > |q| {
      assert x'[..|q|] == x[..|q|] && x'[|q|] == x[|q|];
    }
  }

  // ----- what the paths of the tree look like -----------------------------------------------

  /** Path x leads through the gap of a region, after its first byte that is not full. */
  ghost predicate SharedBy(warps: seq<Warp>, x: Digits) {
    exists j :: 0 <= j < |warps| && 0 < |x| <= warps[j].level && |x| <= |warps[j].region.mask|
                && Covers(warps[j].region, x) && warps[j].region.mask[|x| - 1] != 0xFF
  }

  /** Path x leads along the full bytes of the network. */
  ghost predicate Along(n: Net, x: Digits) {
    0 < |x| <= |n.mask| && Covers(n, x) && n.mask[|x| - 1] == 0xFF
  }

  ghost predicate PrivateBy(warps: seq<Warp>, seen: iset<Net>, x: Digits) {
    (exists j :: 0 <= j < |warps| && |x| <= warps[j].level && Along(warps[j].region, x))
    || (exists n :: n in seen && Along(n, x))
  }

  /** Why a path leads to a chunk, and why that chunk is shared or not. */
  ghost predicate Reasons(s: Shape, flags: seq<bool>, roots: set<nat>, warps: seq<Warp>, seen: iset<Net>) {
    && (forall r | r in roots :: r < |flags| && !flags[r])
    && (forall r, x | r in roots && Walk(s, r, x).Some? && x != [] :: r == 0)
    && (forall x | x != [] && Walk(s, 0, x).Some? ::
          && Walk(s, 0, x).value < |flags|
          && if flags[Walk(s, 0, x).value] then SharedBy(warps, x) else PrivateBy(warps, seen, x))
  }

  ghost predicate GapsFilled(s: Shape, warps: seq<Warp>) {
    forall x | InGap(warps, x) :: Walk(s, 0, x).Some?
  }

  ghost predicate Blank(chunks: seq<Chunk>) {
    Sized(chunks) && forall c, d: bv8 | 0 <= c < |chunks| && chunks[c].At(d).Group? :: chunks[c].At(d).id == 0
  }

  /** The state between the steps of `prepare`. */
  ghost predicate Staged(chunks: seq<Chunk>, height: seq<nat>, roots: set<nat>, nets: iset<(nat, Net)>,
                         warps: seq<Warp>, seen: iset<Net>) {
    && WellFormed(chunks, height) && Rooted(height, roots) && 0 in roots && Exact(ShapeOf(chunks), height)
       && Blank(chunks)
    && Aligned(ShapeOf(chunks), Flags(chunks), roots, nets)
       && Reasons(ShapeOf(chunks), Flags(chunks), roots, warps, seen)
  }

  // ----- a step into a private chunk --------------------------------------------------------

  /** The private chunk of a path along the full bytes of a network or region. */
  lemma NewPathReasons(s: Shape, s': Shape, flags: seq<bool>, flags': seq<bool>, roots: set<nat>, warps: seq<Warp>,
                       seen: iset<Net>, q: Digits)
    requires Reasons(s, flags, roots, warps, seen) && |s| == |flags| && flags' == flags + [false] && 0 in roots
    requires NewPath(s, s', roots, 0, q) && q != [] && PrivateBy(warps, seen, q)
    ensures Reasons(s', flags', roots, warps, seen)
    ensures GapsFilled(s, warps) ==> GapsFilled(s', warps)
  {
    hide InGap, SharedBy, PrivateBy, Walk;
  }

  lemma HangBlank(chunks: seq<Chunk>, c: nat, d: bv8)
    requires Blank(chunks) && c < |chunks| && (chunks[c].At(d).Link? ==> chunks[c].At(d).chunk < |chunks|)
    ensures Blank(Hang(chunks, c, d))
  {
    var chunks' := Hang(chunks, c, d);
    forall x, e: bv8 | 0 <= x < |chunks'| && chunks'[x].At(e).Group?
      ensures chunks'[x].At(e).id == 0
    {
      if x == |chunks| && chunks[c].At(d).Link? {
        assert chunks'[x].At(e) == chunks[chunks[c].At(d).chunk].At(e);
      }
    }
  }

  // ----- the graft keeps the alignment ------------------------------------------------------

  /** The network is exactly the zone, for paths longer than q. */
  ghost predicate Cuts(n: Net, q: Digits, low: bv8, high: bv8) {
    && |n.mask| > |q| && Level(n.mask) <= |q|
    && (|q| > 0 ==> n.mask[|q| - 1] == 0xFF)
    && (forall x: Digits | |x| > |q| :: Covers(n, x) <==> Zone(q, low, high, 0, x))
    && (forall x: Digits | |x| == |q| :: Covers(n, x) <==> x == q)
  }

  /** The networks look at the bytes of the zone in the same way for all paths in the zone. */
  ghost predicate Uniform(nets: iset<(nat, Net)>, n: Net, k: nat) {
    forall m, x: Digits, y: Digits | (0, m) in nets && |m.mask| > 0 && Level(m.mask) < |x| == |y| && |x| > k
    && Covers(n, x) && Covers(n, y) ::
      Covers(m, x) <==> Covers(m, y)
  }

  lemma GraftAligned(s: Shape, s': Shape, flags: seq<bool>, flags': seq<bool>, roots: set<nat>, nets: iset<(nat, Net)>,
                     c: nat, q: Digits, low: bv8, high: bv8, m: nat, n: Net)
    requires Aligned(s, flags, roots, nets) && |s| == |flags| && SharedMore(flags, flags', m) && 0 in roots
    requires GraftedWalks(s, s', roots, q, low, high, m)
    requires Walk(s, 0, q) == Some(c) && c < |s| && !flags[c]
    requires Cuts(n, q, low, high) && Uniform(nets, n, |q|)
    ensures Aligned(s', flags', roots, nets + iset{(0, n)})
  {
    hide Walk, Level, Twins, Aligned;
    forall r1, x1, r2, x2 | r1 in roots && r2 in roots && Walk(s', r1, x1).Some? && Walk(s', r1, x1) == Walk(s', r2, x2)
      ensures Walk(s', r1, x1).value < |flags'|
      ensures Twins(flags'[Walk(s', r1, x1).value], nets + iset{(0, n)}, r1, x1, r2, x2)
    {
      GraftPair(s, s', flags, flags', roots, nets, c, q, low, high, m, n, r1, x1, r2, x2);
    }
    AlignedFrom(s', flags', roots, nets + iset{(0, n)});
  }

  lemma AlignedFrom(s: Shape, flags: seq<bool>, roots: set<nat>, nets: iset<(nat, Net)>)
    requires forall r1, x1, r2, x2 | r1 in roots && r2 in roots && Walk(s, r1, x1).Some?
             && Walk(s, r1, x1) == Walk(s, r2, x2) ::
               && Walk(s, r1, x1).value < |flags| && Twins(flags[Walk(s, r1, x1).value], nets, r1, x1, r2, x2)
    ensures Aligned(s, flags, roots, nets)
  {
    hide Walk, Twins;
  }

  lemma GraftPair(s: Shape, s': Shape, flags: seq<bool>, flags': seq<bool>, roots: set<nat>, nets: iset<(nat, Net)>,
                  c: nat, q: Digits, low: bv8, high: bv8, m: nat, n: Net, r1: nat, x1: Digits, r2: nat, x2: Digits)
    requires Aligned(s, flags, roots, nets) && |s| == |flags| && SharedMore(flags, flags', m) && 0 in roots
    requires GraftedWalks(s, s', roots, q, low, high, m)
    requires Walk(s, 0, q) == Some(c) && c < |s| && !flags[c]
    requires Cuts(n, q, low, high) && Uniform(nets, n, |q|)
    requires r1 in roots && r2 in roots && Walk(s', r1, x1).Some? && Walk(s', r1, x1) == Walk(s', r2, x2)
    ensures Walk(s', r1, x1).value < |flags'|
    ensures Twins(flags'[Walk(s', r1, x1).value], nets + iset{(0, n)}, r1, x1, r2, x2)
  {
    hide Walk, Aligned, Zone, Cuts, Uniform, Twins;
    var z1, z2 := Zone(q, low, high, r1, x1), Zone(q, low, high, r2, x2);
    if z1 {
      ChainValue(|s|, q, low, high, m, r1, x1);
    } else {
      AlignedValue(s, flags, roots, nets, r1, x1);
    }
    if z2 {
      ChainValue(|s|, q, low, high, m, r2, x2);
    } else {
      AlignedValue(s, flags, roots, nets, r2, x2);
    }
    if z1 {
      assert z2 && |x1| == |x2|;
      assert flags'[Walk(s', r1, x1).value];
      ZoneTwins(nets, q, low, high, n, r1, x1, r2, x2);
    } else {
      assert !z2 && flags'[Walk(s', r1, x1).value] == flags[Walk(s, r1, x1).value];
      AlignedTwins(s, flags, roots, nets, r1, x1, r2, x2);
      GraftTwins(s, flags, roots, nets, c, q, low, high, n, r1, x1, r2, x2);
    }
  }

  lemma ChainValue(base: nat, q: Digits, low: bv8, high: bv8, m: nat, r: nat, x: Digits)
    requires Zone(q, low, high, r, x)
    ensures |x| > |q|
    ensures ChainWalk(base, q, m, x).Some? ==> base <= ChainWalk(base, q, m, x).value == base + |x| - |q| - 1 < base + m
  {
  }

  /** Two paths of one length in the zone. */
  lemma ZoneTwins(nets: iset<(nat, Net)>, q: Digits, low: bv8, high: bv8, n: Net, r1: nat, x1: Digits, r2: nat,
                  x2: Digits)
    requires Cuts(n, q, low, high) && Uniform(nets, n, |q|)
    requires Zone(q, low, high, r1, x1) && Zone(q, low, high, r2, x2) && |x1| == |x2|
    ensures Twins(true, nets + iset{(0, n)}, r1, x1, r2, x2)
  {
    hide Between, Covers, Level;
    assert Covers(n, x1) && Covers(n, x2);
  }

  lemma AlignedValue(s: Shape, flags: seq<bool>, roots: set<nat>, nets: iset<(nat, Net)>, r: nat, x: Digits)
    requires Aligned(s, flags, roots, nets) && r in roots && Walk(s, r, x).Some?
    ensures Walk(s, r, x).value < |flags|
  {
  }

  /** Two paths outside the zone to one chunk: the network does not tell them apart. */
  lemma GraftTwins(s: Shape, flags: seq<bool>, roots: set<nat>, nets: iset<(nat, Net)>, c: nat, q: Digits, low: bv8,
                   high: bv8, n: Net,
                   r1: nat, x1: Digits, r2: nat, x2: Digits)
    requires Aligned(s, flags, roots, nets) && 0 in roots && Walk(s, 0, q) == Some(c) && c < |flags| && !flags[c]
    requires r1 in roots && r2 in roots && Walk(s, r1, x1).Some? && Walk(s, r1, x1) == Walk(s, r2, x2)
    requires Walk(s, r1, x1).value < |flags|
    requires Twins(flags[Walk(s, r1, x1).value], nets, r1, x1, r2, x2)
    requires Cuts(n, q, low, high) && !Zone(q, low, high, r1, x1) && !Zone(q, low, high, r2, x2)
    ensures Twins(flags[Walk(s, r1, x1).value], nets + iset{(0, n)}, r1, x1, r2, x2)
  {
    hide Walk, Level, Aligned;
    if r1 == 0 && Level(n.mask) < |x1| && |x1| <= |q| {
      LevelAbove(n.mask, |q| - 1);
      if x1 == q {
        AlignedTwins(s, flags, roots, nets, 0, x1, 0, x2);
      }
      if x2 == q {
        AlignedTwins(s, flags, roots, nets, 0, x2, 0, x1);
      }
    }
  }

  lemma {:induction false} LevelAbove(mask: Bytes, i: nat)
    requires i < |mask| && mask[i] != 0
    ensures i <= Level(mask)
    decreases i
  {
    if i > 0 {
      assert mask[1..][i - 1] != 0;
      LevelAbove(mask[1..], i - 1);
    }
  }

  // ----- networks that are disjoint or nested -----------------------------------------------

  ghost predicate Comparable(nets: iset<(nat, Net)>, n: Net) {
    forall m | (0, m) in nets :: Disjoint(n, m) || Inside(n, m)
  }


  /** A path that satisfies a network up to its last byte satisfies it with any continuation. */
  lemma CoversOn(n: Net, x: Digits, t: Digits)
    requires ZeroFrom(n.mask, |x|)
    ensures Covers(n, x + t) <==> Covers(n, x)
  {
    hide Agree;
    forall i | |x| <= i < |x + t| && i < |n.mask| && i < |n.addr|
      ensures Agree((x + t)[i], n.mask[i], n.addr[i])
    {
      AgreeEnds((x + t)[i], n.addr[i]);
    }
    assert forall i | 0 <= i < |x| :: (x + t)[i] == x[i];
  }

  lemma CoversLess(n: Net, x: Digits, t: Digits)
    requires Covers(n, x + t)
    ensures Covers(n, x)
  {
    hide Agree;
    assert forall i | 0 <= i < |x| :: (x + t)[i] == x[i];
  }

  /** A path that satisfies a network so far is satisfied by continuing with the network itself. */
  lemma CoversOwn(n: Net, x: Digits)
    requires Covers(n, x) && |x| <= |n.addr|
    ensures Covers(n, x + n.addr[|x|..])
  {
    hide Agree;
    var y := x + n.addr[|x|..];
    forall i | 0 <= i < |y| && i < |n.mask| && i < |n.addr|
      ensures Agree(y[i], n.mask[i], n.addr[i])
    {
      if i < |x| {
        assert y[i] == x[i];
      } else {
        assert y[i] == n.addr[i];
        AgreeSelf(y[i], n.mask[i]);
      }
    }
  }

  lemma LevelZero(mask: Bytes, k: nat)
    requires |mask| > 0 && Level(mask) < k
    ensures ZeroFrom(mask, k)
  {
  }

  lemma ComparableUniform(nets: iset<(nat, Net)>, n: Net, k: nat)
    requires Comparable(nets, n) && ZeroFrom(n.mask, k + 1)
    ensures Uniform(nets, n, k)
  {
    hide Comparable, Covers, Level, ZeroFrom;
    forall m, x: Digits | (0, m) in nets && |m.mask| > 0 && Level(m.mask) < |x| && |x| > k && Covers(n, x)
      ensures Covers(m, x) <==> Inside(n, m)
    {
      ComparableAt(nets, n, k, m, x);
    }
  }

  lemma ComparableAt(nets: iset<(nat, Net)>, n: Net, k: nat, m: Net, x: Digits)
    requires Comparable(nets, n) && ZeroFrom(n.mask, k + 1)
    requires (0, m) in nets && |m.mask| > 0 && Level(m.mask) < |x| && |x| > k && Covers(n, x)
    ensures Covers(m, x) <==> Inside(n, m)
  {
    var t: Digits := seq(|n.mask| + |m.mask|, _ => 0);
    LevelZero(m.mask, |x|);
    CoversOn(n, x, t);
    CoversOn(m, x, t);
    hide Covers, ZeroFrom, Level;
    assert Disjoint(n, m) || Inside(n, m);
    assert |x + t| >= |n.mask| && |x + t| >= |m.mask|;
  }

  /** A network that meets the zone of n and is not disjoint from n lies around n. */
  lemma MeetsInside(n: Net, m: Net, x: Digits)
    requires Disjoint(n, m) || Inside(n, m)
    requires |n.mask| == |m.mask| == |m.addr| >= |x| && ZeroFrom(n.mask, |x|)
    requires Covers(n, x) && Covers(m, x)
    ensures Inside(n, m)
  {
    var y := x + m.addr[|x|..];
    CoversOwn(m, x);
    CoversOn(n, x, m.addr[|x|..]);
  }

  /** No network that is disjoint from n or around it leads along full bytes into the zone of n. */
  lemma NotAlong(n: Net, m: Net, q: Digits, d: bv8)
    requires Disjoint(n, m) || Inside(n, m)
    requires |n.mask| == |n.addr| == |m.mask| == |m.addr| > |q|
    requires ZeroFrom(n.mask, |q| + 1) && n.mask[|q|] != 0xFF && Covers(n, q + [d])
    ensures !Along(m, q + [d])
  {
    hide Covers, Disjoint, Inside, ZeroFrom;
    if Along(m, q + [d]) {
      MeetsInside(n, m, q + [d]);
      var e := OtherDigit(d, n.mask[|q|]);
      CoversDigit(n, q, d, e);
      InsidePath(n, m, q + [e]);
      FullDigit(m, q, d);
      FullDigit(m, q, e);
      assert false;
    }
  }

  lemma InsidePath(n: Net, m: Net, x: Digits)
    requires Inside(n, m) && ZeroFrom(n.mask, |x|) && Covers(n, x)
    ensures Covers(m, x)
  {
    var t: Digits := seq(|n.mask| + |m.mask|, _ => 0);
    CoversOn(n, x, t);
    assert Covers(m, x + t);
    CoversLess(m, x, t);
  }

  lemma FullDigit(m: Net, q: Digits, d: bv8)
    requires |m.mask| == |m.addr| > |q| && m.mask[|q|] == 0xFF && Covers(m, q + [d])
    ensures d == m.addr[|q|]
  {
    assert Agree((q + [d])[|q|], m.mask[|q|], m.addr[|q|]);
    AgreeEnds(d, m.addr[|q|]);
  }

  lemma OtherDigit(d: bv8, mask: bv8) returns (e: bv8)
    requires mask != 0xFF
    ensures e != d && Agree(e, mask, d)
  {
    e := d ^ !mask;
  }

  lemma CoversDigit(n: Net, q: Digits, d: bv8, e: bv8)
    requires |n.mask| == |n.addr| > |q| && Covers(n, q + [d]) && Agree(e, n.mask[|q|], d)
    ensures Covers(n, q + [e])
  {
    var x, y := q + [d], q + [e];
    forall i | 0 <= i < |y| && i < |n.mask|
      ensures Agree(y[i], n.mask[i], n.addr[i])
    {
      assert Agree(x[i], n.mask[i], n.addr[i]);
      if i < |q| {
        assert y[i] == x[i];
      }
    }
  }

  // ----- the graft keeps the rest -----------------------------------------------------------

  lemma ReasonsMore(s: Shape, flags: seq<bool>, roots: set<nat>, warps: seq<Warp>, warps': seq<Warp>, seen: iset<Net>,
                    seen': iset<Net>)
    requires Reasons(s, flags, roots, warps, seen) && warps <= warps'
    requires forall x | PrivateBy(warps, seen, x) :: PrivateBy(warps', seen', x)
    ensures Reasons(s, flags, roots, warps', seen')
  {
    hide Walk, PrivateBy;
    forall x | SharedBy(warps, x)
      ensures SharedBy(warps', x)
    {
      var j :| 0 <= j < |warps| && 0 < |x| <= warps[j].level && |x| <= |warps[j].region.mask|
               && Covers(warps[j].region, x) && warps[j].region.mask[|x| - 1] != 0xFF;
      assert warps'[j] == warps[j];
    }
  }

  lemma GraftReasons(s: Shape, s': Shape, flags: seq<bool>, flags': seq<bool>, roots: set<nat>, warps: seq<Warp>,
                     seen: iset<Net>,
                     q: Digits, low: bv8, high: bv8, m: nat)
    requires Reasons(s, flags, roots, warps, seen) && |s| == |flags| && SharedMore(flags, flags', m) && 0 in roots
    requires GraftedWalks(s, s', roots, q, low, high, m)
    requires forall x | Zone(q, low, high, 0, x) && |x| <= |q| + m :: SharedBy(warps, x)
    ensures Reasons(s', flags', roots, warps, seen)
  {
    hide Walk, SharedBy, PrivateBy, Between;
  }

  /** What the graft does to a gap: it stays filled, and the zone is filled down to the end of the chain. */
  lemma GraftFilled(s: Shape, s': Shape, roots: set<nat>, warps: seq<Warp>, q: Digits, low: bv8, high: bv8, m: nat)
    requires 0 in roots
    requires GraftedWalks(s, s', roots, q, low, high, m)
    requires forall x | InGap(warps, x) :: if Zone(q, low, high, 0, x) then |x| <= |q| + m else Walk(s, 0, x).Some?
    ensures GapsFilled(s', warps)
  {
    hide Walk, InGap, Between;
  }

  lemma GraftBlank(chunks: seq<Chunk>, chunks': seq<Chunk>, c: nat, low: bv8, high: bv8, m: nat)
    requires Blank(chunks) && Grafted(chunks, chunks', c, low, high, m)
    ensures Blank(chunks')
  {
    hide Between;
  }

  /** Leading the zone of a network into a chain of shared chunks. */
  lemma StageGraft(chunks: seq<Chunk>, height: seq<nat>, roots: set<nat>, nets: iset<(nat, Net)>, warps: seq<Warp>,
                   seen: iset<Net>,
                   chunks': seq<Chunk>, c: nat, q: Digits, low: bv8, high: bv8, m: nat, n: Net)
    requires Staged(chunks, height, roots, nets, warps, seen) && Grafted(chunks, chunks', c, low, high, m)
    requires Walk(ShapeOf(chunks), 0, q) == Some(c) && !chunks[c].multirefs && 0 < m < height[c]
    requires Cuts(n, q, low, high) && Uniform(nets, n, |q|)
    requires forall x | Zone(q, low, high, 0, x) && |x| <= |q| + m :: SharedBy(warps, x)
    ensures Staged(chunks', GraftHeight(height, c, m), roots, nets + iset{(0, n)}, warps, seen) && Sized(chunks')
    ensures GraftedWalks(ShapeOf(chunks), ShapeOf(chunks'), roots, q, low, high, m)
  {
    hide *;
    StageParts(chunks, height, roots, nets, warps, seen);
    GraftShape(chunks, chunks', c, low, high, m);
    var s, s', flags, flags', h' := ShapeOf(chunks), ShapeOf(chunks'), Flags(chunks), Flags(chunks'),
        GraftHeight(height, c, m);
    PrivatePath(s, flags, roots, nets, c, q);
    GraftLayered(s, s', height, c, low, high, m);
    GraftBlank(chunks, chunks', c, low, high, m);
    GraftAllWalks(s, s', roots, c, q, low, high, m, height);
    GraftAligned(s, s', flags, flags', roots, nets, c, q, low, high, m, n);
    GraftReasons(s, s', flags, flags', roots, warps, seen, q, low, high, m);
    GraftRooted(height, roots, c, m);
    StageFrom(chunks', h', roots, nets + iset{(0, n)}, warps, seen);
  }

  lemma GraftRooted(height: seq<nat>, roots: set<nat>, c: nat, m: nat)
    requires Rooted(height, roots) && c < |height| && m < height[c]
    ensures Rooted(GraftHeight(height, c, m), roots) && |GraftHeight(height, c, m)| == |height| + m
    ensures Extends(height, GraftHeight(height, c, m))
  {
  }

  lemma StageParts(chunks: seq<Chunk>, height: seq<nat>, roots: set<nat>, nets: iset<(nat, Net)>, warps: seq<Warp>,
                   seen: iset<Net>)
    requires Staged(chunks, height, roots, nets, warps, seen)
    ensures WellFormed(chunks, height) && Rooted(height, roots) && 0 in roots && Exact(ShapeOf(chunks), height)
            && Blank(chunks)
    ensures Aligned(ShapeOf(chunks), Flags(chunks), roots, nets)
            && Reasons(ShapeOf(chunks), Flags(chunks), roots, warps, seen)
    ensures Sized(chunks) && Layered(ShapeOf(chunks), height) && |chunks| == |height| == |Flags(chunks)| && |chunks| > 0
    ensures forall x | 0 <= x < |chunks| :: Flags(chunks)[x] == chunks[x].multirefs
  {
    hide Layered, Exact, Blank, Aligned, Reasons;
  }

  lemma StageFrom(chunks: seq<Chunk>, height: seq<nat>, roots: set<nat>, nets: iset<(nat, Net)>, warps: seq<Warp>,
                  seen: iset<Net>)
    requires Sized(chunks) && Layered(ShapeOf(chunks), height) && |chunks| == |height|
    requires Rooted(height, roots) && 0 in roots && Exact(ShapeOf(chunks), height) && Blank(chunks)
    requires Aligned(ShapeOf(chunks), Flags(chunks), roots, nets)
             && Reasons(ShapeOf(chunks), Flags(chunks), roots, warps, seen)
    ensures Staged(chunks, height, roots, nets, warps, seen)
  {
    hide Layered, Exact, Blank, Aligned, Reasons;
  }

  lemma PrivatePath(s: Shape, flags: seq<bool>, roots: set<nat>, nets: iset<(nat, Net)>, c: nat, q: Digits)
    requires Aligned(s, flags, roots, nets) && 0 in roots && Walk(s, 0, q) == Some(c) && c < |flags| && !flags[c]
    ensures forall r', x' | r' in roots && Walk(s, r', x') == Some(c) :: r' == 0 && x' == q
  {
    forall r', x' | r' in roots && Walk(s, r', x') == Some(c)
      ensures r' == 0 && x' == q
    {
      AlignedTwins(s, flags, roots, nets, r', x', 0, q);
    }
  }

  /** Giving a slot of a private chunk a private chunk of its own. */
  lemma StageHang(chunks: seq<Chunk>, height: seq<nat>, roots: set<nat>, nets: iset<(nat, Net)>, warps: seq<Warp>,
                  seen: iset<Net>,
                  c: nat, q: Digits, d: bv8)
    requires Staged(chunks, height, roots, nets, warps, seen)
    requires c < |chunks| && c < |height| && Walk(ShapeOf(chunks), 0, q) == Some(c) && !chunks[c].multirefs
             && height[c] >= 2
    requires PrivateBy(warps, seen, q + [d])
    ensures chunks[c].At(d).Link? ==> chunks[c].At(d).chunk < |chunks|
    ensures var chunks', h' := Hang(chunks, c, d), HangHeight(height, c);
            && Staged(chunks', h', roots, nets, warps, seen)
            && Walk(ShapeOf(chunks'), 0, q + [d]) == Some(|chunks|) && !chunks'[|chunks|].multirefs
            && NewPath(ShapeOf(chunks), ShapeOf(chunks'), roots, 0, q + [d])
            && (GapsFilled(ShapeOf(chunks), warps) ==> GapsFilled(ShapeOf(chunks'), warps))
            && |chunks'| == |chunks| + 1 == |h'| && h'[|chunks|] == height[c] - 1 && Extends(height, h')
  {
    hide *;
    StageParts(chunks, height, roots, nets, warps, seen);
    HangKeeps(chunks, height, roots, nets, c, d, 0, q);
    HangBlank(chunks, c, d);
    var chunks', h' := Hang(chunks, c, d), HangHeight(height, c);
    HangSizes(chunks, height, c, d);
    NewPathReasons(ShapeOf(chunks), ShapeOf(chunks'), Flags(chunks), Flags(chunks'), roots, warps, seen, q + [d]);
    StageFrom(chunks', h', roots, nets, warps, seen);
  }

  lemma HangSizes(chunks: seq<Chunk>, height: seq<nat>, c: nat, d: bv8)
    requires Sized(chunks) && c < |chunks| == |height| && height[c] >= 2
    requires chunks[c].At(d).Link? ==> chunks[c].At(d).chunk < |chunks|
    requires WellFormed(Hang(chunks, c, d), HangHeight(height, c))
    ensures |Hang(chunks, c, d)| == |HangHeight(height, c)| == |chunks| + 1 && !Hang(chunks, c, d)[|chunks|].multirefs
    ensures Layered(ShapeOf(Hang(chunks, c, d)), HangHeight(height, c))
    ensures HangHeight(height, c)[|chunks|] == height[c] - 1 && Extends(height, HangHeight(height, c))
  {
  }

  // ----- the first phase: the region of a gapped prefix -------------------------------------

  /** The sizes and the form of a region: leading ones, then zeros from byte `level` on at the latest. */
  ghost predicate IsRegion(n: Net, level: nat, h: nat) {
    && 0 < level < h == |n.addr| == |n.mask| && n.mask[level - 1] != 0xFF
    && (forall t | 0 <= t < h :: Leading(n.mask[t]))
    && (forall t | 0 <= t < h && n.mask[t] != 0xFF :: ZeroFrom(n.mask, t + 1))
  }

  ghost predicate Regions(warps: seq<Warp>, h: nat) {
    forall j | 0 <= j < |warps| :: IsRegion(warps[j].region, warps[j].level, h)
  }

  ghost predicate ApartFrom(warps: seq<Warp>, n: Net) {
    forall j | 0 <= j < |warps| :: Disjoint(n, warps[j].region)
  }

  /** A region that leads to a path in another region meets it. */
  lemma RegionsMeet(n: Net, m: Net, h: nat, x: Digits)
    requires |n.addr| == |n.mask| == |m.addr| == |m.mask| == h >= |x|
    requires Covers(n, x) && Covers(m, x) && (ZeroFrom(n.mask, |x|) || ZeroFrom(m.mask, |x|))
    ensures !Disjoint(n, m)
  {
    hide Covers;
    if ZeroFrom(n.mask, |x|) {
      var t := m.addr[|x|..];
      CoversOwn(m, x);
      CoversOn(n, x, t);
      assert |x + t| == h;
    } else {
      var t := n.addr[|x|..];
      CoversOwn(n, x);
      CoversOn(m, x, t);
      assert |x + t| == h;
    }
  }

  /** Before the region is prepared nothing lies in its zone. */
  lemma ZoneEmpty(s: Shape, flags: seq<bool>, roots: set<nat>, warps: seq<Warp>, n: Net, level: nat, h: nat, x: Digits)
    requires Reasons(s, flags, roots, warps, iset{n}) && Regions(warps, h) && IsRegion(n, level, h)
             && ApartFrom(warps, n)
    requires 0 < |x| <= h && Covers(n, x) && n.mask[|x| - 1] != 0xFF
    ensures Walk(s, 0, x).None?
  {
    hide Walk, Covers, Disjoint;
    if Walk(s, 0, x).Some? {
      if SharedBy(warps, x) {
        var j :| 0 <= j < |warps| && 0 < |x| <= warps[j].level && |x| <= |warps[j].region.mask|
                 && Covers(warps[j].region, x) && warps[j].region.mask[|x| - 1] != 0xFF;
        RegionsMeet(n, warps[j].region, h, x);
      } else if j :| 0 <= j < |warps| && |x| <= warps[j].level && Along(warps[j].region, x) {
        RegionsMeet(n, warps[j].region, h, x);
      }
      assert false;
    }
  }

  /** A chunk on the full bytes of the region is not shared. */
  lemma PathPrivate(s: Shape, flags: seq<bool>, roots: set<nat>, warps: seq<Warp>, n: Net, level: nat, h: nat,
                    x: Digits)
    requires Reasons(s, flags, roots, warps, iset{n}) && Regions(warps, h) && IsRegion(n, level, h)
             && ApartFrom(warps, n)
    requires 0 < |x| <= h && Along(n, x) && Walk(s, 0, x).Some?
    ensures Walk(s, 0, x).value < |flags| && !flags[Walk(s, 0, x).value]
  {
    hide Walk, Covers, Disjoint;
    if SharedBy(warps, x) {
      var j :| 0 <= j < |warps| && 0 < |x| <= warps[j].level && |x| <= |warps[j].region.mask|
               && Covers(warps[j].region, x) && warps[j].region.mask[|x| - 1] != 0xFF;
      RegionsMeet(n, warps[j].region, h, x);
      assert false;
    }
  }

  /** Path q leads along the full bytes of the network. */
  ghost predicate FullTo(n: Net, q: Digits) {
    |n.addr| == |n.mask| > |q| && q == n.addr[..|q|] && forall t | 0 <= t < |q| :: n.mask[t] == 0xFF
  }

  lemma FullCovers(n: Net, q: Digits, x: Digits)
    requires FullTo(n, q)
    ensures |x| <= |q| ==> (Covers(n, x) <==> x == q[..|x|])
    ensures |x| >= |q| && Covers(n, x) ==> x[..|q|] == q
  {
    hide Agree;
    forall t | 0 <= t < |q| && t < |x|
      ensures Agree(x[t], n.mask[t], n.addr[t]) <==> x[t] == q[t]
    {
      AgreeEnds(x[t], n.addr[t]);
    }
  }

  lemma NetCuts(n: Net, q: Digits)
    requires FullTo(n, q) && ZeroFrom(n.mask, |q| + 1) && Leading(n.mask[|q|])
    ensures Cuts(n, q, Low(n.addr[|q|], n.mask[|q|]), High(n.addr[|q|], n.mask[|q|]))
  {
    hide Leading, Agree, Low, High, Between, Level;
    var low, high := Low(n.addr[|q|], n.mask[|q|]), High(n.addr[|q|], n.mask[|q|]);
    LevelBelow(n.mask, |q| + 1);
    forall x: Digits | |x| > |q|
      ensures Covers(n, x) <==> Zone(q, low, high, 0, x)
    {
      AgreeInterval(x[|q|], n.mask[|q|], n.addr[|q|]);
      FullCovers(n, q, x);
      if Zone(q, low, high, 0, x) {
        FullCovers(n, q, q);
        ZoneCovers(n, q, x);
      }
    }
    forall x: Digits | |x| == |q|
      ensures Covers(n, x) <==> x == q
    {
      FullCovers(n, q, x);
      assert q[..|q|] == q;
    }
  }

  lemma ZoneCovers(n: Net, q: Digits, x: Digits)
    requires FullTo(n, q) && ZeroFrom(n.mask, |q| + 1)
    requires |x| > |q| && x[..|q|] == q && Agree(x[|q|], n.mask[|q|], n.addr[|q|])
    ensures Covers(n, x)
  {
    hide Agree;
    forall t | 0 <= t < |x| && t < |n.mask|
      ensures Agree(x[t], n.mask[t], n.addr[t])
    {
      AgreeEnds(x[t], n.addr[t]);
      if t < |q| {
        assert x[t] == x[..|q|][t];
      }
    }
  }

  lemma {:induction false} WalkPrefix(s: Shape, c: nat, p: Digits, k: nat)
    requires Walk(s, c, p).Some? && k <= |p|
    ensures Walk(s, c, p[..k]).Some?
  {
    assert p == p[..k] + p[k..];
    WalkSplit(s, c, p[..k], p[k..]);
  }

  lemma RegionPath(n: Net, level: nat, h: nat, q: Digits)
    requires IsRegion(n, level, h) && |q| < level && FullTo(n, q)
    ensures level < h == |n.addr| == |n.mask| && Leading(n.mask[|q|])
    ensures n.mask[|q|] != 0xFF ==> ZeroFrom(n.mask, |q| + 1)
  {
    hide Leading, ZeroFrom;
  }

  lemma RegionShared(n: Net, level: nat, h: nat, warps: seq<Warp>, w: Warp, q: Digits, low: bv8, high: bv8, x: Digits)
    requires IsRegion(n, level, h) && Cuts(n, q, low, high) && w.region == n && w.level == level && n.mask[|q|] != 0xFF
    requires Zone(q, low, high, 0, x) && |x| <= level
    ensures SharedBy(warps + [w], x)
  {
    hide Covers, Leading, Between, Level;
    assert Covers(n, x);
    assert (warps + [w])[|warps|] == w;
  }

  /** After the graft the gaps are filled, the new one included. */
  lemma RegionFilled(s: Shape, s': Shape, roots: set<nat>, warps: seq<Warp>, w: Warp, h: nat, q: Digits, low: bv8,
                     high: bv8)
    requires 0 in roots && Regions(warps, h) && IsRegion(w.region, w.level, h) && ApartFrom(warps, w.region)
    requires FullTo(w.region, q) && |q| < w.level && w.region.mask[|q|] != 0xFF && Cuts(w.region, q, low, high)
    requires GapsFilled(s, warps) && Walk(s, 0, q).Some? && GraftedWalks(s, s', roots, q, low, high, w.level - |q|)
    ensures GapsFilled(s', warps + [w])
  {
    hide Walk, GraftedWalks, Covers, Leading, Between, Level, Disjoint;
    forall x | InGap(warps + [w], x)
      ensures if Zone(q, low, high, 0, x) then |x| <= w.level else Walk(s, 0, x).Some?
    {
      var j :| 0 <= j < |warps + [w]| && |x| <= (warps + [w])[j].level && Covers((warps + [w])[j].region, x);
      if j < |warps| {
        assert InGap(warps, x);
        if Zone(q, low, high, 0, x) {
          RegionsMeet(w.region, warps[j].region, h, x);
          assert false;
        }
      } else if |x| <= |q| {
        FullCovers(w.region, q, x);
        WalkPrefix(s, 0, q, |x|);
      }
    }
    GraftFilled(s, s', roots, warps + [w], q, low, high, w.level - |q|);
  }

  lemma RegionReasons(s: Shape, flags: seq<bool>, roots: set<nat>, warps: seq<Warp>, w: Warp, h: nat)
    requires Reasons(s, flags, roots, warps, iset{w.region}) && IsRegion(w.region, w.level, h)
    ensures Reasons(s, flags, roots, warps + [w], iset{})
  {
    hide Covers, Leading, Walk, SharedBy;
    var warps' := warps + [w];
    forall x | PrivateBy(warps, iset{w.region}, x)
      ensures PrivateBy(warps', iset{}, x)
    {
      if j :| 0 <= j < |warps| && |x| <= warps[j].level && Along(warps[j].region, x) {
        assert warps'[j] == warps[j];
      } else {
        assert warps'[|warps|] == w && Along(w.region, x);
        assert |x| <= w.level;
      }
    }
    ReasonsMore(s, flags, roots, warps, warps', iset{w.region}, iset{});
  }

  /** The end of `prepare_gapped_step`: the region is led into a chain of shared chunks. */
  lemma StageRegion(chunks: seq<Chunk>, height: seq<nat>, roots: set<nat>, nets: iset<(nat, Net)>, warps: seq<Warp>,
                    w: Warp,
                    chunks': seq<Chunk>, c: nat, q: Digits, h: nat)
    requires Staged(chunks, height, roots, nets, warps, iset{w.region}) && GapsFilled(ShapeOf(chunks), warps)
    requires Regions(warps, h) && IsRegion(w.region, w.level, h) && ApartFrom(warps, w.region)
             && Comparable(nets, w.region)
    requires FullTo(w.region, q) && |q| < w.level && w.region.mask[|q|] != 0xFF
    requires c < |chunks| && Walk(ShapeOf(chunks), 0, q) == Some(c) && !chunks[c].multirefs && c < |height|
             && height[c] + |q| == h
    requires Grafted(chunks, chunks', c, Low(w.region.addr[|q|], w.region.mask[|q|]),
                     High(w.region.addr[|q|], w.region.mask[|q|]), w.level - |q|)
    ensures Staged(chunks', GraftHeight(height, c, w.level - |q|), roots,
                   nets + iset{(0, w.region)}, warps + [w], iset{})
    ensures Sized(chunks') && GapsFilled(ShapeOf(chunks'), warps + [w])
  {
    hide *;
    var n, m := w.region, w.level - |q|;
    RegionPath(n, w.level, h, q);
    var low, high := Low(n.addr[|q|], n.mask[|q|]), High(n.addr[|q|], n.mask[|q|]);
    NetCuts(n, q);
    ComparableUniform(nets, n, |q|);
    StageParts(chunks, height, roots, nets, warps, iset{n});
    RegionReasons(ShapeOf(chunks), Flags(chunks), roots, warps, w, h);
    StageFrom(chunks, height, roots, nets, warps + [w], iset{});
    forall x | Zone(q, low, high, 0, x) && |x| <= |q| + m
      ensures SharedBy(warps + [w], x)
    {
      RegionShared(n, w.level, h, warps, w, q, low, high, x);
    }
    StageGraft(chunks, height, roots, nets, warps + [w], iset{}, chunks', c, q, low, high, m, n);
    RegionFilled(ShapeOf(chunks), ShapeOf(chunks'), roots, warps, w, h, q, low, high);
  }

  // ----- the second phase: a simple prefix inside a gap -------------------------------------

  /** The networks that have been prepared: all regions, and the simple prefixes seen so far. */
  ghost predicate Knows(nets: iset<(nat, Net)>, warps: seq<Warp>, seen: iset<Net>, h: nat) {
    && (forall j | 0 <= j < |warps| :: (0, warps[j].region) in nets && IsRegion(warps[j].region, warps[j].level, h))
    && (forall m | m in seen :: (0, m) in nets && |m.addr| == |m.mask| == h)
  }

  ghost predicate RegionsApart(warps: seq<Warp>) {
    forall i, j | 0 <= i < |warps| && 0 <= j < |warps| && i != j :: Disjoint(warps[i].region, warps[j].region)
  }

  ghost predicate Simple(n: Net, q: Digits, h: nat) {
    FullTo(n, q) && |n.mask| == h && ZeroFrom(n.mask, |q| + 1) && Leading(n.mask[|q|]) && n.mask[|q|] != 0xFF
  }

  /** In the zone of a simple prefix all chunks are shared: no prefix inside it has been prepared yet. */
  lemma ChildShared(s: Shape, flags: seq<bool>, roots: set<nat>, nets: iset<(nat, Net)>, warps: seq<Warp>,
                    seen: iset<Net>,
                    n: Net, q: Digits, h: nat, d: bv8)
    requires Reasons(s, flags, roots, warps, seen + iset{n}) && Knows(nets, warps, seen, h) && Comparable(nets, n)
    requires Simple(n, q, h) && Covers(n, q + [d]) && Walk(s, 0, q + [d]).Some?
    ensures Walk(s, 0, q + [d]).value < |flags| && flags[Walk(s, 0, q + [d]).value]
  {
    hide Walk, Covers, Disjoint, Inside, Leading, ZeroFrom, IsRegion;
    var x := q + [d];
    if PrivateBy(warps, seen + iset{n}, x) {
      if j :| 0 <= j < |warps| && |x| <= warps[j].level && Along(warps[j].region, x) {
        RegionSizes(warps[j].region, warps[j].level, h);
        NotAlong(n, warps[j].region, q, d);
      } else {
        var m :| m in seen + iset{n} && Along(m, x);
        if m != n {
          NotAlong(n, m, q, d);
        }
      }
      assert false;
    }
  }

  lemma RegionSizes(n: Net, level: nat, h: nat)
    requires IsRegion(n, level, h)
    ensures |n.addr| == |n.mask| == h && 0 < level < h
  {
  }

  lemma ZoneParts(n: Net, q: Digits, h: nat, low: bv8, high: bv8, x: Digits)
    requires Simple(n, q, h) && Cuts(n, q, low, high) && Zone(q, low, high, 0, x)
    ensures |x| > |q| && x[..|q|] == q && Covers(n, x) && |n.addr| == |n.mask| == h > |q| && ZeroFrom(n.mask, |q| + 1)
            && n.mask[|q|] != 0xFF
  {
    hide Covers, Leading, Between;
  }

  lemma SimpleShared(warps: seq<Warp>, i: nat, n: Net, q: Digits, h: nat, low: bv8, high: bv8, x: Digits)
    requires i < |warps| && IsRegion(warps[i].region, warps[i].level, h) && Inside(n, warps[i].region)
    requires Simple(n, q, h) && Cuts(n, q, low, high) && Zone(q, low, high, 0, x) && |x| <= warps[i].level
    ensures SharedBy(warps, x)
  {
    ZoneParts(n, q, h, low, high, x);
    RegionSizes(warps[i].region, warps[i].level, h);
    hide *;
    InsidePath(n, warps[i].region, x);
    NotFullInside(n, warps[i].region, q, h, x);
    RegionRest(warps[i].region, warps[i].level, h, |q|, |x|);
    SharedFrom(warps, i, x);
  }

  lemma SharedFrom(warps: seq<Warp>, i: nat, x: Digits)
    requires i < |warps| && 0 < |x| <= warps[i].level && |x| <= |warps[i].region.mask|
    requires Covers(warps[i].region, x) && warps[i].region.mask[|x| - 1] != 0xFF
    ensures SharedBy(warps, x)
  {
    hide Covers;
  }

  /** A network around a simple prefix does not fix the byte in which the prefix ends. */
  lemma NotFullInside(n: Net, m: Net, q: Digits, h: nat, x: Digits)
    requires Inside(n, m) && |n.addr| == |n.mask| == |m.addr| == |m.mask| == h > |q| && |x| > |q| && x[..|q|] == q
    requires ZeroFrom(n.mask, |q| + 1) && n.mask[|q|] != 0xFF && Covers(n, x) && Covers(m, x)
    ensures m.mask[|q|] != 0xFF
  {
    hide Covers, Inside, Disjoint, ZeroFrom;
    var p := q + [x[|q|]];
    assert x == p + x[|q| + 1..];
    CoversLess(n, p, x[|q| + 1..]);
    CoversLess(m, p, x[|q| + 1..]);
    NotAlong(n, m, q, x[|q|]);
  }

  /** Behind a byte of the mask of a region that is not full no byte is full. */
  lemma RegionRest(m: Net, level: nat, h: nat, k: nat, n: nat)
    requires IsRegion(m, level, h) && k < n <= h && m.mask[k] != 0xFF
    ensures m.mask[n - 1] != 0xFF
  {
    hide Leading;
    assert ZeroFrom(m.mask, k + 1);
  }

  /** A gap that a path in the zone belongs to is the one around the prefix. */
  lemma OneGap(nets: iset<(nat, Net)>, warps: seq<Warp>, seen: iset<Net>, i: nat, j: nat, n: Net, h: nat, x: Digits)
    requires Knows(nets, warps, seen, h) && RegionsApart(warps) && Comparable(nets, n) && i < |warps| && j < |warps|
    requires Inside(n, warps[i].region) && |n.addr| == |n.mask| == h >= |x| && ZeroFrom(n.mask, |x|)
    requires Covers(n, x) && Covers(warps[j].region, x)
    ensures i == j
  {
    hide Covers, ZeroFrom;
    RegionSizes(warps[j].region, warps[j].level, h);
    MeetsInside(n, warps[j].region, x);
    CoversItself(n);
    RegionSizes(warps[i].region, warps[i].level, h);
    assert Covers(warps[i].region, n.addr) && Covers(warps[j].region, n.addr);
  }

  lemma SimpleFilled(s: Shape, s': Shape, roots: set<nat>, nets: iset<(nat, Net)>, warps: seq<Warp>, seen: iset<Net>,
                     i: nat,
                     n: Net, q: Digits, h: nat, low: bv8, high: bv8)
    requires 0 in roots && Knows(nets, warps, seen, h) && RegionsApart(warps) && Comparable(nets, n)
    requires i < |warps| && Inside(n, warps[i].region) && Simple(n, q, h) && |q| < warps[i].level
             && Cuts(n, q, low, high)
    requires GapsFilled(s, warps) && GraftedWalks(s, s', roots, q, low, high, warps[i].level - |q|)
    ensures GapsFilled(s', warps)
  {
    hide Walk, GraftedWalks, Covers, Leading, Between, Disjoint, Inside, Comparable, RegionsApart;
    forall x | InGap(warps, x)
      ensures if Zone(q, low, high, 0, x) then |x| <= warps[i].level else Walk(s, 0, x).Some?
    {
      if Zone(q, low, high, 0, x) {
        var j :| 0 <= j < |warps| && |x| <= warps[j].level && Covers(warps[j].region, x);
        RegionSizes(warps[j].region, warps[j].level, h);
        OneGap(nets, warps, seen, i, j, n, h, x);
      }
    }
    GraftFilled(s, s', roots, warps, q, low, high, warps[i].level - |q|);
  }

  /** The end of `prepare_simple_step` inside the gap. */
  lemma StageSimple(chunks: seq<Chunk>, height: seq<nat>, roots: set<nat>, nets: iset<(nat, Net)>, warps: seq<Warp>,
                    seen: iset<Net>,
                    i: nat, n: Net, chunks': seq<Chunk>, c: nat, q: Digits, h: nat)
    requires Staged(chunks, height, roots, nets, warps, seen + iset{n}) && GapsFilled(ShapeOf(chunks), warps)
    requires Knows(nets, warps, seen, h) && RegionsApart(warps) && Comparable(nets, n)
    requires i < |warps| && Inside(n, warps[i].region) && Simple(n, q, h) && |q| < warps[i].level
    requires c < |chunks| && Walk(ShapeOf(chunks), 0, q) == Some(c) && !chunks[c].multirefs && c < |height|
             && height[c] + |q| == h
    requires Grafted(chunks, chunks', c, Low(n.addr[|q|], n.mask[|q|]), High(n.addr[|q|], n.mask[|q|]),
                     warps[i].level - |q|)
    ensures warps[i].level - |q| < height[c]
    ensures Staged(chunks', GraftHeight(height, c, warps[i].level - |q|), roots,
                   nets + iset{(0, n)}, warps, seen + iset{n})
    ensures Sized(chunks') && GapsFilled(ShapeOf(chunks'), warps)
  {
    hide *;
    SimpleParts(n, q, h);
    KnowsRegion(nets, warps, seen, h, i);
    var m := warps[i].level - |q|;
    var low, high := Low(n.addr[|q|], n.mask[|q|]), High(n.addr[|q|], n.mask[|q|]);
    NetCuts(n, q);
    ComparableUniform(nets, n, |q|);
    StageParts(chunks, height, roots, nets, warps, seen + iset{n});
    forall x | Zone(q, low, high, 0, x) && |x| <= |q| + m
      ensures SharedBy(warps, x)
    {
      SimpleShared(warps, i, n, q, h, low, high, x);
    }
    StageGraft(chunks, height, roots, nets, warps, seen + iset{n}, chunks', c, q, low, high, m, n);
    SimpleFilled(ShapeOf(chunks), ShapeOf(chunks'), roots, nets, warps, seen, i, n, q, h, low, high);
  }

  lemma SimpleParts(n: Net, q: Digits, h: nat)
    requires Simple(n, q, h)
    ensures FullTo(n, q) && |n.addr| == |n.mask| == h > |q| && ZeroFrom(n.mask, |q| + 1) && Leading(n.mask[|q|])
  {
    hide Leading, ZeroFrom;
  }

  lemma KnowsRegion(nets: iset<(nat, Net)>, warps: seq<Warp>, seen: iset<Net>, h: nat, i: nat)
    requires Knows(nets, warps, seen, h) && i < |warps|
    ensures IsRegion(warps[i].region, warps[i].level, h) && 0 < warps[i].level < h
  {
    assert IsRegion(warps[i].region, warps[i].level, h);
  }

  /** The simple prefixes that have been prepared end inside a gap. */
  ghost predicate SeenFits(warps: seq<Warp>, seen: iset<Net>) {
    forall m | m in seen ::
      exists j :: 0 <= j < |warps| && Inside(m, warps[j].region) && ZeroFrom(m.mask, warps[j].level)
  }

  /** Below the end of the gap there are no chunks yet. */
  lemma NoneBeyond(s: Shape, flags: seq<bool>, roots: set<nat>, nets: iset<(nat, Net)>, warps: seq<Warp>,
                   seen: iset<Net>,
                   i: nat, n: Net, h: nat, x: Digits)
    requires Reasons(s, flags, roots, warps, seen + iset{n}) && Knows(nets, warps, seen, h) && RegionsApart(warps)
    requires Comparable(nets, n) && SeenFits(warps, seen) && i < |warps| && Inside(n, warps[i].region)
    requires |n.addr| == |n.mask| == h >= |x| > warps[i].level && ZeroFrom(n.mask, warps[i].level) && Covers(n, x)
    ensures Walk(s, 0, x).None?
  {
    hide Walk, Covers, Inside, Disjoint, IsRegion, Leading, RegionsApart, Comparable;
    if Walk(s, 0, x).Some? {
      assert ZeroFrom(n.mask, |x|);
      if SharedBy(warps, x) {
        var j :| 0 <= j < |warps| && 0 < |x| <= warps[j].level && |x| <= |warps[j].region.mask|
                 && Covers(warps[j].region, x) && warps[j].region.mask[|x| - 1] != 0xFF;
        OneGap(nets, warps, seen, i, j, n, h, x);
      } else if j :| 0 <= j < |warps| && |x| <= warps[j].level && Along(warps[j].region, x) {
        OneGap(nets, warps, seen, i, j, n, h, x);
      } else {
        var m :| m in seen + iset{n} && Along(m, x);
        var j :| 0 <= j < |warps| && Inside(m, warps[j].region) && ZeroFrom(m.mask, warps[j].level);
        AlongInside(m, warps[j].region, h,
                    x) by { KnowsRegion(nets, warps, seen, h, j); RegionSizes(warps[j].region, warps[j].level, h); }
        OneGap(nets, warps, seen, i, j, n, h, x);
      }
      assert false;
    }
  }

  lemma AlongInside(m: Net, r: Net, h: nat, x: Digits)
    requires Along(m, x) && Inside(m, r) && |m.addr| == |m.mask| == |r.mask| == h >= |x|
    ensures Covers(r, x)
  {
    hide Covers;
    CoversOwn(m, x);
    CoversLess(r, x, m.addr[|x|..]);
  }

  /** The end of `prepare_simple_step` for a prefix that reaches the end of the gap. */
  lemma StageEnd(chunks: seq<Chunk>, height: seq<nat>, roots: set<nat>, nets: iset<(nat, Net)>, warps: seq<Warp>,
                 seen: iset<Net>,
                 i: nat, n: Net, c: nat, q: Digits, h: nat)
    requires Staged(chunks, height, roots, nets, warps, seen + iset{n})
    requires Knows(nets, warps, seen, h) && RegionsApart(warps) && Comparable(nets, n) && SeenFits(warps, seen)
    requires i < |warps| && Inside(n, warps[i].region) && |height| > 0 && height[0] == h
    requires FullTo(n, q) && |n.mask| == h && |q| == warps[i].level && ZeroFrom(n.mask, |q|)
    requires c < |chunks| && Walk(ShapeOf(chunks), 0, q) == Some(c) && !chunks[c].multirefs
    ensures Staged(chunks, height, roots, nets + iset{(0, n)}, warps, seen + iset{n})
  {
    hide *;
    StageParts(chunks, height, roots, nets, warps, seen + iset{n});
    var s, flags := ShapeOf(chunks), Flags(chunks);
    KnowsRegion(nets, warps, seen, h, i);
    PrivatePath(s, flags, roots, nets, c, q);
    FullParts(n, q);
    forall x: Digits | |x| > |q| && Covers(n, x)
      ensures Walk(s, 0, x).None?
    {
      if Walk(s, 0, x).Some? {
        WalkHeight(s, height, 0, x);
        NoneBeyond(s, flags, roots, nets, warps, seen, i, n, h, x);
      }
    }
    EndAligned(s, flags, roots, nets, n, c, q);
    StageFrom(chunks, height, roots, nets + iset{(0, n)}, warps, seen + iset{n});
  }

  lemma FullParts(n: Net, q: Digits)
    requires FullTo(n, q)
    ensures |n.addr| == |n.mask| > |q|
    ensures |q| > 0 ==> Level(n.mask) >= |q| - 1
    ensures forall x: Digits | |x| == |q| :: Covers(n, x) <==> x == q
  {
    if |q| > 0 {
      LevelAbove(n.mask, |q| - 1);
    }
    hide Level, Covers;
    forall x: Digits | |x| == |q|
      ensures Covers(n, x) <==> x == q
    {
      FullCovers(n, q, x);
      assert q[..|q|] == q;
    }
  }

  lemma EndAligned(s: Shape, flags: seq<bool>, roots: set<nat>, nets: iset<(nat, Net)>, n: Net, c: nat, q: Digits)
    requires Aligned(s, flags, roots, nets) && 0 in roots && Walk(s, 0, q) == Some(c) && |n.mask| > 0 && |q| > 0
    requires forall r, x | r in roots && Walk(s, r, x) == Some(c) :: r == 0 && x == q
    requires Level(n.mask) >= |q| - 1 && forall x: Digits | |x| == |q| :: Covers(n, x) <==> x == q
    requires forall x: Digits | |x| > |q| && Covers(n, x) :: Walk(s, 0, x).None?
    ensures Aligned(s, flags, roots, nets + iset{(0, n)})
  {
    hide Walk, Level, Covers, Aligned;
    forall r1, x1, r2, x2 | r1 in roots && r2 in roots && Walk(s, r1, x1).Some? && Walk(s, r1, x1) == Walk(s, r2, x2)
      ensures Walk(s, r1, x1).value < |flags|
      ensures Twins(flags[Walk(s, r1, x1).value], nets + iset{(0, n)}, r1, x1, r2, x2)
    {
      AlignedTwins(s, flags, roots, nets, r1, x1, r2, x2);
    }
    AlignedFrom(s, flags, roots, nets + iset{(0, n)});
  }

  // ----- the warp chunk is a root of its own ------------------------------------------------

  lemma {:induction false} RootWalk(s: Shape, s': Shape, height: seq<nat>, r: nat, x: Digits)
    requires Layered(s, height) && |s'| == |s| + 1 && r < |s|
    requires forall c, d | 0 <= c < |s| :: Kid(s', c, d) == Kid(s, c, d)
    ensures Walk(s', r, x) == Walk(s, r, x)
    decreases |x|
  {
    if x != [] {
      var x' := x[..|x| - 1];
      RootWalk(s, s', height, r, x');
      if Walk(s, r, x').Some? {
        WalkHeight(s, height, r, x');
      }
    }
  }

  lemma {:induction false} LeafWalk(s: Shape, r: nat, x: Digits)
    requires x != [] && forall d :: Kid(s, r, d) < 0
    ensures Walk(s, r, x).None?
    decreases |x|
  {
    var x' := x[..|x| - 1];
    if x' == [] {
      assert Walk(s, r, x') == Some(r);
    } else {
      LeafWalk(s, r, x');
    }
  }

  lemma LeafShape(chunks: seq<Chunk>, height: seq<nat>, k: nat)
    requires Sized(chunks) && Layered(ShapeOf(chunks), height) && Exact(ShapeOf(chunks), height) && Blank(chunks)
             && k > 0
    ensures var chunks', h' := chunks + [Filled(false, Group(0))], height + [k];
            && Sized(chunks') && Layered(ShapeOf(chunks'), h') && Exact(ShapeOf(chunks'), h') && Blank(chunks')
            && (forall c, d | 0 <= c < |chunks| :: Kid(ShapeOf(chunks'), c, d) == Kid(ShapeOf(chunks), c, d))
            && (forall d :: Kid(ShapeOf(chunks'), |chunks|, d) < 0)
            && Flags(chunks') == Flags(chunks) + [false]
  {
    var chunks' := chunks + [Filled(false, Group(0))];
    assert forall x | 0 <= x < |chunks| :: chunks'[x] == chunks[x];
    assert Flags(chunks') == Flags(chunks) + [false];
  }

  lemma RootAligned(s: Shape, s': Shape, flags: seq<bool>, roots: set<nat>, nets: iset<(nat, Net)>, warps: seq<Warp>,
                    seen: iset<Net>)
    requires Aligned(s, flags, roots, nets) && Reasons(s, flags, roots, warps, seen) && |s| == |flags| && 0 in roots
    requires forall r, x | r in roots :: Walk(s', r, x) == Walk(s, r, x)
    requires forall x: Digits | x != [] :: Walk(s', |s|, x).None?
    ensures Aligned(s', flags + [false], roots + {|s|}, nets)
            && Reasons(s', flags + [false], roots + {|s|}, warps, seen)
  {
    assert Walk(s', |s|, []) == Some(|s|);
    var flags', roots' := flags + [false], roots + {|s|};
    forall r | r in roots
      ensures r < |s|
    {
      assert r < |flags|;
    }
    hide Walk, SharedBy, PrivateBy;
    forall r1, x1, r2, x2 | r1 in roots' && r2 in roots' && Walk(s', r1, x1).Some?
    && Walk(s', r1, x1) == Walk(s', r2, x2)
      ensures Walk(s', r1, x1).value < |flags'|
      ensures Twins(flags'[Walk(s', r1, x1).value], nets, r1, x1, r2, x2)
    {
      if r1 in roots {
        AlignedValue(s, flags, roots, nets, r1, x1);
      }
      if r2 in roots {
        AlignedValue(s, flags, roots, nets, r2, x2);
      }
      if r1 in roots {
        AlignedTwins(s, flags, roots, nets, r1, x1, r2, x2);
      }
    }
    AlignedFrom(s', flags', roots', nets);
  }

  lemma StageRoot(chunks: seq<Chunk>, height: seq<nat>, roots: set<nat>, nets: iset<(nat, Net)>, warps: seq<Warp>,
                  seen: iset<Net>, k: nat)
    requires Staged(chunks, height, roots, nets, warps, seen) && k > 0
    ensures Staged(chunks + [Filled(false, Group(0))], height + [k], roots + {|chunks|}, nets, warps, seen)
    ensures Sized(chunks) && Sized(chunks + [Filled(false, Group(0))])
    ensures GapsFilled(ShapeOf(chunks), warps) ==> GapsFilled(ShapeOf(chunks + [Filled(false, Group(0))]), warps)
  {
    hide *;
    StageParts(chunks, height, roots, nets, warps, seen);
    LeafShape(chunks, height, k);
    var chunks', h' := chunks + [Filled(false, Group(0))], height + [k];
    var s, s' := ShapeOf(chunks), ShapeOf(chunks');
    RootedMore(height, roots, k);
    forall r, x | r in roots
      ensures Walk(s', r, x) == Walk(s, r, x)
    {
      RootWalk(s, s', height, r, x);
    }
    forall x: Digits | x != []
      ensures Walk(s', |s|, x).None?
    {
      LeafWalk(s', |s|, x);
    }
    RootAligned(s, s', Flags(chunks), roots, nets, warps, seen);
    StageFrom(chunks', h', roots + {|chunks|}, nets, warps, seen);
    FilledSame(s, s', warps);
  }

  lemma RootedMore(height: seq<nat>, roots: set<nat>, k: nat)
    requires Rooted(height, roots)
    ensures Rooted(height + [k], roots + {|height|}) && forall r | r in roots :: r < |height|
  {
  }

  lemma FilledSame(s: Shape, s': Shape, warps: seq<Warp>)
    requires forall x :: Walk(s', 0, x) == Walk(s, 0, x)
    ensures GapsFilled(s, warps) ==> GapsFilled(s', warps)
  {
  }

  // ----- the steps of the two phases --------------------------------------------------------

  lemma ChildWalk(chunks: seq<Chunk>, q: Digits, c: nat, d: bv8)
    requires Sized(chunks) && c < |chunks| && Walk(ShapeOf(chunks), 0, q) == Some(c)
    ensures chunks[c].At(d).Link? ==> Walk(ShapeOf(chunks), 0, q + [d]) == Some(chunks[c].At(d).chunk)
    ensures chunks[c].At(d).Group? ==> Walk(ShapeOf(chunks), 0, q + [d]).None?
  {
    assert (q + [d])[..|q|] == q;
    assert Kid(ShapeOf(chunks), c, d) == if chunks[c].At(d).Link? then chunks[c].At(d).chunk else -1;
  }

  lemma EachSized(chunks: seq<Chunk>)
    requires Sized(chunks)
    ensures forall c | 0 <= c < |chunks| :: chunks[c].Sized()
  {
  }

  lemma PrivateNow(warps: seq<Warp>, seen: iset<Net>, n: Net, x: Digits)
    requires n in seen && Along(n, x)
    ensures PrivateBy(warps, seen, x)
  {
  }

  lemma FullStep(n: Net, q: Digits)
    requires FullTo(n, q) && n.mask[|q|] == 0xFF && |n.mask| > |q| + 1
    ensures FullTo(n, q + [n.addr[|q|]]) && Along(n, q + [n.addr[|q|]])
  {
    var x := q + [n.addr[|q|]];
    assert x == n.addr[..|q| + 1];
    FullCovers(n, x, x);
  }

  /** Where the region leaves its full bytes there is nothing yet. */
  lemma GappedChildren(chunks: seq<Chunk>, flags: seq<bool>, roots: set<nat>, warps: seq<Warp>, n: Net, level: nat,
                       h: nat, c: nat, q: Digits)
    requires Sized(chunks) && Reasons(ShapeOf(chunks), flags, roots, warps, iset{n}) && Regions(warps, h)
             && IsRegion(n, level, h)
    requires ApartFrom(warps, n) && FullTo(n, q) && |q| < level && n.mask[|q|] != 0xFF
    requires c < |chunks| && Walk(ShapeOf(chunks), 0, q) == Some(c)
    ensures forall d: bv8 | Between(Low(n.addr[|q|], n.mask[|q|]), d, High(n.addr[|q|], n.mask[|q|])) ::
              chunks[c].At(d).Group?
  {
    hide *;
    EachSized(chunks);
    RegionPath(n, level, h, q);
    NetCuts(n, q);
    var low, high := Low(n.addr[|q|], n.mask[|q|]), High(n.addr[|q|], n.mask[|q|]);
    forall d: bv8 | Between(low, d, high)
      ensures chunks[c].At(d).Group?
    {
      ChildWalk(chunks, q, c, d);
      CutsChild(n, q, low, high, d);
      ZoneEmpty(ShapeOf(chunks), flags, roots, warps, n, level, h, q + [d]);
    }
  }

  lemma CutsChild(n: Net, q: Digits, low: bv8, high: bv8, d: bv8)
    requires Cuts(n, q, low, high) && Between(low, d, high)
    ensures Covers(n, q + [d])
  {
    hide Between, Level;
    assert (q + [d])[..|q|] == q;
    assert Zone(q, low, high, 0, q + [d]);
  }

  lemma RegionTail(n: Net, level: nat, h: nat, q: Digits)
    requires IsRegion(n, level, h) && |q| < level && FullTo(n, q)
    ensures var gap := n.mask[|q|..level]; gap != [] && gap[|gap| - 1] != 0xFF && gap[0] == n.mask[|q|]
    ensures n.mask[|q|] == 0xFF ==> |q| + 1 < level
    ensures n.mask[|q|] != 0xFF ==> forall t | |q| < t < h :: n.mask[t] == 0
  {
    hide Leading;
  }

  /** The state while the simple prefix n, which ends inside the gap of warp i, is prepared. */
  ghost predicate Preparing(chunks: seq<Chunk>, height: seq<nat>, roots: set<nat>, nets: iset<(nat, Net)>,
                            warps: seq<Warp>, seen: iset<Net>,
                            i: nat, n: Net, h: nat)
  {
    && Staged(chunks, height, roots, nets, warps, seen + iset{n}) && GapsFilled(ShapeOf(chunks), warps)
       && height[0] == h
    && Knows(nets, warps, seen, h) && RegionsApart(warps) && Comparable(nets, n) && SeenFits(warps, seen)
    && i < |warps| && Inside(n, warps[i].region)
    && |n.addr| == |n.mask| == h && LeadingOnes(n.mask) && ZeroFrom(n.mask, warps[i].level)
  }

  lemma PreparingParts(chunks: seq<Chunk>, height: seq<nat>, roots: set<nat>, nets: iset<(nat, Net)>, warps: seq<Warp>,
                       seen: iset<Net>,
                       i: nat, n: Net, h: nat)
    requires Preparing(chunks, height, roots, nets, warps, seen, i, n, h)
    ensures Staged(chunks, height, roots, nets, warps, seen + iset{n}) && Sized(chunks)
            && GapsFilled(ShapeOf(chunks), warps)
    ensures |height| > 0 && height[0] == h && Knows(nets, warps, seen, h) && RegionsApart(warps) && Comparable(nets, n)
    ensures SeenFits(warps, seen) && i < |warps| && Inside(n, warps[i].region) && |n.addr| == |n.mask| == h
    ensures LeadingOnes(n.mask) && ZeroFrom(n.mask, warps[i].level) && IsRegion(warps[i].region, warps[i].level, h)
  {
    hide Staged, GapsFilled, RegionsApart, Comparable, SeenFits, Inside, LeadingOnes, ZeroFrom;
    KnowsRegion(nets, warps, seen, h, i);
    StageParts(chunks, height, roots, nets, warps, seen + iset{n});
  }

  lemma PreparingFrom(chunks: seq<Chunk>, height: seq<nat>, chunks': seq<Chunk>, height': seq<nat>, roots: set<nat>,
                      nets: iset<(nat, Net)>, warps: seq<Warp>, seen: iset<Net>, i: nat, n: Net, h: nat)
    requires Preparing(chunks, height, roots, nets, warps, seen, i, n, h)
    requires Staged(chunks', height', roots, nets, warps, seen + iset{n}) && Sized(chunks')
             && GapsFilled(ShapeOf(chunks'), warps)
    requires Extends(height, height')
    ensures Preparing(chunks', height', roots, nets, warps, seen, i, n, h)
  {
    hide Staged, GapsFilled, RegionsApart, Comparable, SeenFits, Inside, LeadingOnes, ZeroFrom, Knows;
    StageParts(chunks, height, roots, nets, warps, seen + iset{n});
    StageParts(chunks', height', roots, nets, warps, seen + iset{n});
  }

  /** Along the full bytes of the prefix the gap is filled. */
  lemma SimpleChild(chunks: seq<Chunk>, height: seq<nat>, roots: set<nat>, nets: iset<(nat, Net)>, warps: seq<Warp>,
                    seen: iset<Net>,
                    i: nat, n: Net, h: nat, c: nat, q: Digits)
    requires Preparing(chunks, height, roots, nets, warps, seen, i, n, h)
    requires FullTo(n, q) && |q| < warps[i].level && n.mask[|q|] == 0xFF
    requires c < |chunks| && c < |height| && Walk(ShapeOf(chunks), 0, q) == Some(c) && height[c] + |q| == h
    ensures chunks[c].Sized() && var v := chunks[c].At(n.addr[|q|]);
            v.Link? && v.chunk < |chunks| && v.chunk < |height|
            && Walk(ShapeOf(chunks), 0, q + [n.addr[|q|]]) == Some(v.chunk) && height[v.chunk] + |q| + 1 == h
    ensures PrivateBy(warps, seen + iset{n}, q + [n.addr[|q|]]) && FullTo(n, q + [n.addr[|q|]])
  {
    hide *;
    PreparingParts(chunks, height, roots, nets, warps, seen, i, n, h);
    StageParts(chunks, height, roots, nets, warps, seen + iset{n});
    EachSized(chunks);
    RegionSizes(warps[i].region, warps[i].level, h);
    var d := n.addr[|q|];
    FullStep(n, q);
    PrivateNow(warps, seen + iset{n}, n, q + [d]);
    ChildWalk(chunks, q, c, d);
    InsideGap(warps, i, n, h, q + [d]);
    FilledAt(ShapeOf(chunks), warps, q + [d]);
    WalkExact(ShapeOf(chunks), height, 0, q);
    WalkExact(ShapeOf(chunks), height, 0, q + [d]);
  }

  lemma InsideGap(warps: seq<Warp>, i: nat, n: Net, h: nat, x: Digits)
    requires i < |warps| && Inside(n, warps[i].region) && |x| <= warps[i].level && Along(n, x)
    requires |n.addr| == |n.mask| == |warps[i].region.mask| == h
    ensures InGap(warps, x)
  {
    hide Covers, Inside;
    AlongInside(n, warps[i].region, h, x);
  }

  lemma FilledAt(s: Shape, warps: seq<Warp>, x: Digits)
    requires GapsFilled(s, warps) && InGap(warps, x)
    ensures Walk(s, 0, x).Some?
  {
  }

  /** Where the prefix ends inside the gap, all chunks below it are shared. */
  lemma SimpleChildren(chunks: seq<Chunk>, height: seq<nat>, roots: set<nat>, nets: iset<(nat, Net)>, warps: seq<Warp>,
                       seen: iset<Net>,
                       i: nat, n: Net, h: nat, c: nat, q: Digits)
    requires Preparing(chunks, height, roots, nets, warps, seen, i, n, h)
    requires FullTo(n, q) && n.mask[|q|] != 0xFF && c < |chunks| && Walk(ShapeOf(chunks), 0, q) == Some(c)
    ensures Simple(n, q, h) && chunks[c].Sized()
    ensures forall d: bv8 | Between(Low(n.addr[|q|], n.mask[|q|]), d, High(n.addr[|q|], n.mask[|q|]))
            && chunks[c].At(d).Link? ::
              chunks[c].At(d).chunk < |chunks| && chunks[chunks[c].At(d).chunk].multirefs
  {
    hide *;
    PreparingParts(chunks, height, roots, nets, warps, seen, i, n, h);
    StageParts(chunks, height, roots, nets, warps, seen + iset{n});
    EachSized(chunks);
    SimpleFrom(n, q, h);
    SimpleParts(n, q, h);
    NetCuts(n, q);
    var low, high := Low(n.addr[|q|], n.mask[|q|]), High(n.addr[|q|], n.mask[|q|]);
    forall d: bv8 | Between(low, d, high) && chunks[c].At(d).Link?
      ensures chunks[c].At(d).chunk < |chunks| && chunks[chunks[c].At(d).chunk].multirefs
    {
      ChildWalk(chunks, q, c, d);
      CutsChild(n, q, low, high, d);
      ChildShared(ShapeOf(chunks), Flags(chunks), roots, nets, warps, seen, n, q, h, d);
    }
  }

  lemma SimpleFrom(n: Net, q: Digits, h: nat)
    requires FullTo(n, q) && n.mask[|q|] != 0xFF && LeadingOnes(n.mask) && |n.mask| == h
    ensures Simple(n, q, h) && ZeroFrom(n.mask, |q| + 1) && Leading(n.mask[|q|])
    ensures forall t | |q| < t < h :: n.mask[t] == 0
  {
    hide Leading;
  }

  lemma RegionEnd(n: Net, level: nat, h: nat, q: Digits)
    requires IsRegion(n, level, h) && |q| <= level
    ensures level < h == |n.mask| && var gap := n.mask[|q|..level]; gap != [] ==> gap[|gap| - 1] != 0xFF
  {
  }

  // ----- after both phases ------------------------------------------------------------------

  /** The networks that may be inserted: anything below a warp, and the regions and simple prefixes below root 0. */
  ghost function InsertNets(warps: seq<Warp>, simple: iset<Net>): iset<(nat, Net)> {
    iset x: (nat, Net) | x.0 != 0 || x.1 in simple || exists j :: 0 <= j < |warps| && x.1 == warps[j].region
  }

  /** A simple prefix that needs no chunks of its own in the gap of warp w. */
  ghost predicate Harmless(n: Net, w: Warp) {
    Disjoint(n, w.region) || Inside(w.region, n) || (w.level < |n.mask| && n.mask[w.level] != 0)
  }

  ghost predicate Handled(nets: iset<(nat, Net)>, warps: seq<Warp>, n: Net) {
    (0, n) in nets || forall j | 0 <= j < |warps| :: Harmless(n, warps[j])
  }

  /** A harmless prefix does not tell the paths through a gap apart. */
  lemma HarmlessTwins(n: Net, w: Warp, h: nat, x1: Digits, x2: Digits)
    requires Harmless(n, w) && IsRegion(w.region, w.level, h) && |n.addr| == |n.mask| == h
    requires 0 < |x1| == |x2| <= w.level && w.region.mask[|x1| - 1] != 0xFF && Covers(w.region, x1)
             && Covers(w.region, x2)
    requires Level(n.mask) < |x1|
    ensures Covers(n, x1) <==> Covers(n, x2)
  {
    hide Covers, Inside, Disjoint, Leading, Level;
    if Disjoint(n, w.region) {
      LevelZero(n.mask, |x1|);
      if Covers(n, x1) {
        RegionsMeet(n, w.region, h, x1);
      }
      if Covers(n, x2) {
        RegionsMeet(n, w.region, h, x2);
      }
    } else if Inside(w.region, n) {
      InsidePath(w.region, n, x1);
      InsidePath(w.region, n, x2);
    } else {
      LevelAbove(n.mask, w.level);
    }
  }

  lemma FinalTwins(s: Shape, flags: seq<bool>, roots: set<nat>, nets: iset<(nat, Net)>, warps: seq<Warp>,
                   seen: iset<Net>, h: nat,
                   x1: Digits, x2: Digits, n: Net)
    requires Aligned(s, flags, roots, nets) && Reasons(s, flags, roots, warps, seen) && Knows(nets, warps, seen, h)
             && 0 in roots
    requires Walk(s, 0, x1).Some? && Walk(s, 0, x1) == Walk(s, 0, x2)
    requires Handled(nets, warps, n) && |n.addr| == |n.mask| == h > 0 && Level(n.mask) < |x1| == |x2|
    ensures Covers(n, x1) <==> Covers(n, x2)
  {
    hide Walk, Level, Covers, Aligned, Harmless, IsRegion, SharedBy;
    AlignedTwins(s, flags, roots, nets, 0, x1, 0, x2);
    if (0, n) !in nets && flags[Walk(s, 0, x1).value] {
      assert SharedBy(warps, x1);
      var j := SharedWarp(warps, x1);
      KnowsRegion(nets, warps, seen, h, j);
      RegionLevel(warps[j].region, warps[j].level, h, |x1|);
      HarmlessTwins(n, warps[j], h, x1, x2);
    }
  }

  lemma SharedWarp(warps: seq<Warp>, x: Digits) returns (j: nat)
    requires SharedBy(warps, x)
    ensures j < |warps| && 0 < |x| <= warps[j].level && |x| <= |warps[j].region.mask|
    ensures Covers(warps[j].region, x) && warps[j].region.mask[|x| - 1] != 0xFF
  {
    j :| 0 <= j < |warps| && 0 < |x| <= warps[j].level && |x| <= |warps[j].region.mask|
         && Covers(warps[j].region, x) && warps[j].region.mask[|x| - 1] != 0xFF;
  }

  lemma RegionLevel(n: Net, level: nat, h: nat, k: nat)
    requires IsRegion(n, level, h) && 0 < k <= level && n.mask[k - 1] != 0xFF
    ensures Level(n.mask) < k
  {
    hide Leading;
    LevelBelow(n.mask, k);
  }

  ghost predicate WarpRoots(height: seq<nat>, roots: set<nat>, warps: seq<Warp>, h: nat) {
    && Rooted(height, roots)
    && (forall j | 0 <= j < |warps| ::
          && warps[j].chunk in roots && warps[j].chunk != 0 && warps[j].level <= h
          && height[warps[j].chunk] == h - warps[j].level)
    && (forall i, j | 0 <= i < |warps| && 0 <= j < |warps| && warps[i].chunk == warps[j].chunk :: i == j)
  }

  /** What `prepare` leaves behind is fit for inserting and merging. */
  lemma StagePrepared(chunks: seq<Chunk>, height: seq<nat>, roots: set<nat>, nets: iset<(nat, Net)>, warps: seq<Warp>,
                      seen: iset<Net>,
                      simple: iset<Net>, h: nat)
    requires Staged(chunks, height, roots, nets, warps, seen) && Sized(chunks) && GapsFilled(ShapeOf(chunks), warps)
    requires Knows(nets, warps, seen, h) && RegionsApart(warps) && WarpRoots(height, roots, warps, h)
    requires 0 < h && |height| > 0 && height[0] == h
    requires forall n | n in simple :: Handled(nets, warps, n) && |n.addr| == |n.mask| == h
    ensures Prepared(chunks, height, roots, InsertNets(warps, simple), warps)
  {
    hide *;
    StageParts(chunks, height, roots, nets, warps, seen);
    FinalAligned(ShapeOf(chunks), Flags(chunks), roots, nets, warps, seen, simple, h);
    FinalGaps(ShapeOf(chunks), Flags(chunks), roots, warps, seen);
    FinalWarps(height, roots, nets, warps, seen, simple, h);
    PreparedFrom(chunks, height, roots, InsertNets(warps, simple), warps);
  }

  lemma FinalAligned(s: Shape, flags: seq<bool>, roots: set<nat>, nets: iset<(nat, Net)>, warps: seq<Warp>,
                     seen: iset<Net>, simple: iset<Net>, h: nat)
    requires Aligned(s, flags, roots, nets) && Reasons(s, flags, roots, warps, seen) && Knows(nets, warps, seen, h)
             && 0 in roots && h > 0
    requires forall n | n in simple :: Handled(nets, warps, n) && |n.addr| == |n.mask| == h
    ensures Aligned(s, flags, roots, InsertNets(warps, simple))
  {
    hide Walk, Level, Covers, Aligned, Handled, IsRegion, SharedBy, PrivateBy;
    forall r1, x1, r2, x2 | r1 in roots && r2 in roots && Walk(s, r1, x1).Some? && Walk(s, r1, x1) == Walk(s, r2, x2)
      ensures Walk(s, r1, x1).value < |flags|
      ensures Twins(flags[Walk(s, r1, x1).value], InsertNets(warps, simple), r1, x1, r2, x2)
    {
      AlignedTwins(s, flags, roots, nets, r1, x1, r2, x2);
      if r1 == 0 {
        forall n | (0, n) in InsertNets(warps, simple) && |n.mask| > 0 && Level(n.mask) < |x1|
          ensures Covers(n, x1) <==> Covers(n, x2)
        {
          if n in simple {
            FinalTwins(s, flags, roots, nets, warps, seen, h, x1, x2, n);
          }
        }
      } else {
        assert x1 == [] && x2 == [];
      }
    }
    AlignedFrom(s, flags, roots, InsertNets(warps, simple));
  }

  lemma FinalGaps(s: Shape, flags: seq<bool>, roots: set<nat>, warps: seq<Warp>, seen: iset<Net>)
    requires Reasons(s, flags, roots, warps, seen) && GapsFilled(s, warps) && 0 in roots
    ensures Gaps(s, flags, roots, warps)
  {
    hide Covers;
    forall r, x | r in roots && Walk(s, r, x).Some? && Walk(s, r, x).value < |flags| && flags[Walk(s, r, x).value]
      ensures r == 0 && x != [] && InGap(warps, x)
    {
      assert x == [] ==> Walk(s, r, x) == Some(r);
      var j := SharedWarp(warps, x);
    }
  }

  lemma FinalWarps(height: seq<nat>, roots: set<nat>, nets: iset<(nat, Net)>, warps: seq<Warp>, seen: iset<Net>,
                   simple: iset<Net>, h: nat)
    requires Knows(nets, warps, seen, h) && RegionsApart(warps) && WarpRoots(height, roots, warps, h) && 0 in roots
    requires |height| > 0 && height[0] == h
    ensures WarpsFit(height, roots, InsertNets(warps, simple), warps)
  {
    hide Leading, Covers;
    forall i | 0 <= i < |warps|
      ensures WarpFits(height, roots, InsertNets(warps, simple), warps[i])
    {
      KnowsRegion(nets, warps, seen, h, i);
      assert ZeroFrom(warps[i].region.mask, warps[i].level);
    }
    forall i, j, x: Digits | 0 <= i < |warps| && 0 <= j < |warps| && |x| == height[0]
                             && Covers(warps[i].region, x) && Covers(warps[j].region, x)
      ensures i == j
    {
      KnowsRegion(nets, warps, seen, h, i);
      KnowsRegion(nets, warps, seen, h, j);
    }
  }

  lemma PreparedFrom(chunks: seq<Chunk>, height: seq<nat>, roots: set<nat>, nets: iset<(nat, Net)>, warps: seq<Warp>)
    requires WellFormed(chunks, height) && Rooted(height, roots) && 0 in roots && Exact(ShapeOf(chunks), height)
    requires Aligned(ShapeOf(chunks), Flags(chunks), roots, nets) && Gaps(ShapeOf(chunks), Flags(chunks), roots, warps)
    requires WarpsFit(height, roots, nets, warps)
    ensures Prepared(chunks, height, roots, nets, warps)
  {
    hide Layered, Exact, Aligned, Gaps, WarpsFit;
  }

  // ----- the whole of prepare ---------------------------------------------------------------

  /** The region of a gapped network (the part of its mask before the gap). */
  function RegionOf(n: Net): (r: Net)
    requires |n.addr| == |n.mask|
    ensures |r.addr| == |r.mask| == |n.mask|
  {
    var shadow := ClearTail(FillTail(n.mask));
    Net(And(n.addr, shadow), shadow)
  }

  /** The byte at which the last part of a gapped mask starts. */
  function GapLevel(n: Net): nat {
    TailStart(FillTail(n.mask))
  }

  /** Not double gapped, and the last part starts at a byte boundary. */
  predicate Supported(n: Net) {
    Contiguous(ClearTail(FillTail(n.mask))) && ByteAligned(FillTail(n.mask))
  }

  predicate WarpOf(w: Warp, n: Net)
    requires |n.addr| == |n.mask|
  {
    w.region == RegionOf(n) && w.level == GapLevel(n)
  }

  lemma RegionIs(n: Net, h: nat)
    requires |n.addr| == |n.mask| == h > 0 && !Contiguous(n.mask) && Supported(n)
    ensures IsRegion(RegionOf(n), GapLevel(n), h)
  {
    hide Leading, Contiguous, FillTail, ClearTail, TailStart, ByteAligned;
    GapParts(n.mask);
  }

  ghost predicate Stage(chunks: seq<Chunk>, height: seq<nat>, roots: set<nat>, warps: seq<Warp>, seen: iset<Net>,
                        h: nat) {
    && Staged(chunks, height, roots, InsertNets(warps, seen), warps, seen) && GapsFilled(ShapeOf(chunks), warps)
    && Knows(InsertNets(warps, seen), warps, seen, h) && RegionsApart(warps) && SeenFits(warps, seen)
    && WarpRoots(height, roots, warps, h) && height[0] == h
  }

  lemma StageOpens(chunks: seq<Chunk>, height: seq<nat>, roots: set<nat>, warps: seq<Warp>, seen: iset<Net>, h: nat)
    requires Stage(chunks, height, roots, warps, seen, h)
    ensures Staged(chunks, height, roots, InsertNets(warps, seen), warps, seen) && Sized(chunks)
            && GapsFilled(ShapeOf(chunks), warps)
    ensures Knows(InsertNets(warps, seen), warps, seen, h) && RegionsApart(warps) && SeenFits(warps, seen)
    ensures WarpRoots(height, roots, warps, h) && |height| == |chunks| > 0 && height[0] == h && 0 in roots
  {
    hide InsertNets, GapsFilled, Knows, RegionsApart, SeenFits, WarpRoots, Staged;
    StageParts(chunks, height, roots, InsertNets(warps, seen), warps, seen);
  }

  lemma StageCloses(chunks: seq<Chunk>, height: seq<nat>, roots: set<nat>, nets: iset<(nat, Net)>, warps: seq<Warp>,
                    seen: iset<Net>, h: nat)
    requires Staged(chunks, height, roots, nets, warps, seen) && Sized(chunks) && GapsFilled(ShapeOf(chunks), warps)
    requires nets == InsertNets(warps, seen)
    requires Knows(InsertNets(warps, seen), warps, seen, h) && RegionsApart(warps) && SeenFits(warps, seen)
    requires WarpRoots(height, roots, warps, h) && |height| > 0 && height[0] == h
    ensures Stage(chunks, height, roots, warps, seen, h)
  {
    hide InsertNets, GapsFilled, Knows, RegionsApart, SeenFits, WarpRoots, Staged;
  }

  lemma StageFresh(h: nat)
    requires h > 0
    ensures Stage([Filled(false, Group(0))], [h], {0}, [], iset{}, h)
  {
    var chunks := [Filled(false, Group(0))];
    assert ShapeOf(chunks)[0] == Links(chunks[0]);
    var s := ShapeOf(chunks);
    assert forall d :: Kid(s, 0, d) == -1;
    forall x: Digits | x != []
      ensures Walk(s, 0, x).None?
    {
      LeafWalk(s, 0, x);
    }
    assert Walk(s, 0, []) == Some(0);
    hide Walk, Level, Covers;
    assert Flags(chunks) == [false];
  }

  // ----- adding a warp ----------------------------------------------------------------------

  lemma GappedReady(chunks: seq<Chunk>, height: seq<nat>, roots: set<nat>, warps: seq<Warp>, n: Net, level: nat, h: nat)
    requires Stage(chunks, height, roots, warps, iset{}, h) && IsRegion(n, level, h) && ApartFrom(warps, n)
    ensures Staged(chunks, height, roots, InsertNets(warps, iset{}), warps, iset{n}) && Sized(chunks)
            && GapsFilled(ShapeOf(chunks), warps)
    ensures Regions(warps, h) && Comparable(InsertNets(warps, iset{}), n) && FullTo(n, [])
    ensures 0 < |chunks| == |height| && Walk(ShapeOf(chunks), 0, []) == Some(0) && !chunks[0].multirefs
            && height[0] == h
  {
    hide *;
    var nets := InsertNets(warps, iset{});
    StageOpens(chunks, height, roots, warps, iset{}, h);
    StageParts(chunks, height, roots, nets, warps, iset{});
    RootPrivate(ShapeOf(chunks), Flags(chunks), roots, warps, iset{});
    forall x | PrivateBy(warps, iset{}, x)
      ensures PrivateBy(warps, iset{n}, x)
    {
      PrivateAny(warps, iset{}, iset{n}, x);
    }
    ReasonsMore(ShapeOf(chunks), Flags(chunks), roots, warps, warps, iset{}, iset{n});
    StageFrom(chunks, height, roots, nets, warps, iset{n});
    ApartComparable(warps, n, h);
    FullNone(n, level, h);
  }

  lemma PrivateAny(warps: seq<Warp>, seen: iset<Net>, seen': iset<Net>, x: Digits)
    requires PrivateBy(warps, seen, x) && seen <= seen'
    ensures PrivateBy(warps, seen', x)
  {
    hide Along;
  }

  lemma RootPrivate(s: Shape, flags: seq<bool>, roots: set<nat>, warps: seq<Warp>, seen: iset<Net>)
    requires Reasons(s, flags, roots, warps, seen)
    ensures forall r | r in roots :: r < |flags| && !flags[r]
    ensures forall r: nat :: Walk(s, r, []) == Some(r)
  {
    hide SharedBy, PrivateBy;
  }

  lemma ApartComparable(warps: seq<Warp>, n: Net, h: nat)
    requires ApartFrom(warps, n) && Knows(InsertNets(warps, iset{}), warps, iset{}, h)
    ensures Comparable(InsertNets(warps, iset{}), n) && Regions(warps, h)
  {
    hide Disjoint, Inside, IsRegion;
  }

  lemma FullNone(n: Net, level: nat, h: nat)
    requires IsRegion(n, level, h)
    ensures FullTo(n, [])
  {
  }

  ghost predicate SameRegions(warps: seq<Warp>, warps': seq<Warp>) {
    |warps| == |warps'| && forall j | 0 <= j < |warps| ::
      warps[j].region == warps'[j].region && warps[j].level == warps'[j].level
  }

  lemma SameInGap(warps: seq<Warp>, warps': seq<Warp>, x: Digits)
    requires SameRegions(warps, warps')
    ensures InGap(warps, x) ==> InGap(warps', x)
    ensures SharedBy(warps, x) ==> SharedBy(warps', x)
    ensures forall seen :: PrivateBy(warps, seen, x) ==> PrivateBy(warps', seen, x)
  {
    hide Covers, Along;
    if InGap(warps, x) {
      var j :| 0 <= j < |warps| && |x| <= warps[j].level && Covers(warps[j].region, x);
      assert |x| <= warps'[j].level;
    }
    if SharedBy(warps, x) {
      var j := SharedWarp(warps, x);
      assert |x| <= warps'[j].level;
    }
    forall seen | PrivateBy(warps, seen, x)
      ensures PrivateBy(warps', seen, x)
    {
      if j :| 0 <= j < |warps| && |x| <= warps[j].level && Along(warps[j].region, x) {
        assert |x| <= warps'[j].level;
      }
    }
  }

  lemma SameReasons(s: Shape, flags: seq<bool>, roots: set<nat>, warps: seq<Warp>, warps': seq<Warp>, seen: iset<Net>)
    requires Reasons(s, flags, roots, warps, seen) && SameRegions(warps, warps') && GapsFilled(s, warps)
    ensures Reasons(s, flags, roots, warps', seen) && GapsFilled(s, warps')
  {
    hide Walk, InGap, SharedBy, PrivateBy, SameRegions;
    forall x
      ensures InGap(warps', x) ==> InGap(warps, x)
      ensures SharedBy(warps, x) ==> SharedBy(warps', x)
      ensures PrivateBy(warps, seen, x) ==> PrivateBy(warps', seen, x)
    {
      SameInGap(warps, warps', x);
      assert SameRegions(warps', warps) by { SameBack(warps, warps'); }
      SameInGap(warps', warps, x);
    }
  }

  lemma SameBack(warps: seq<Warp>, warps': seq<Warp>)
    requires SameRegions(warps, warps')
    ensures SameRegions(warps', warps)
  {
  }

  /** The new warp joins the others. */
  lemma GappedDone(chunks: seq<Chunk>, height: seq<nat>, roots: set<nat>, warps: seq<Warp>, w0: Warp, w: Warp, h: nat)
    requires Staged(chunks, height, roots, InsertNets(warps, iset{}) + iset{(0, w.region)}, warps + [w0], iset{})
    requires Sized(chunks) && GapsFilled(ShapeOf(chunks), warps + [w0])
    requires w0.region == w.region && w0.level == w.level && w.chunk == |chunks| && |height| == |chunks| > 0
             && height[0] == h
    requires IsRegion(w.region, w.level, h) && ApartFrom(warps, w.region) && RegionsApart(warps)
    requires Knows(InsertNets(warps, iset{}), warps, iset{}, h) && WarpRoots(height, roots, warps, h)
    ensures Stage(chunks + [Filled(false, Group(0))], height + [h - w.level], roots + {|chunks|}, warps + [w],
                  iset{}, h)
  {
    hide *;
    RegionSizes(w.region, w.level, h);
    var nets := InsertNets(warps, iset{}) + iset{(0, w.region)};
    var warps' := warps + [w];
    StageParts(chunks, height, roots, nets, warps + [w0], iset{});
    OneMore(warps, w0, w);
    SameReasons(ShapeOf(chunks), Flags(chunks), roots, warps + [w0], warps', iset{});
    StageFrom(chunks, height, roots, nets, warps', iset{});
    StageRoot(chunks, height, roots, nets, warps', iset{}, h - w.level);
    WarpAdded(height, roots, warps, w, h);
    InsertMore(warps, w);
    StageCloses(chunks + [Filled(false, Group(0))], height + [h - w.level], roots + {|chunks|}, nets, warps',
                iset{}, h);
  }

  lemma OneMore(warps: seq<Warp>, w0: Warp, w: Warp)
    requires w0.region == w.region && w0.level == w.level
    ensures SameRegions(warps + [w0], warps + [w])
  {
  }

  lemma InsertMore(warps: seq<Warp>, w: Warp)
    ensures InsertNets(warps + [w], iset{}) == InsertNets(warps, iset{}) + iset{(0, w.region)}
  {
    var warps' := warps + [w];
    forall x: (nat, Net)
      ensures x in InsertNets(warps', iset{}) <==> x in InsertNets(warps, iset{}) + iset{(0, w.region)}
    {
      if x in InsertNets(warps, iset{}) && x.0 == 0 {
        var j :| 0 <= j < |warps| && x.1 == warps[j].region;
        assert warps'[j] == warps[j];
      }
      assert warps'[|warps|] == w;
    }
  }

  lemma WarpAdded(height: seq<nat>, roots: set<nat>, warps: seq<Warp>, w: Warp, h: nat)
    requires IsRegion(w.region, w.level, h) && ApartFrom(warps, w.region) && RegionsApart(warps)
    requires Knows(InsertNets(warps, iset{}), warps, iset{}, h) && WarpRoots(height, roots, warps, h)
    requires w.chunk == |height| > 0 && height[0] == h && w.level < h
    ensures Knows(InsertNets(warps + [w], iset{}), warps + [w], iset{}, h) && RegionsApart(warps + [w])
            && SeenFits(warps + [w], iset{})
    ensures WarpRoots(height + [h - w.level], roots + {|height|}, warps + [w], h)
    ensures |height + [h - w.level]| > 0 && (height + [h - w.level])[0] == h
  {
    hide IsRegion, RegionsApart, WarpRoots, Knows;
    ApartMore(warps, w);
    KnowsMore(warps, w, h);
    RootsMore(height, roots, warps, w, h);
  }

  lemma ApartMore(warps: seq<Warp>, w: Warp)
    requires ApartFrom(warps, w.region) && RegionsApart(warps)
    ensures RegionsApart(warps + [w])
  {
    hide Disjoint;
    var warps' := warps + [w];
    assert forall j | 0 <= j < |warps| :: warps'[j] == warps[j];
    forall j | 0 <= j < |warps|
      ensures Disjoint(warps[j].region, w.region) && Disjoint(w.region, warps[j].region)
    {
      DisjointSym(w.region, warps[j].region);
    }
  }

  lemma KnowsMore(warps: seq<Warp>, w: Warp, h: nat)
    requires IsRegion(w.region, w.level, h) && Knows(InsertNets(warps, iset{}), warps, iset{}, h)
    ensures Knows(InsertNets(warps + [w], iset{}), warps + [w], iset{}, h)
  {
    hide IsRegion;
    var warps' := warps + [w];
    assert forall j | 0 <= j < |warps| :: warps'[j] == warps[j];
  }

  lemma RootsMore(height: seq<nat>, roots: set<nat>, warps: seq<Warp>, w: Warp, h: nat)
    requires WarpRoots(height, roots, warps, h) && w.chunk == |height| > 0 && w.level < h
    ensures WarpRoots(height + [h - w.level], roots + {|height|}, warps + [w], h)
  {
    var warps' := warps + [w];
    assert forall j | 0 <= j < |warps| :: warps'[j] == warps[j];
    assert forall j | 0 <= j < |warps| :: warps[j].chunk < |height|;
  }

  lemma WarpMaskIs(n: Net, h: nat)
    requires |n.addr| == |n.mask| == h > 0 && !Contiguous(n.mask) && Supported(n)
    ensures IsRegion(RegionOf(n), GapLevel(n), h) && GapLevel(n) < h
    ensures FillTail(n.mask) == RegionOf(n).mask[..GapLevel(n)] + Ones(h - GapLevel(n))
  {
    RegionIs(n, h);
    GapParts(n.mask);
    var z := GapStart(n.mask);
    hide Contiguous, ClearTail, ByteAligned, FillTail, TailStart, IsRegion;
    assert forall t | 0 <= t < h :: FillTail(n.mask)[t] == (RegionOf(n).mask[..GapLevel(n)] + Ones(h - GapLevel(n)))[t];
  }

  lemma ApartAll(warps: seq<Warp>, n: Net, h: nat)
    requires |n.addr| == |n.mask| == h && Regions(warps, h)
    requires forall i | 0 <= i < |warps| ::
               |warps[i].region.addr| == |warps[i].region.mask| == h && !Overlaps(n, warps[i].region)
    ensures ApartFrom(warps, n)
  {
    hide Overlaps, Disjoint;
    forall i | 0 <= i < |warps|
      ensures Disjoint(n, warps[i].region)
    {
      ApartRegions(n, warps[i].region);
    }
  }

  ghost predicate HasWarp(warps: seq<Warp>, n: Net)
    requires |n.addr| == |n.mask|
  {
    exists i :: 0 <= i < |warps| && WarpOf(warps[i], n)
  }

  lemma WarpsSized(chunks: seq<Chunk>, height: seq<nat>, roots: set<nat>, warps: seq<Warp>, seen: iset<Net>, h: nat)
    requires Stage(chunks, height, roots, warps, seen, h)
    ensures Regions(warps, h) && forall i | 0 <= i < |warps| :: |warps[i].region.addr| == |warps[i].region.mask| == h
    ensures forall i | 0 <= i < |warps| :: warps[i].level < h
  {
    hide Staged, GapsFilled, RegionsApart, SeenFits, WarpRoots;
  }

  lemma HasWarpAt(warps: seq<Warp>, n: Net, i: nat)
    requires |n.addr| == |n.mask| && i < |warps| && WarpOf(warps[i], n)
    ensures HasWarp(warps, n)
  {
    hide WarpOf;
  }

  lemma GappedSizes(chunks: seq<Chunk>, was: seq<nat>, height: seq<nat>, roots: set<nat>, nets: iset<(nat, Net)>,
                    warps: seq<Warp>, w0: Warp, h: nat)
    requires Extends(was, height) && WarpRoots(was, roots, warps, h) && |was| > 0 && was[0] == h
    requires Staged(chunks, height, roots, nets + iset{(0, w0.region)}, warps + [w0], iset{})
    ensures |height| == |chunks| > 0 && height[0] == h && WarpRoots(height, roots, warps, h)
  {
    hide Staged;
    StageParts(chunks, height, roots, nets + iset{(0, w0.region)}, warps + [w0], iset{});
  }

  lemma WarpIs(n: Net, w: Warp)
    requires |n.addr| == |n.mask| && w.region == RegionOf(n) && w.level == GapLevel(n)
    ensures WarpOf(w, n)
  {
  }

  // ----- preparing a simple prefix ----------------------------------------------------------

  /** The test of `prepare_simple`: the prefix lies in the region of the warp and ends inside its gap. */
  predicate EndsInGap(n: Net, w: Warp)
    requires |n.addr| == |n.mask| == |w.region.addr| == |w.region.mask|
  {
    Length(n.mask) > Length(w.region.mask) && Length(n.mask) <= 8 * w.level && Meets(w.region, n.addr)
  }

  lemma EndsInside(n: Net, w: Warp, h: nat)
    requires |n.addr| == |n.mask| == h && IsRegion(w.region, w.level, h) && LeadingOnes(n.mask)
    ensures |w.region.addr| == |w.region.mask| == h
    ensures if EndsInGap(n, w) then Inside(n, w.region) && ZeroFrom(n.mask, w.level) else Harmless(n, w)
  {
    assert LeadingOnes(w.region.mask);
    hide Leading, LeadingOnes, Meets, Inside, Disjoint, IsRegion;
    LengthBytes(n.mask, w.level);
    if Length(n.mask) > Length(w.region.mask) {
      LengthOrder(w.region.mask, n.mask);
      Nested(n, w.region);
    } else {
      LengthOrder(n.mask, w.region.mask);
      Nested(w.region, n);
      if Disjoint(w.region, n) {
        DisjointSym(w.region, n);
      }
    }
  }

  ghost predicate After(seen: iset<Net>, n: Net) {
    forall m | m in seen :: Disjoint(n, m) || Inside(n, m)
  }

  lemma InsideComparable(warps: seq<Warp>, seen: iset<Net>, i: nat, n: Net, h: nat)
    requires i < |warps| && Inside(n, warps[i].region) && RegionsApart(warps) && After(seen, n)
    requires Knows(InsertNets(warps, seen), warps, seen, h) && |n.addr| == |n.mask| == h
    ensures Comparable(InsertNets(warps, seen), n)
  {
    hide IsRegion;
    forall m | (0, m) in InsertNets(warps, seen)
      ensures Disjoint(n, m) || Inside(n, m)
    {
      if m !in seen {
        var j :| 0 <= j < |warps| && m == warps[j].region;
        if j != i {
          KnowsRegion(InsertNets(warps, seen), warps, seen, h, i);
          RegionSizes(warps[i].region, warps[i].level, h);
          KnowsRegion(InsertNets(warps, seen), warps, seen, h, j);
          RegionSizes(m, warps[j].level, h);
          InsideDisjoint(n, warps[i].region, m);
        }
      }
    }
  }

  lemma InsideDisjoint(n: Net, r: Net, m: Net)
    requires Inside(n, r) && Disjoint(r, m) && |n.mask| == |r.mask| == |m.mask|
    ensures Disjoint(n, m)
  {
    hide Covers;
  }

  lemma OneRegionInside(warps: seq<Warp>, i: nat, j: nat, n: Net, h: nat)
    requires i < |warps| && j < |warps| && RegionsApart(warps) && Inside(n, warps[i].region)
             && Inside(n, warps[j].region)
    requires |n.addr| == |n.mask| == |warps[i].region.mask| == |warps[j].region.mask| == h
    ensures i == j
  {
    hide Covers;
    CoversItself(n);
  }

  lemma SimpleReady(chunks: seq<Chunk>, height: seq<nat>, roots: set<nat>, warps: seq<Warp>, seen: iset<Net>, i: nat,
                    n: Net, h: nat)
    requires Stage(chunks, height, roots, warps, seen, h) && i < |warps| && Inside(n, warps[i].region) && After(seen, n)
    requires |n.addr| == |n.mask| == h > 0 && LeadingOnes(n.mask) && ZeroFrom(n.mask, warps[i].level)
    ensures Preparing(chunks, height, roots, InsertNets(warps, seen), warps, seen, i, n, h) && Sized(chunks)
    ensures FullTo(n, []) && 0 < |chunks| == |height| && Walk(ShapeOf(chunks), 0, []) == Some(0) && !chunks[0].multirefs
            && height[0] == h
  {
    var nets := InsertNets(warps, seen);
    hide *;
    StageOpens(chunks, height, roots, warps, seen, h);
    StageParts(chunks, height, roots, nets, warps, seen);
    RootPrivate(ShapeOf(chunks), Flags(chunks), roots, warps, seen);
    forall x | PrivateBy(warps, seen, x)
      ensures PrivateBy(warps, seen + iset{n}, x)
    {
      PrivateAny(warps, seen, seen + iset{n}, x);
    }
    ReasonsMore(ShapeOf(chunks), Flags(chunks), roots, warps, warps, seen, seen + iset{n});
    StageFrom(chunks, height, roots, nets, warps, seen + iset{n});
    InsideComparable(warps, seen, i, n, h);
    FullAny(n);
    PreparingIs(chunks, height, roots, nets, warps, seen, i, n, h);
  }

  lemma FullAny(n: Net)
    requires |n.addr| == |n.mask| > 0
    ensures FullTo(n, [])
  {
  }

  lemma PreparingIs(chunks: seq<Chunk>, height: seq<nat>, roots: set<nat>, nets: iset<(nat, Net)>, warps: seq<Warp>,
                    seen: iset<Net>,
                    i: nat, n: Net, h: nat)
    requires Staged(chunks, height, roots, nets, warps, seen + iset{n}) && Sized(chunks)
             && GapsFilled(ShapeOf(chunks), warps)
    requires |height| > 0 && height[0] == h
    requires Knows(nets, warps, seen, h) && RegionsApart(warps) && Comparable(nets, n) && SeenFits(warps, seen)
    requires i < |warps| && Inside(n, warps[i].region)
    requires |n.addr| == |n.mask| == h && LeadingOnes(n.mask) && ZeroFrom(n.mask, warps[i].level)
    ensures Preparing(chunks, height, roots, nets, warps, seen, i, n, h)
  {
    hide Staged, GapsFilled, Knows, RegionsApart, Comparable, SeenFits, Inside, LeadingOnes, ZeroFrom;
  }

  lemma SimpleDone(chunks: seq<Chunk>, was: seq<nat>, height: seq<nat>, roots: set<nat>, warps: seq<Warp>,
                   seen: iset<Net>, i: nat, n: Net, h: nat)
    requires Staged(chunks, height, roots, InsertNets(warps, seen) + iset{(0, n)}, warps, seen + iset{n})
    requires Sized(chunks) && GapsFilled(ShapeOf(chunks), warps) && Extends(was, height)
    requires Knows(InsertNets(warps, seen), warps, seen, h) && RegionsApart(warps) && SeenFits(warps, seen)
    requires WarpRoots(was, roots, warps, h) && |was| > 0 && was[0] == h
    requires i < |warps| && Inside(n, warps[i].region) && |n.addr| == |n.mask| == h && ZeroFrom(n.mask, warps[i].level)
    ensures Stage(chunks, height, roots, warps, seen + iset{n}, h)
            && Handled(InsertNets(warps, seen + iset{n}), warps, n)
  {
    hide *;
    SeenMore(warps, seen, i, n, h);
    RootsKept(was, height, roots, warps, h);
    StageCloses(chunks, height, roots, InsertNets(warps, seen) + iset{(0, n)}, warps, seen + iset{n}, h);
  }

  lemma RootsKept(was: seq<nat>, height: seq<nat>, roots: set<nat>, warps: seq<Warp>, h: nat)
    requires Extends(was, height) && WarpRoots(was, roots, warps, h) && |was| > 0 && was[0] == h
    ensures |height| > 0 && height[0] == h && WarpRoots(height, roots, warps, h)
  {
  }

  lemma SeenMore(warps: seq<Warp>, seen: iset<Net>, i: nat, n: Net, h: nat)
    requires Knows(InsertNets(warps, seen), warps, seen, h) && SeenFits(warps, seen) && |n.addr| == |n.mask| == h
    requires i < |warps| && Inside(n, warps[i].region) && ZeroFrom(n.mask, warps[i].level)
    ensures InsertNets(warps, seen) + iset{(0, n)} == InsertNets(warps, seen + iset{n})
    ensures Knows(InsertNets(warps, seen + iset{n}), warps, seen + iset{n}, h) && SeenFits(warps, seen + iset{n})
    ensures Handled(InsertNets(warps, seen + iset{n}), warps, n)
  {
    hide Inside, ZeroFrom, IsRegion;
  }

  lemma HandledIs(nets: iset<(nat, Net)>, warps: seq<Warp>, n: Net)
    requires forall j | 0 <= j < |warps| :: Harmless(n, warps[j])
    ensures Handled(nets, warps, n)
  {
    hide Harmless;
  }

  // ----- the list of prefixes ---------------------------------------------------------------

  ghost predicate Sizes(prefixes: seq<Net>, h: nat) {
    h > 0 && forall i | 0 <= i < |prefixes| :: |prefixes[i].addr| == |prefixes[i].mask| == h
  }

  lemma OverlapsSym(n: Net, m: Net)
    requires |n.addr| == |n.mask| == |m.addr| == |m.mask|
    ensures Overlaps(n, m) <==> Overlaps(m, n)
  {
    forall t | 0 <= t < |n.addr|
      ensures Agree(n.addr[t], n.mask[t] & m.mask[t], m.addr[t]) <==> Agree(m.addr[t], m.mask[t] & n.mask[t], n.addr[t])
    {
      AgreeSym(n.addr[t], n.mask[t], m.addr[t], m.mask[t]);
    }
    hide Agree;
  }

  lemma AgreeSym(a: bv8, m: bv8, b: bv8, k: bv8)
    ensures Agree(a, m & k, b) <==> Agree(b, k & m, a)
  {
  }

  /** The warp of a prefix. */
  lemma OneWarp(warps: seq<Warp>, n: Net) returns (j: nat)
    requires |n.addr| == |n.mask| && HasWarp(warps, n)
    ensures j < |warps| && WarpOf(warps[j], n)
  {
    hide WarpOf;
    j :| 0 <= j < |warps| && WarpOf(warps[j], n);
  }

  /** The simple prefixes are normalised and kept in order. */
  ghost predicate InOrder(prefixes: seq<Net>) {
    && (forall i | 0 <= i < |prefixes| && Contiguous(prefixes[i].mask) :: Normal(prefixes[i]))
    && (forall i, j | 0 <= i < j < |prefixes| && Contiguous(prefixes[i].mask) && Contiguous(prefixes[j].mask) ::
          Before(prefixes[i], prefixes[j]))
  }

  ghost function SimpleOf(prefixes: seq<Net>): iset<Net> {
    iset n | n in prefixes && Contiguous(n.mask)
  }

  /** The simple prefixes seen so far are among the first k, and these are taken care of. */
  ghost predicate SimpleDoneTo(prefixes: seq<Net>, k: nat, warps: seq<Warp>, seen: iset<Net>) {
    && (forall m | m in seen :: exists i :: 0 <= i < |prefixes| && i < k && m == prefixes[i] && Contiguous(m.mask))
    && (forall i | 0 <= i < |prefixes| && i < k && Contiguous(prefixes[i].mask) ::
          Handled(InsertNets(warps, seen), warps, prefixes[i]))
  }

  lemma SimpleNext(prefixes: seq<Net>, k: nat, warps: seq<Warp>, seen: iset<Net>, h: nat)
    requires Sizes(prefixes, h) && InOrder(prefixes) && SimpleDoneTo(prefixes, k, warps, seen)
    requires k < |prefixes| && Contiguous(prefixes[k].mask)
    ensures After(seen, prefixes[k]) && LeadingOnes(prefixes[k].mask)
  {
    hide Contiguous, Handled, Disjoint, Inside, Normal, Before, LeadingOnes;
    ContiguousLeading(prefixes[k].mask);
    forall m | m in seen
      ensures Disjoint(prefixes[k], m) || Inside(prefixes[k], m)
    {
      var i :| 0 <= i < |prefixes| && i < k && m == prefixes[i] && Contiguous(m.mask);
      ContiguousLeading(m.mask);
      OrderedNested(m, prefixes[k]);
    }
  }

  lemma SimpleDoneStep(prefixes: seq<Net>, k: nat, warps: seq<Warp>, seen: iset<Net>, seen': iset<Net>)
    requires SimpleDoneTo(prefixes, k, warps, seen) && k < |prefixes| && Contiguous(prefixes[k].mask)
    requires (seen' == seen || seen' == seen + iset{prefixes[k]})
             && Handled(InsertNets(warps, seen'), warps, prefixes[k])
    ensures SimpleDoneTo(prefixes, k + 1, warps, seen')
  {
    hide Contiguous, Harmless;
    forall i | 0 <= i < k && Contiguous(prefixes[i].mask)
      ensures Handled(InsertNets(warps, seen'), warps, prefixes[i])
    {
      assert Handled(InsertNets(warps, seen), warps, prefixes[i]);
    }
  }

  lemma SimpleAll(chunks: seq<Chunk>, height: seq<nat>, roots: set<nat>, prefixes: seq<Net>, warps: seq<Warp>,
                  seen: iset<Net>, h: nat)
    requires Stage(chunks, height, roots, warps, seen, h) && Sizes(prefixes, h)
             && SimpleDoneTo(prefixes, |prefixes|, warps, seen)
    ensures Prepared(chunks, height, roots, InsertNets(warps, SimpleOf(prefixes)), warps) && Blank(chunks)
  {
    hide Stage, InsertNets, Handled, Prepared, Blank, Contiguous;
    StageOpens(chunks, height, roots, warps, seen, h);
    StageParts(chunks, height, roots, InsertNets(warps, seen), warps, seen);
    forall n | n in SimpleOf(prefixes)
      ensures Handled(InsertNets(warps, seen), warps, n) && |n.addr| == |n.mask| == h
    {
      var i :| 0 <= i < |prefixes| && prefixes[i] == n;
    }
    StagePrepared(chunks, height, roots, InsertNets(warps, seen), warps, seen, SimpleOf(prefixes), h);
  }

  /** A gapped network is its region and, from the last part of its mask on, a network without a gap. */
  lemma TailCovers(n: Net, w: Warp, h: nat)
    requires |n.addr| == |n.mask| == h > 0 && !Contiguous(n.mask) && Supported(n) && WarpOf(w, n)
    ensures 0 < w.level < h && Contiguous(n.mask[w.level..]) && !AllZero(n.mask[w.level..])
    ensures forall x: Digits | |x| == h ::
              Covers(n, x)
              <==> Covers(w.region, x[..w.level]) && Covers(Net(n.addr[w.level..], n.mask[w.level..]), x[w.level..])
  {
    hide Contiguous, ClearTail, FillTail, TailStart, ByteAligned, LeadingOnes;
    GapParts(n.mask);
    var l := w.level;
    assert forall t | 0 <= t < l :: w.region.mask[t] == n.mask[t] && w.region.addr[t] == n.addr[t] & n.mask[t];
    hide WarpOf, Supported, RegionOf, GapLevel;
    forall x: Digits | |x| == h
      ensures Covers(n, x) <==> Covers(w.region, x[..l]) && Covers(Net(n.addr[l..], n.mask[l..]), x[l..])
    {
      SplitCovers(n, w.region, l, x);
    }
  }

  lemma SplitCovers(n: Net, r: Net, l: nat, x: Digits)
    requires |n.addr| == |n.mask| == |r.addr| == |r.mask| == |x| && l < |x|
    requires forall t | 0 <= t < l :: r.mask[t] == n.mask[t] && r.addr[t] == n.addr[t] & n.mask[t]
    ensures Covers(n, x) <==> Covers(r, x[..l]) && Covers(Net(n.addr[l..], n.mask[l..]), x[l..])
  {
    var tail := Net(n.addr[l..], n.mask[l..]);
    forall t | 0 <= t < l
      ensures Agree(x[t], n.mask[t], n.addr[t]) <==> Agree(x[..l][t], r.mask[t], r.addr[t])
    {
      AgreeMasked(x[t], n.mask[t], n.addr[t]);
    }
    hide Agree;
    forall t | l <= t < |x|
      ensures Agree(x[t], n.mask[t], n.addr[t]) <==> Agree(x[l..][t - l], tail.mask[t - l], tail.addr[t - l])
    {
    }
    if Covers(r, x[..l]) && Covers(tail, x[l..]) {
      forall t | 0 <= t < |x|
        ensures Agree(x[t], n.mask[t], n.addr[t])
      {
        if t >= l {
          assert Agree(x[l..][t - l], tail.mask[t - l], tail.addr[t - l]);
        } else {
          assert Agree(x[..l][t], r.mask[t], r.addr[t]);
        }
      }
    }
  }

  lemma AgreeMasked(x: bv8, m: bv8, a: bv8)
    ensures Agree(x, m, a) <==> Agree(x, m, a & m)
  {
  }

  // ----- the addresses of a network ---------------------------------------------------------

  /** The cells that inserting the network visits: its addresses, or those of its last part below its warp. */
  ghost function CellsOf(warps: seq<Warp>, n: Net): iset<Cell>
    requires |n.addr| == |n.mask|
  {
    iset x: Cell | if Contiguous(n.mask) then x in NetCells(0, n)
                   else exists i ::
                          0 <= i < |warps| && WarpOf(warps[i], n)
                          && x in NetCells(warps[i].chunk, TailOf(n, warps[i].level))
  }

  ghost function TailOf(n: Net, l: nat): Net
    requires |n.addr| == |n.mask|
  {
    if l <= |n.addr| then Net(n.addr[l..], n.mask[l..]) else n
  }

  lemma WarpsKept(height: seq<nat>, height': seq<nat>, roots: set<nat>, nets: iset<(nat, Net)>, warps: seq<Warp>)
    requires WarpsFit(height, roots, nets, warps) && Extends(height, height') && |height| > 0
    ensures WarpsFit(height', roots, nets, warps)
  {
    hide Leading, Covers;
  }

  /** Two warps are not of one network. */
  lemma WarpUnique(height: seq<nat>, roots: set<nat>, nets: iset<(nat, Net)>, warps: seq<Warp>, n: Net, i: nat, j: nat)
    requires WarpsFit(height, roots, nets, warps) && i < |warps| && j < |warps| && |n.addr| == |n.mask|
    requires WarpOf(warps[i], n) && WarpOf(warps[j], n)
    ensures i == j
  {
    hide Covers, Leading, RegionOf, GapLevel;
    assert WarpFits(height, roots, nets, warps[i]) && WarpFits(height, roots, nets, warps[j]);
    CoversItself(warps[i].region);
  }

  lemma CellsOfWarp(height: seq<nat>, roots: set<nat>, nets: iset<(nat, Net)>, warps: seq<Warp>, n: Net, i: nat)
    requires WarpsFit(height, roots, nets, warps) && i < |warps| && |n.addr| == |n.mask| && !Contiguous(n.mask)
             && WarpOf(warps[i], n)
    ensures CellsOf(warps, n) == NetCells(warps[i].chunk, TailOf(n, warps[i].level))
  {
    hide NetCells, TailOf, WarpsFit, Contiguous, WarpOf;
    forall x: Cell
      ensures x in CellsOf(warps, n) <==> x in NetCells(warps[i].chunk, TailOf(n, warps[i].level))
    {
      if x in CellsOf(warps, n) {
        var j :| 0 <= j < |warps| && WarpOf(warps[j], n) && x in NetCells(warps[j].chunk, TailOf(n, warps[j].level));
        WarpUnique(height, roots, nets, warps, n, i, j);
      }
    }
  }

  lemma RootsPrivate(chunks: seq<Chunk>, height: seq<nat>, roots: set<nat>, nets: iset<(nat, Net)>, warps: seq<Warp>)
    requires Prepared(chunks, height, roots, nets, warps)
    ensures forall r | r in roots :: r < |chunks| && !chunks[r].multirefs
    ensures forall i | 0 <= i < |warps| :: warps[i].chunk in roots && warps[i].chunk != 0
  {
    hide Aligned, Exact, Layered, InGap;
    forall r | r in roots
      ensures r < |chunks| && !chunks[r].multirefs
    {
      assert Walk(ShapeOf(chunks), r, []) == Some(r);
      assert Flags(chunks)[r] == chunks[r].multirefs;
    }
  }

  lemma NetListed(warps: seq<Warp>, simple: iset<Net>, n: Net)
    requires n in simple
    ensures (0, n) in InsertNets(warps, simple)
  {
  }

  lemma WarpListed(height: seq<nat>, roots: set<nat>, nets: iset<(nat, Net)>, warps: seq<Warp>, simple: iset<Net>,
                   i: nat, n: Net)
    requires nets == InsertNets(warps, simple) && WarpsFit(height, roots, nets, warps) && i < |warps|
    ensures (warps[i].chunk, n) in nets && warps[i].chunk in roots
  {
    assert WarpFits(height, roots, nets, warps[i]);
  }

  lemma CellsOfSimple(warps: seq<Warp>, n: Net)
    requires |n.addr| == |n.mask| && Contiguous(n.mask)
    ensures CellsOf(warps, n) == NetCells(0, n)
  {
  }
}
