/**
  The chunks at the end of a gap (`get_last_gapped_chunks_step`) and what the merge of all gapped
  prefixes does to the addresses.
*/
module TreeGaps {
  import opened Base
  import opened Nets
  import opened ChunkForest
  import opened TreeInsert
  import opened TreeMerge

  ghost predicate WarpFits(height: seq<nat>, roots: set<nat>, nets: iset<(nat, Net)>, w: Warp) {
    && 0 in roots && Rooted(height, roots) && w.chunk in roots && w.chunk != 0
    && 0 < w.level < height[0] && height[w.chunk] + w.level == height[0]
    && |w.region.addr| == |w.region.mask| == height[0] && (0, w.region) in nets
    && (forall t | 0 <= t < w.level :: Leading(w.region.mask[t]))
    && (forall t | w.level <= t < height[0] :: w.region.mask[t] == 0)
    && w.region.mask[w.level - 1] != 0xFF
  }

  /** The gapped prefixes have chunks of their own and lie in disjoint regions. */
  ghost predicate WarpsFit(height: seq<nat>, roots: set<nat>, nets: iset<(nat, Net)>, warps: seq<Warp>) {
    && (forall i | 0 <= i < |warps| :: WarpFits(height, roots, nets, warps[i]))
    && (forall i, j | 0 <= i < |warps| && 0 <= j < |warps| && warps[i].chunk == warps[j].chunk :: i == j)
    && (forall i, j, x: Digits | 0 <= i < |warps| && 0 <= j < |warps| && |height| > 0 && |x| == height[0]
                                 && Covers(warps[i].region, x) && Covers(warps[j].region, x) :: i == j)
  }

  /** The chunks reached from root 0 at the level of the warp, inside its region. */
  ghost predicate IsLast(s: Shape, w: Warp, c: nat) {
    exists p: Digits :: |p| == w.level && Covers(w.region, p) && Walk(s, 0, p) == Some(c)
  }

  ghost predicate Prepared(chunks: seq<Chunk>, height: seq<nat>, roots: set<nat>, nets: iset<(nat, Net)>,
                           warps: seq<Warp>) {
    && WellFormed(chunks, height) && Rooted(height, roots) && 0 in roots && Exact(ShapeOf(chunks), height)
    && Aligned(ShapeOf(chunks), Flags(chunks), roots, nets) && Gaps(ShapeOf(chunks), Flags(chunks), roots, warps)
    && WarpsFit(height, roots, nets, warps)
  }

  /** A path in two regions, at least as long as the level of one of them, cannot be. */
  lemma OneRegion(height: seq<nat>, roots: set<nat>, nets: iset<(nat, Net)>, warps: seq<Warp>, i: nat, j: nat,
                  x: Digits)
    requires WarpsFit(height, roots, nets, warps) && i < |warps| && j < |warps|
    requires warps[i].level <= |x| <= height[0] && Covers(warps[i].region, x) && Covers(warps[j].region, x)
    ensures i == j
  {
    hide Agree, Leading;
    var ri, rj := warps[i].region, warps[j].region;
    assert WarpFits(height, roots, nets, warps[i]) && WarpFits(height, roots, nets, warps[j]);
    var a := x + rj.addr[|x|..];
    forall t | 0 <= t < |a|
      ensures Agree(a[t], ri.mask[t], ri.addr[t]) && Agree(a[t], rj.mask[t], rj.addr[t])
    {
      if t < |x| {
        assert a[t] == x[t];
      } else {
        AgreeEnds(a[t], ri.addr[t]);
        assert a[t] == rj.addr[t];
        AgreeSelf(a[t], rj.mask[t]);
      }
    }
    assert Covers(ri, a) && Covers(rj, a);
  }

  lemma AgreeSelf(x: bv8, m: bv8)
    ensures Agree(x, m, x)
  {
  }

  lemma CoversMore(w: Warp, height: seq<nat>, roots: set<nat>, nets: iset<(nat, Net)>, p: Digits, t: Digits)
    requires WarpFits(height, roots, nets, w) && |p| >= w.level && Covers(w.region, p)
    ensures Covers(w.region, p + t) && Level(w.region.mask) < |p|
  {
    hide Agree, Leading;
    forall i | 0 <= i < |p + t| && i < |w.region.mask|
      ensures Agree((p + t)[i], w.region.mask[i], w.region.addr[i])
    {
      if i < |p| {
        assert (p + t)[i] == p[i];
      } else {
        AgreeEnds((p + t)[i], w.region.addr[i]);
      }
    }
    LevelBelow(w.region.mask, w.level);
  }

  lemma {:induction false} LevelBelow(mask: Bytes, n: nat)
    requires |mask| > 0 && n > 0 && forall i | n <= i < |mask| :: mask[i] == 0
    ensures Level(mask) < n
    decreases n
  {
    assert forall i | 0 <= i < |mask[1..]| :: mask[1..][i] == mask[i + 1];
    if !AllZero(mask[1..]) {
      LevelBelow(mask[1..], n - 1);
    }
  }

  /** Below the level of a gap no chunk is shared. */
  lemma NotShared(chunks: seq<Chunk>, height: seq<nat>, roots: set<nat>, nets: iset<(nat, Net)>, warps: seq<Warp>,
                  i: nat, x: Digits)
    requires Prepared(chunks, height, roots, nets, warps) && i < |warps|
    requires |x| > warps[i].level && Covers(warps[i].region, x) && Walk(ShapeOf(chunks), 0, x).Some?
    ensures Walk(ShapeOf(chunks), 0, x).value < |chunks| && !chunks[Walk(ShapeOf(chunks), 0, x).value].multirefs
  {
    var s := ShapeOf(chunks);
    WalkHeight(s, height, 0, x);
    var c := Walk(s, 0, x).value;
    hide Walk, Aligned, Exact, Layered, Covers;
    assert Flags(chunks)[c] == chunks[c].multirefs;
    if chunks[c].multirefs {
      var k :| 0 <= k < |warps| && |x| <= warps[k].level && Covers(warps[k].region, x);
      OneRegion(height, roots, nets, warps, i, k, x);
    }
  }

  /** The path to a chunk reached from the end of a gap lies in the region of that gap. */
  lemma ReachedInRegion(chunks: seq<Chunk>, height: seq<nat>, roots: set<nat>, nets: iset<(nat, Net)>, warps: seq<Warp>,
                        j: nat, o: nat, x: Digits)
    requires Prepared(chunks, height, roots, nets, warps) && j < |warps| && o < |chunks|
             && IsLast(ShapeOf(chunks), warps[j], o)
    requires Walk(ShapeOf(chunks), 0, x).Some? && Reaches(ShapeOf(chunks), height, o, Walk(ShapeOf(chunks), 0, x).value)
    ensures |x| >= warps[j].level && Covers(warps[j].region, x)
  {
    var s, w := ShapeOf(chunks), warps[j];
    assert WarpFits(height, roots, nets, w);
    var p: Digits :| |p| == w.level && Covers(w.region, p) && Walk(s, 0, p) == Some(o);
    var t := ReachWalk(s, height, o, Walk(s, 0, x).value);
    WalkSplit(s, 0, p, t);
    CoversMore(w, height, roots, nets, p, t);
    hide Walk, Layered, Exact, Gaps, Covers, Level;
    AlignedTwins(s, Flags(chunks), roots, nets, 0, x, 0, p + t);
  }

  /** The parts below the ends of gaps are disjoint. */
  lemma LastApart(chunks: seq<Chunk>, height: seq<nat>, roots: set<nat>, nets: iset<(nat, Net)>, warps: seq<Warp>,
                  i: nat, o: nat, j: nat, o': nat)
    requires Prepared(chunks, height, roots, nets, warps) && i < |warps| && j < |warps| && o < |chunks| && o' < |chunks|
    requires IsLast(ShapeOf(chunks), warps[i], o) && IsLast(ShapeOf(chunks), warps[j], o')
    ensures o == o' ==> i == j
    ensures o != o' ==> Apart(ShapeOf(chunks), height, o, o')
  {
    var s := ShapeOf(chunks);
    var wi, wj := warps[i], warps[j];
    assert WarpFits(height, roots, nets, wi) && WarpFits(height, roots, nets, wj);
    var p: Digits :| |p| == wi.level && Covers(wi.region, p) && Walk(s, 0, p) == Some(o);
    var q: Digits :| |q| == wj.level && Covers(wj.region, q) && Walk(s, 0, q) == Some(o');
    if o == o' {
      assert Reaches(s, height, o, o);
      ReachedInRegion(chunks, height, roots, nets, warps, i, o, q);
      OneRegion(height, roots, nets, warps, i, j, q);
    }
    forall c | o != o' && Reaches(s, height, o, c) && Reaches(s, height, o', c)
      ensures false
    {
      var t := ReachWalk(s, height, o, c);
      var u := ReachWalk(s, height, o', c);
      LastMeet(chunks, height, roots, nets, warps, i, p, t, j, q, u);
    }
  }

  lemma LastMeet(chunks: seq<Chunk>, height: seq<nat>, roots: set<nat>, nets: iset<(nat, Net)>, warps: seq<Warp>,
                 i: nat, p: Digits, t: Digits, j: nat, q: Digits, u: Digits)
    requires Prepared(chunks, height, roots, nets, warps) && i < |warps| && j < |warps|
    requires |p| == warps[i].level && Covers(warps[i].region, p) && Walk(ShapeOf(chunks), 0, p).Some?
    requires |q| == warps[j].level && Covers(warps[j].region, q) && Walk(ShapeOf(chunks), 0, q).Some?
    requires var s := ShapeOf(chunks);
             && Walk(s, Walk(s, 0, p).value, t).Some?
             && Walk(s, Walk(s, 0, p).value, t) == Walk(s, Walk(s, 0, q).value, u)
    ensures Walk(ShapeOf(chunks), 0, p) == Walk(ShapeOf(chunks), 0, q)
  {
    var s := ShapeOf(chunks);
    assert WarpFits(height, roots, nets, warps[i]) && WarpFits(height, roots, nets, warps[j]);
    WalkSplit(s, 0, p, t);
    WalkSplit(s, 0, q, u);
    CoversMore(warps[i], height, roots, nets, p, t);
    CoversMore(warps[j], height, roots, nets, q, u);
    var c := Walk(s, 0, p + t).value;
    WalkHeight(s, height, 0, p + t);
    assert Flags(chunks)[c] == chunks[c].multirefs;
    AlignedTwins(s, Flags(chunks), roots, nets, 0, p + t, 0, q + u);
    hide Aligned, Gaps, Layered, Exact, Covers, WarpFits;
    if chunks[c].multirefs {
      if t != [] { NotShared(chunks, height, roots, nets, warps, i, p + t); }
      if u != [] { NotShared(chunks, height, roots, nets, warps, j, q + u); }
      assert t == [] && u == [];
    } else {
      OneRegion(height, roots, nets, warps, i, j, p + t);
      assert p == (p + t)[..|p|] == (q + u)[..|q|] == q;
    }
  }

  // ----- the run of merges ------------------------------------------------------------------

  /** All group ids below the roots are below lo. */
  ghost predicate IdsBelow(chunks: seq<Chunk>, height: seq<nat>, roots: set<nat>, lo: nat)
    requires WellFormed(chunks, height) && Rooted(height, roots)
  {
    forall x | x in Labels(chunks, height, roots) :: Labels(chunks, height, roots)[x] < lo
  }

  lemma SlotIdBelow(chunks: seq<Chunk>, height: seq<nat>, roots: set<nat>, lo: nat, r: nat, p: Digits, d: bv8)
    requires WellFormed(chunks, height) && Rooted(height, roots) && IdsBelow(chunks, height, roots, lo) && r in roots
    requires Walk(ShapeOf(chunks), r, p).Some?
    requires var c := Walk(ShapeOf(chunks), r, p).value; c < |chunks| && chunks[c].At(d).Group?
    ensures chunks[Walk(ShapeOf(chunks), r, p).value].At(d).id < lo
  {
    var s := ShapeOf(chunks);
    var c := Walk(s, r, p).value;
    WalkHeight(s, height, r, p);
    var a := [d] + seq(height[r] - |p| - 1, _ => 0 as bv8);
    StopAlongWalk(s, height, r, p, a);
    assert Kid(s, c, d) == -1;
    LookupAtStop(chunks, height, r, p + a);
    assert (r, p + a) in Labels(chunks, height, roots);
  }

  /** What lies below the end of a gap is a tree of its own. */
  lemma LastLoose(chunks: seq<Chunk>, height: seq<nat>, roots: set<nat>, nets: iset<(nat, Net)>, warps: seq<Warp>,
                  z: set<nat>, lo: nat, i: nat, o: nat)
    requires Prepared(chunks, height, roots, nets, warps) && i < |warps| && o < |chunks|
    requires IsLast(ShapeOf(chunks), warps[i], o) && IdsBelow(chunks, height, roots, lo)
    requires forall x | x in z :: BelowWarp(chunks, height, warps, x)
    ensures Loose(chunks, height, z, lo, o)
  {
    var s, w := ShapeOf(chunks), warps[i];
    assert WarpFits(height, roots, nets, w);
    var p: Digits :| |p| == w.level && Covers(w.region, p) && Walk(s, 0, p) == Some(o);
    forall x | Reaches(s, height, o, x)
      ensures x !in z && 0 <= x < |chunks| && Branching(s, height, x)
      ensures forall d: bv8 | chunks[x].At(d).Group? :: chunks[x].At(d).id < lo
    {
      ReachHeight(s, height, o, x);
      var t := ReachWalk(s, height, o, x);
      WalkSplit(s, 0, p, t);
      CoversMore(w, height, roots, nets, p, t);
      forall d: bv8 | chunks[x].At(d).Group?
        ensures chunks[x].At(d).id < lo
      {
        SlotIdBelow(chunks, height, roots, lo, 0, p + t, d);
      }
      if x in z {
        var j :| 0 <= j < |warps| && warps[j].chunk < |chunks| && Reaches(s, height, warps[j].chunk, x);
        assert WarpFits(height, roots, nets, warps[j]);
        var u := ReachWalk(s, height, warps[j].chunk, x);
        AlignedTwins(s, Flags(chunks), roots, nets, 0, p + t, warps[j].chunk, u);
      }
      PathBranching(chunks, height, roots, nets, warps, i, p + t);
    }
  }

  lemma PathBranching(chunks: seq<Chunk>, height: seq<nat>, roots: set<nat>, nets: iset<(nat, Net)>, warps: seq<Warp>,
                      i: nat, x: Digits)
    requires Prepared(chunks, height, roots, nets, warps) && i < |warps|
    requires |x| >= warps[i].level && Covers(warps[i].region, x) && Walk(ShapeOf(chunks), 0, x).Some?
    ensures Branching(ShapeOf(chunks), height, Walk(ShapeOf(chunks), 0, x).value)
  {
    hide Apart, Walk, Covers, Aligned, Gaps, WarpFits, WarpsFit, Rooted, Kid;
    var s := ShapeOf(chunks);
    PreparedParts(chunks, height, roots, nets, warps);
    WalkHeight(s, height, 0, x);
    var c := Walk(s, 0, x).value;
    forall d, e | d != e && Kid(s, c, d) >= 0 && Kid(s, c, e) >= 0
      ensures Apart(s, height, Kid(s, c, d), Kid(s, c, e))
    {
      KidsApart(chunks, height, roots, nets, warps, i, x, c, d, e);
    }
  }

  lemma KidsApart(chunks: seq<Chunk>, height: seq<nat>, roots: set<nat>, nets: iset<(nat, Net)>, warps: seq<Warp>,
                  i: nat, x: Digits, c: nat, d: bv8, e: bv8)
    requires Prepared(chunks, height, roots, nets, warps) && i < |warps|
    requires |x| >= warps[i].level && Covers(warps[i].region, x) && Walk(ShapeOf(chunks), 0, x) == Some(c)
    requires var s := ShapeOf(chunks); d != e && 0 <= Kid(s, c, d) < |s| && 0 <= Kid(s, c, e) < |s|
    ensures Apart(ShapeOf(chunks), height, Kid(ShapeOf(chunks), c, d), Kid(ShapeOf(chunks), c, e))
  {
    hide Covers, Walk, Kid, Reaches, Aligned, Gaps, Exact, WarpFits, WarpsFit;
    var s := ShapeOf(chunks);
    if y :| Reaches(s, height, Kid(s, c, d), y) && Reaches(s, height, Kid(s, c, e), y) {
      var t := ReachWalk(s, height, Kid(s, c, d), y);
      var u := ReachWalk(s, height, Kid(s, c, e), y);
      KidsMeet(chunks, height, roots, nets, warps, i, x, d, t, e, u);
    }
  }

  lemma WalkThrough(s: Shape, c: nat, x: Digits, d: bv8, t: Digits)
    requires Walk(s, c, x).Some? && Kid(s, Walk(s, c, x).value, d) >= 0
    ensures Walk(s, c, x + [d] + t) == Walk(s, Kid(s, Walk(s, c, x).value, d), t)
  {
    assert (x + [d])[..|x|] == x;
    WalkSplit(s, c, x + [d], t);
  }

  lemma KidsMeet(chunks: seq<Chunk>, height: seq<nat>, roots: set<nat>, nets: iset<(nat, Net)>, warps: seq<Warp>,
                 i: nat, x: Digits, d: bv8, t: Digits, e: bv8, u: Digits)
    requires Prepared(chunks, height, roots, nets, warps) && i < |warps|
    requires |x| >= warps[i].level && Covers(warps[i].region, x) && Walk(ShapeOf(chunks), 0, x).Some?
    requires var s, c := ShapeOf(chunks), Walk(ShapeOf(chunks), 0, x).value;
             && Kid(s, c, d) >= 0 && Kid(s, c, e) >= 0
             && Walk(s, Kid(s, c, d), t).Some? && Walk(s, Kid(s, c, d), t) == Walk(s, Kid(s, c, e), u)
    ensures d == e
  {
    hide Aligned, Gaps, Layered, Exact, Covers, WarpFits, Walk, Kid;
    var s := ShapeOf(chunks);
    WalkThrough(s, 0, x, d, t);
    WalkThrough(s, 0, x, e, u);
    var y, y' := x + [d] + t, x + [e] + u;
    assert WarpFits(height, roots, nets, warps[i]);
    assert y == x + ([d] + t) && y[|x|] == d && y'[|x|] == e;
    CoversMore(warps[i], height, roots, nets, x, [d] + t);
    NotShared(chunks, height, roots, nets, warps, i, y);
    AlignedTwins(s, Flags(chunks), roots, nets, 0, y, 0, y');
  }

  ghost predicate ReachedFrom(s: Shape, height: seq<nat>, done: set<nat>, x: int)
    requires Layered(s, height) && forall o | o in done :: o < |s|
  {
    exists o :: o in done && Reaches(s, height, o, x)
  }

  /** The ids below the end o of a gap are merged with the ids of its warp. */
  ghost predicate EndJoined(c0: seq<Chunk>, h0: seq<nat>, c1: seq<Chunk>, h1: seq<nat>, join: Joins, w: Warp, o: nat)
    requires WellFormed(c0, h0) && WellFormed(c1, h1) && Extends(h0, h1) && o < |c0| && w.chunk < |c0|
    requires h0[w.chunk] <= h0[o]
  {
    forall y: Digits | |y| >= h0[o] ::
      Joined(join, Lookup(c0, h0, w.chunk, y), Lookup(c0, h0, o, y), Lookup(c1, h1, o, y))
  }

  /** The state after the ends `done` have been merged, against the state before the merge. */
  ghost predicate MergeRun(c0: seq<Chunk>, h0: seq<nat>, z0: set<nat>, c1: seq<Chunk>, h1: seq<nat>, join: Joins,
                           z1: set<nat>,
                           warps: seq<Warp>, done: set<nat>)
  {
    && WellFormed(c0, h0) && WellFormed(c1, h1) && Extends(h0, h1) && z0 <= z1
    && (forall o | o in done :: o < |c0| && o in z1)
    && (forall x | x in z0 :: x < |c0| && c1[x] == c0[x])
    && (forall x | 0 <= x < |c0| && !ReachedFrom(ShapeOf(c0), h0, done, x) :: c1[x] == c0[x])
    && (forall x | x in z1 :: x in z0 || x >= |c0| || ReachedFrom(ShapeOf(c0), h0, done, x))
    && (forall i, o | 0 <= i < |warps| && o in done && IsLast(ShapeOf(c0), warps[i], o) ::
          && warps[i].chunk < |c0| && h0[warps[i].chunk] <= h0[o] && EndJoined(c0, h0, c1, h1, join, warps[i], o))
  }

  lemma MergeRunStart(chunks: seq<Chunk>, height: seq<nat>, z: set<nat>, join: Joins, warps: seq<Warp>)
    requires WellFormed(chunks, height) && forall x | x in z :: x < |chunks|
    ensures MergeRun(chunks, height, z, chunks, height, join, z, warps, {})
  {
  }

  /** Before the end o of a gap is merged, it is as it was before the run. */
  lemma MergeRunReady(c0: seq<Chunk>, h0: seq<nat>, roots: set<nat>, nets: iset<(nat, Net)>, warps: seq<Warp>,
                      z0: set<nat>,
                      lo: nat, c1: seq<Chunk>, h1: seq<nat>, join: Joins, z1: set<nat>, done: set<nat>, i: nat, o: nat)
    requires Prepared(c0, h0, roots, nets, warps) && IdsBelow(c0, h0, roots, lo)
    requires forall x | x in z0 :: BelowWarp(c0, h0, warps, x)
    requires MergeRun(c0, h0, z0, c1, h1, join, z1, warps, done)
    requires AllLast(ShapeOf(c0), warps, done)
    requires i < |warps| && o < |c0| && o !in done && IsLast(ShapeOf(c0), warps[i], o)
    ensures SameBelow(c0, h0, c1, o) && Loose(c0, h0, z0, lo, o) && Loose(c1, h1, z1, lo, o)
  {
    LastLoose(c0, h0, roots, nets, warps, z0, lo, i, o);
    var s := ShapeOf(c0);
    forall x | 0 <= x < |c0| && Reaches(s, h0, o, x)
      ensures c1[x] == c0[x] && x !in z1
    {
      if ReachedFrom(s, h0, done, x) {
        var o' :| o' in done && Reaches(s, h0, o', x);
        var j :| 0 <= j < |warps| && IsLast(s, warps[j], o');
        LastApart(c0, h0, roots, nets, warps, i, o, j, o');
      }
    }
    hide Loose, Prepared;
    SameLoose(c0, h0, c1, h1, z0, z1, lo, o);
  }

  lemma MergeRunStep(c0: seq<Chunk>, h0: seq<nat>, roots: set<nat>, nets: iset<(nat, Net)>, warps: seq<Warp>,
                     z0: set<nat>, lo: nat,
                     c1: seq<Chunk>, h1: seq<nat>, j1: Joins, z1: set<nat>,
                     c2: seq<Chunk>, h2: seq<nat>, j2: Joins, z2: set<nat>, done: set<nat>, i: nat, o: nat)
    requires Prepared(c0, h0, roots, nets, warps) && MergeRun(c0, h0, z0, c1, h1, j1, z1, warps, done)
    requires i < |warps| && o < |c0| && o !in done && IsLast(ShapeOf(c0), warps[i], o)
    requires SameBelow(c0, h0, c1, o) && Loose(c0, h0, z0, lo, o) && Loose(c1, h1, z1, lo, o)
    requires Closed(ShapeOf(c0), z0) && Closed(ShapeOf(c1), z1) && warps[i].chunk in z0 && h0[warps[i].chunk] <= h0[o]
    requires ChunkStep(c1, h1, j1, z1, c2, h2, j2, z2, warps[i].chunk, o)
    ensures MergeRun(c0, h0, z0, c2, h2, j2, z2, warps, done + {o})
  {
    hide Prepared, Layered, Loose, Reaches, Closed, IsLast;
    var s := ShapeOf(c0);
    forall x
      ensures Reaches(ShapeOf(c1), h1, o, x) <==> Reaches(s, h0, o, x)
    {
      SameReaches(c0, h0, c1, h1, o, x);
    }
    StepKeepsFrozen(c1, h1, j1, z1, c2, h2, j2, z2, lo, warps[i].chunk, o);
    ExtendsTransitive(h0, h1, h2);
    forall x
      ensures ReachedFrom(s, h0, done + {o}, x) <==> ReachedFrom(s, h0, done, x) || Reaches(s, h0, o, x)
    {
      if ReachedFrom(s, h0, done, x) {
        var o' :| o' in done && Reaches(s, h0, o', x);
        assert o' in done + {o};
      }
    }
    forall k, o' | 0 <= k < |warps| && o' in done + {o} && IsLast(s, warps[k], o')
      ensures warps[k].chunk < |c0| && h0[warps[k].chunk] <= h0[o'] && EndJoined(c0, h0, c2, h2, j2, warps[k], o')
    {
      if o' in done {
        OldEndJoined(c0, h0, c1, h1, j1, z1, c2, h2, j2, warps[k], o');
      } else {
        LastApart(c0, h0, roots, nets, warps, i, o, k, o');
        NewEndJoined(c0, h0, z0, lo, c1, h1, j1, z1, c2, h2, j2, z2, warps, done, i, o);
      }
    }
  }

  lemma StepKeepsFrozen(c1: seq<Chunk>, h1: seq<nat>, j1: Joins, z1: set<nat>,
                        c2: seq<Chunk>, h2: seq<nat>, j2: Joins, z2: set<nat>, lo: nat, wc: nat, o: nat)
    requires ChunkStep(c1, h1, j1, z1, c2, h2, j2, z2, wc, o)
    requires Closed(ShapeOf(c1), z1) && Loose(c1, h1, z1, lo, o)
    ensures o in z2 && forall x | x in z1 :: x < |c1| && c2[x] == c1[x]
  {
    assert Reaches(ShapeOf(c1), h1, o, o);
  }

  lemma OldEndJoined(c0: seq<Chunk>, h0: seq<nat>, c1: seq<Chunk>, h1: seq<nat>, j1: Joins, z1: set<nat>,
                     c2: seq<Chunk>, h2: seq<nat>, j2: Joins, w: Warp, o: nat)
    requires WellFormed(c0, h0) && WellFormed(c1, h1) && WellFormed(c2, h2) && Extends(h0, h1) && Extends(h1, h2)
             && Extends(h0, h2)
    requires o < |c0| && w.chunk < |c0| && h0[w.chunk] <= h0[o] && JoinExtends(j1, j2)
    requires Closed(ShapeOf(c1), z1) && o in z1 && (forall x | x in z1 :: x < |c1| && c2[x] == c1[x])
    requires EndJoined(c0, h0, c1, h1, j1, w, o)
    ensures EndJoined(c0, h0, c2, h2, j2, w, o)
  {
    ClosedSameBelow(c1, h1, c2, z1, o);
    forall y: Digits | |y| >= h0[o]
      ensures Joined(j2, Lookup(c0, h0, w.chunk, y), Lookup(c0, h0, o, y), Lookup(c2, h2, o, y))
    {
      SameLookup(c1, h1, c2, h2, o, y);
      JoinedKeeps(j1, j2, Lookup(c0, h0, w.chunk, y), Lookup(c0, h0, o, y), Lookup(c1, h1, o, y));
    }
  }

  lemma NewEndJoined(c0: seq<Chunk>, h0: seq<nat>, z0: set<nat>, lo: nat, c1: seq<Chunk>, h1: seq<nat>, j1: Joins,
                     z1: set<nat>,
                     c2: seq<Chunk>, h2: seq<nat>, j2: Joins, z2: set<nat>, warps: seq<Warp>, done: set<nat>, i: nat,
                     o: nat)
    requires MergeRun(c0, h0, z0, c1, h1, j1, z1, warps, done) && Extends(h0, h2)
    requires i < |warps| && o < |c0| && SameBelow(c0, h0, c1, o)
    requires Closed(ShapeOf(c0), z0) && warps[i].chunk in z0 && h0[warps[i].chunk] <= h0[o]
    requires ChunkStep(c1, h1, j1, z1, c2, h2, j2, z2, warps[i].chunk, o)
    ensures EndJoined(c0, h0, c2, h2, j2, warps[i], o)
  {
    var w := warps[i].chunk;
    ClosedSameBelow(c0, h0, c1, z0, w);
    forall y: Digits | |y| >= h0[o]
      ensures Joined(j2, Lookup(c0, h0, w, y), Lookup(c0, h0, o, y), Lookup(c2, h2, o, y))
    {
      SameLookup(c0, h0, c1, h1, w, y);
      SameLookup(c0, h0, c1, h1, o, y);
    }
  }

  // ----- what the merge means for an address ------------------------------------------------

  /** Following a walk and then looking up is looking up. */
  lemma LookupAlong(chunks: seq<Chunk>, height: seq<nat>, c: nat, p: Digits, a: Digits)
    requires WellFormed(chunks, height) && c < |chunks| && height[c] <= |p| + |a| && Walk(ShapeOf(chunks), c, p).Some?
    ensures Walk(ShapeOf(chunks), c, p).value < |chunks| && height[Walk(ShapeOf(chunks), c, p).value] <= |a|
    ensures Lookup(chunks, height, c, p + a) == Lookup(chunks, height, Walk(ShapeOf(chunks), c, p).value, a)
  {
    var s := ShapeOf(chunks);
    StopAlongWalk(s, height, c, p, a);
    LookupAtStop(chunks, height, c, p + a);
    LookupAtStop(chunks, height, Walk(s, c, p).value, a);
  }

  /** A walk over unchanged chunks is unchanged. */
  lemma {:induction false} WalkSame(s: Shape, s': Shape, c: nat, p: Digits)
    requires Walk(s, c, p).Some?
    requires forall k, d | 0 <= k < |p| && Walk(s, c, p[..k]).Some? ::
               Kid(s', Walk(s, c, p[..k]).value, d) == Kid(s, Walk(s, c, p[..k]).value, d)
    ensures Walk(s', c, p) == Walk(s, c, p)
    decreases |p|
  {
    if p != [] {
      var q := p[..|p| - 1];
      assert forall k | 0 <= k <= |q| :: q[..k] == p[..k];
      WalkSame(s, s', c, q);
    }
  }

  /** A chunk on the path x that was written by the merge lies below the end of a gap around x. */
  lemma WrittenBelowGap(c0: seq<Chunk>, h0: seq<nat>, roots: set<nat>, nets: iset<(nat, Net)>, warps: seq<Warp>,
                        z0: set<nat>,
                        c1: seq<Chunk>, h1: seq<nat>, join: Joins, z1: set<nat>, done: set<nat>, x: Digits)
    requires Prepared(c0, h0, roots, nets, warps) && MergeRun(c0, h0, z0, c1, h1, join, z1, warps, done)
    requires AllLast(ShapeOf(c0), warps, done) && Walk(ShapeOf(c0), 0, x).Some?
    ensures var c := Walk(ShapeOf(c0), 0, x).value;
            && c < |c0| <= |c1| && (c1[c] == c0[c] || BelowGap(warps, x))
  {
    var s := ShapeOf(c0);
    WalkHeight(s, h0, 0, x);
    hide Walk, Prepared, IsLast, Covers, Layered;
    var c := Walk(s, 0, x).value;
    if c1[c] != c0[c] {
      var o :| o in done && Reaches(s, h0, o, c);
      var j :| 0 <= j < |warps| && IsLast(s, warps[j], o);
      ReachedInRegion(c0, h0, roots, nets, warps, j, o, x);
    }
  }

  lemma SameKids(c0: seq<Chunk>, c1: seq<Chunk>, c: nat)
    requires Sized(c0) && Sized(c1) && c < |c0| <= |c1| && c0[c] == c1[c]
    ensures forall d :: Kid(ShapeOf(c1), c, d) == Kid(ShapeOf(c0), c, d)
  {
  }

  ghost predicate AllLast(s: Shape, warps: seq<Warp>, done: set<nat>) {
    forall o | o in done :: exists j :: 0 <= j < |warps| && IsLast(s, warps[j], o)
  }

  ghost predicate BelowGap(warps: seq<Warp>, x: Digits) {
    exists j :: 0 <= j < |warps| && |x| >= warps[j].level && Covers(warps[j].region, x)
  }

  /** A walk that is not below a gap before its last step is unchanged. */
  lemma KeptWalk(c0: seq<Chunk>, h0: seq<nat>, roots: set<nat>, nets: iset<(nat, Net)>, warps: seq<Warp>, z0: set<nat>,
                 c1: seq<Chunk>, h1: seq<nat>, join: Joins, z1: set<nat>, done: set<nat>, p: Digits)
    requires Prepared(c0, h0, roots, nets, warps) && MergeRun(c0, h0, z0, c1, h1, join, z1, warps, done)
    requires AllLast(ShapeOf(c0), warps, done) && Walk(ShapeOf(c0), 0, p).Some?
    requires forall k | 0 <= k < |p| :: !BelowGap(warps, p[..k])
    ensures Walk(ShapeOf(c1), 0, p) == Walk(ShapeOf(c0), 0, p)
  {
    assert WellFormed(c0, h0) && WellFormed(c1, h1);
    hide Prepared, MergeRun, AllLast, BelowGap, Walk, Kid, Layered;
    var s := ShapeOf(c0);
    forall k, d | 0 <= k < |p| && Walk(s, 0, p[..k]).Some?
      ensures Kid(ShapeOf(c1), Walk(s, 0, p[..k]).value, d) == Kid(s, Walk(s, 0, p[..k]).value, d)
    {
      WrittenBelowGap(c0, h0, roots, nets, warps, z0, c1, h1, join, z1, done, p[..k]);
      SameKids(c0, c1, Walk(s, 0, p[..k]).value);
    }
    WalkSame(s, ShapeOf(c1), 0, p);
  }

  lemma OutsideGaps(height: seq<nat>, roots: set<nat>, nets: iset<(nat, Net)>, warps: seq<Warp>, a: Digits, k: nat)
    requires WarpsFit(height, roots, nets, warps) && k <= |a|
             && forall j | 0 <= j < |warps| :: !Covers(warps[j].region, a)
    ensures !BelowGap(warps, a[..k])
  {
    assert a == a[..k] + a[k..];
    if BelowGap(warps, a[..k]) {
      var j :| 0 <= j < |warps| && k >= warps[j].level && Covers(warps[j].region, a[..k]);
      CoversMore(warps[j], height, roots, nets, a[..k], a[k..]);
      assert false;
    }
  }

  lemma AboveGap(height: seq<nat>, roots: set<nat>, nets: iset<(nat, Net)>, warps: seq<Warp>, i: nat, p: Digits, k: nat)
    requires WarpsFit(height, roots, nets, warps) && i < |warps| && Covers(warps[i].region, p)
    requires k < |p| == warps[i].level
    ensures !BelowGap(warps, p[..k])
  {
    var x := p[..k];
    assert Covers(warps[i].region, x);
    assert WarpFits(height, roots, nets, warps[i]);
    hide WarpFits, Covers;
    forall j | 0 <= j < |warps| && |x| >= warps[j].level && Covers(warps[j].region, x)
      ensures i == j
    {
      OneRegion(height, roots, nets, warps, j, i, x);
    }
  }

  /** A lookup that ends in an unchanged chunk after an unchanged walk is unchanged. */
  lemma LookupKept(c0: seq<Chunk>, h0: seq<nat>, c1: seq<Chunk>, h1: seq<nat>, p: Digits, b: Digits)
    requires WellFormed(c0, h0) && WellFormed(c1, h1) && 0 < |c0| <= |c1| && h0[0] == h1[0] == |p| + |b| && |b| > 0
    requires Walk(ShapeOf(c0), 0, p).Some? && Walk(ShapeOf(c1), 0, p) == Walk(ShapeOf(c0), 0, p)
    requires var c := Walk(ShapeOf(c0), 0, p).value; c < |c0| && c0[c] == c1[c] && Kid(ShapeOf(c0), c, b[0]) < 0
    ensures Lookup(c1, h1, 0, p + b) == Lookup(c0, h0, 0, p + b)
  {
    LookupAlong(c0, h0, 0, p, b);
    LookupAlong(c1, h1, 0, p, b);
  }

  /** Outside all regions the merge changes nothing. */
  lemma UnmergedLookup(c0: seq<Chunk>, h0: seq<nat>, roots: set<nat>, nets: iset<(nat, Net)>, warps: seq<Warp>,
                       z0: set<nat>,
                       c1: seq<Chunk>, h1: seq<nat>, join: Joins, z1: set<nat>, done: set<nat>, a: Digits)
    requires Prepared(c0, h0, roots, nets, warps) && MergeRun(c0, h0, z0, c1, h1, join, z1, warps, done)
    requires AllLast(ShapeOf(c0), warps, done)
    requires |a| == h0[0] && forall j | 0 <= j < |warps| :: !Covers(warps[j].region, a)
    ensures Lookup(c1, h1, 0, a) == Lookup(c0, h0, 0, a)
  {
    hide *;
    RunParts(c0, h0, roots, nets, warps, z0, c1, h1, join, z1, done);
    var n := StopWalk(ShapeOf(c0), h0, 0, a);
    var p, b := a[..n], a[n..];
    forall k | 0 <= k <= n
      ensures !BelowGap(warps, p[..k])
    {
      OutsideGaps(h0, roots, nets, warps, a, k);
      assert p[..k] == a[..k];
    }
    assert p[..n] == p;
    KeptWalk(c0, h0, roots, nets, warps, z0, c1, h1, join, z1, done, p);
    WrittenBelowGap(c0, h0, roots, nets, warps, z0, c1, h1, join, z1, done, p);
    assert a == p + b && b[0] == a[n];
    LookupKept(c0, h0, c1, h1, p, b);
  }

  lemma EndMerged(c0: seq<Chunk>, h0: seq<nat>, z0: set<nat>, c1: seq<Chunk>, h1: seq<nat>, join: Joins, z1: set<nat>,
                  warps: seq<Warp>, done: set<nat>, i: nat, o: nat)
    requires MergeRun(c0, h0, z0, c1, h1, join, z1, warps, done) && i < |warps| && o in done
             && IsLast(ShapeOf(c0), warps[i], o)
    ensures o < |c0| && warps[i].chunk < |c0| && h0[warps[i].chunk] <= h0[o]
    ensures EndJoined(c0, h0, c1, h1, join, warps[i], o)
  {
    hide EndJoined, IsLast, ReachedFrom;
  }

  /** The end of the gap below which the address lies. */
  lemma EndOf(chunks: seq<Chunk>, height: seq<nat>, roots: set<nat>, nets: iset<(nat, Net)>, warps: seq<Warp>, i: nat,
              a: Digits)
    requires Prepared(chunks, height, roots, nets, warps) && i < |warps| && |a| == height[0]
             && Covers(warps[i].region, a)
    ensures 0 < warps[i].level < |a| && warps[i].chunk < |chunks| && height[warps[i].chunk] == |a| - warps[i].level
    ensures Covers(warps[i].region, a[..warps[i].level]) && Walk(ShapeOf(chunks), 0, a[..warps[i].level]).Some?
    ensures var o := Walk(ShapeOf(chunks), 0, a[..warps[i].level]).value;
            o < |chunks| && height[o] == |a| - warps[i].level && IsLast(ShapeOf(chunks), warps[i], o)
  {
    hide Walk, Aligned, Layered;
    assert WarpFits(height, roots, nets, warps[i]);
    var p := a[..warps[i].level];
    assert InGap(warps, p);
    hide Gaps;
    WalkExact(ShapeOf(chunks), height, 0, p);
  }

  /** Inside a region the merge joins the id under the warp with the id of the address. */
  lemma MergedLookup(c0: seq<Chunk>, h0: seq<nat>, roots: set<nat>, nets: iset<(nat, Net)>, warps: seq<Warp>,
                     z0: set<nat>,
                     c1: seq<Chunk>, h1: seq<nat>, join: Joins, z1: set<nat>, done: set<nat>, i: nat, a: Digits)
    requires Prepared(c0, h0, roots, nets, warps) && MergeRun(c0, h0, z0, c1, h1, join, z1, warps, done)
    requires AllLast(ShapeOf(c0), warps, done)
    requires forall j, o | 0 <= j < |warps| && IsLast(ShapeOf(c0), warps[j], o) :: o in done
    requires |a| == h0[0] && i < |warps| && Covers(warps[i].region, a)
    ensures var w := warps[i];
            && w.level <= |a| && w.chunk < |c0| && h0[w.chunk] <= |a[w.level..]|
            && Joined(join, Lookup(c0, h0, w.chunk, a[w.level..]), Lookup(c0, h0, 0, a), Lookup(c1, h1, 0, a))
  {
    hide *;
    RunParts(c0, h0, roots, nets, warps, z0, c1, h1, join, z1, done);
    var w := warps[i];
    EndOf(c0, h0, roots, nets, warps, i, a);
    var p, b := a[..w.level], a[w.level..];
    var o := Walk(ShapeOf(c0), 0, p).value;
    EndMerged(c0, h0, z0, c1, h1, join, z1, warps, done, i, o);
    forall k | 0 <= k < |p|
      ensures !BelowGap(warps, p[..k])
    {
      AboveGap(h0, roots, nets, warps, i, p, k);
    }
    KeptWalk(c0, h0, roots, nets, warps, z0, c1, h1, join, z1, done, p);
    assert a == p + b;
    EndLookup(c0, h0, c1, h1, join, w, p, b);
  }

  lemma RunParts(c0: seq<Chunk>, h0: seq<nat>, roots: set<nat>, nets: iset<(nat, Net)>, warps: seq<Warp>, z0: set<nat>,
                 c1: seq<Chunk>, h1: seq<nat>, join: Joins, z1: set<nat>, done: set<nat>)
    requires Prepared(c0, h0, roots, nets, warps) && MergeRun(c0, h0, z0, c1, h1, join, z1, warps, done)
    ensures WellFormed(c0, h0) && WellFormed(c1, h1) && Sized(c0) && Sized(c1) && WarpsFit(h0, roots, nets, warps)
    ensures Layered(ShapeOf(c0), h0) && Layered(ShapeOf(c1), h1)
    ensures |h0| == |c0| && |h1| == |c1| && Extends(h0, h1) && 0 < |c0| <= |c1| && h0[0] == h1[0] && z0 <= z1
  {
    hide Layered, WarpsFit, Aligned, Gaps, Exact;
  }

  lemma EndLookup(c0: seq<Chunk>, h0: seq<nat>, c1: seq<Chunk>, h1: seq<nat>, join: Joins, w: Warp, p: Digits,
                  b: Digits)
    requires WellFormed(c0, h0) && WellFormed(c1, h1) && Extends(h0, h1) && 0 < |c0| && h0[0] == |p| + |b|
             && w.chunk < |c0|
    requires Walk(ShapeOf(c0), 0, p).Some? && Walk(ShapeOf(c1), 0, p) == Walk(ShapeOf(c0), 0, p)
    requires var o := Walk(ShapeOf(c0), 0, p).value;
             o < |c0| && h0[w.chunk] <= h0[o] <= |b| && EndJoined(c0, h0, c1, h1, join, w, o)
    ensures Joined(join, Lookup(c0, h0, w.chunk, b), Lookup(c0, h0, 0, p + b), Lookup(c1, h1, 0, p + b))
  {
    hide Layered, Walk;
    LookupAlong(c0, h0, 0, p, b);
    LookupAlong(c1, h1, 0, p, b);
  }

  // ----- collecting the ends of a gap -------------------------------------------------------

  /** Chunk o is reached from chunk c through the gap. */
  ghost predicate LastAt(s: Shape, c: nat, addr: Digits, gap: Digits, o: nat) {
    exists p: Digits :: |p| == |gap| && Covers(Net(addr, gap), p) && Walk(s, c, p) == Some(o)
  }

  ghost predicate LastBy(s: Shape, c: nat, addr: Digits, gap: Digits, d: bv8, o: nat)
    requires |addr| == |gap| > 0
  {
    Kid(s, c, d) >= 0 && LastAt(s, Kid(s, c, d), addr[1..], gap[1..], o)
  }

  ghost predicate LastPassed(s: Shape, c: nat, addr: Digits, gap: Digits, low: bv8, high: bv8, d: bv8, more: bool,
                             o: nat)
    requires |addr| == |gap| > 0
  {
    exists e :: Passed(low, high, d, more, e) && LastBy(s, c, addr, gap, e, o)
  }

  lemma LastPassedStep(s: Shape, c: nat, addr: Digits, gap: Digits, low: bv8, high: bv8, d: bv8, d': bv8, more: bool,
                       o: nat)
    requires |addr| == |gap| > 0
    requires forall e :: Passed(low, high, d', more, e) <==> Passed(low, high, d, true, e) || e == d
    ensures LastPassed(s, c, addr, gap, low, high, d', more, o)
            <==> LastPassed(s, c, addr, gap, low, high, d, true, o) || LastBy(s, c, addr, gap, d, o)
  {
    hide Passed, LastBy;
    if LastBy(s, c, addr, gap, d, o) {
      assert Passed(low, high, d', more, d);
    }
  }

  ghost predicate Filling(s: Shape, c: nat, addr: Digits, gap: Digits) {
    forall p: Digits | |p| == |gap| && Covers(Net(addr, gap), p) :: Walk(s, c, p).Some?
  }

  lemma CoversFirst(addr: Digits, gap: Digits, d: bv8, t: Digits)
    requires |addr| == |gap| > 0
    ensures Covers(Net(addr, gap), [d] + t) <==> Agree(d, gap[0], addr[0]) && Covers(Net(addr[1..], gap[1..]), t)
  {
    hide Agree;
    var n, n', x := Net(addr, gap), Net(addr[1..], gap[1..]), [d] + t;
    if Covers(n, x) {
      assert Agree(x[0], gap[0], addr[0]);
      forall i | 0 <= i < |t| && i < |gap[1..]|
        ensures Agree(t[i], n'.mask[i], n'.addr[i])
      {
        assert Agree(x[i + 1], gap[i + 1], addr[i + 1]);
      }
    }
    if Agree(d, gap[0], addr[0]) && Covers(n', t) {
      forall i | 0 <= i < |x| && i < |gap|
        ensures Agree(x[i], gap[i], addr[i])
      {
        if i > 0 {
          assert Agree(t[i - 1], n'.mask[i - 1], n'.addr[i - 1]);
        }
      }
    }
  }

  lemma WalkFirst(s: Shape, c: nat, d: bv8, t: Digits)
    ensures Walk(s, c, [d] + t) == if Kid(s, c, d) >= 0 then Walk(s, Kid(s, c, d), t) else None
  {
    WalkSplit(s, c, [d], t);
    assert Walk(s, c, [d][..0]) == Some(c);
  }

  lemma LastAtStep(s: Shape, c: nat, addr: Digits, gap: Digits, o: nat)
    requires |addr| == |gap| > 0
    ensures LastAt(s, c, addr, gap, o) <==> exists d :: Agree(d, gap[0], addr[0]) && LastBy(s, c, addr, gap, d, o)
  {
    hide Walk, Covers, Agree;
    if LastAt(s, c, addr, gap, o) {
      var p: Digits :| |p| == |gap| && Covers(Net(addr, gap), p) && Walk(s, c, p) == Some(o);
      assert p == [p[0]] + p[1..];
      CoversFirst(addr, gap, p[0], p[1..]);
      WalkFirst(s, c, p[0], p[1..]);
      assert LastBy(s, c, addr, gap, p[0], o);
    }
    if d :| Agree(d, gap[0], addr[0]) && LastBy(s, c, addr, gap, d, o) {
      var t: Digits :| |t| == |gap[1..]| && Covers(Net(addr[1..], gap[1..]), t) && Walk(s, Kid(s, c, d), t) == Some(o);
      CoversFirst(addr, gap, d, t);
      WalkFirst(s, c, d, t);
      assert |[d] + t| == |gap|;
    }
  }

  lemma LastAtEnd(s: Shape, c: nat, o: nat)
    ensures LastAt(s, c, [], [], o) <==> o == c
  {
    var none: Digits := [];
    assert |none| == 0 && Covers(Net([], []), none) && Walk(s, c, none) == Some(c);
  }

  lemma FillingStep(s: Shape, c: nat, addr: Digits, gap: Digits, d: bv8)
    requires Filling(s, c, addr, gap) && |addr| == |gap| > 0 && Agree(d, gap[0], addr[0])
    ensures Kid(s, c, d) >= 0 && Filling(s, Kid(s, c, d), addr[1..], gap[1..])
  {
    hide Walk, Covers, Agree;
    forall t: Digits | |t| == |gap[1..]| && Covers(Net(addr[1..], gap[1..]), t)
      ensures Kid(s, c, d) >= 0 && Walk(s, Kid(s, c, d), t).Some?
    {
      CoversFirst(addr, gap, d, t);
      WalkFirst(s, c, d, t);
      assert |[d] + t| == |gap|;
    }
    CoversItself(Net(addr[1..], gap[1..]));
    assert |addr[1..]| == |gap[1..]|;
  }

  lemma CoversItself(n: Net)
    ensures Covers(n, n.addr)
  {
  }

  /** Until its end, the mask of a gap followed by ones has a gap. */
  lemma {:induction false} GapEnd(gap: Digits, n: nat)
    requires n > 0 && (gap != [] ==> gap[|gap| - 1] != 0xFF)
    ensures Contiguous(gap + Ones(n)) <==> gap == []
    decreases gap
  {
    var mask := gap + Ones(n);
    if gap == [] {
      assert mask == Ones(n);
      OnesContiguous(n);
    } else {
      assert mask[1..] == gap[1..] + Ones(n);
      assert mask[1..][|mask[1..]| - 1] == 0xFF;
      assert !AllZero(mask[1..]);
      if |gap| > 1 {
        assert gap[1..][|gap[1..]| - 1] == gap[|gap| - 1];
        GapEnd(gap[1..], n);
      }
    }
  }

  lemma {:induction false} OnesContiguous(n: nat)
    requires n > 0
    ensures Contiguous(Ones(n))
  {
    assert Ones(n)[1..] == Ones(n - 1);
    if n > 1 {
      assert Ones(n)[1..][0] == 0xFF;
      OnesContiguous(n - 1);
    }
  }

  /** The merges of other gaps leave the way through a gap as it is. */
  lemma GapKept(c0: seq<Chunk>, h0: seq<nat>, roots: set<nat>, nets: iset<(nat, Net)>, warps: seq<Warp>, z0: set<nat>,
                c1: seq<Chunk>, h1: seq<nat>, join: Joins, z1: set<nat>, done: set<nat>, i: nat)
    requires Prepared(c0, h0, roots, nets, warps) && MergeRun(c0, h0, z0, c1, h1, join, z1, warps, done)
    requires AllLast(ShapeOf(c0), warps, done) && i < |warps|
    ensures forall p: Digits | |p| == warps[i].level && Covers(warps[i].region, p) ::
              Walk(ShapeOf(c0), 0, p).Some? && Walk(ShapeOf(c1), 0, p) == Walk(ShapeOf(c0), 0, p)
  {
    hide *;
    RunParts(c0, h0, roots, nets, warps, z0, c1, h1, join, z1, done);
    forall p: Digits | |p| == warps[i].level && Covers(warps[i].region, p)
      ensures Walk(ShapeOf(c0), 0, p).Some? && Walk(ShapeOf(c1), 0, p) == Walk(ShapeOf(c0), 0, p)
    {
      GapFilled(c0, h0, roots, nets, warps, i, p);
      forall k | 0 <= k < |p|
        ensures !BelowGap(warps, p[..k])
      {
        AboveGap(h0, roots, nets, warps, i, p, k);
      }
      KeptWalk(c0, h0, roots, nets, warps, z0, c1, h1, join, z1, done, p);
    }
  }

  lemma GapFilled(chunks: seq<Chunk>, height: seq<nat>, roots: set<nat>, nets: iset<(nat, Net)>, warps: seq<Warp>,
                  i: nat, p: Digits)
    requires Prepared(chunks, height, roots, nets, warps) && i < |warps|
    requires |p| == warps[i].level && Covers(warps[i].region, p)
    ensures Walk(ShapeOf(chunks), 0, p).Some? && Walk(ShapeOf(chunks), 0, p).value < |chunks|
    ensures height[Walk(ShapeOf(chunks), 0, p).value] + warps[i].level == height[0]
  {
    hide Walk, Aligned, Layered, Covers;
    assert InGap(warps, p);
    hide Gaps, WarpsFit;
    WalkExact(ShapeOf(chunks), height, 0, p);
  }

  lemma EndsKept(c0: seq<Chunk>, h0: seq<nat>, roots: set<nat>, nets: iset<(nat, Net)>, warps: seq<Warp>, z0: set<nat>,
                 c1: seq<Chunk>, h1: seq<nat>, join: Joins, z1: set<nat>, done: set<nat>, i: nat)
    requires Prepared(c0, h0, roots, nets, warps) && MergeRun(c0, h0, z0, c1, h1, join, z1, warps, done)
    requires AllLast(ShapeOf(c0), warps, done) && i < |warps|
    ensures var w := warps[i];
            && w.level <= |w.region.addr| == |w.region.mask|
            && Filling(ShapeOf(c1), 0, w.region.addr[..w.level], w.region.mask[..w.level])
            && (forall o :: LastAt(ShapeOf(c1), 0, w.region.addr[..w.level], w.region.mask[..w.level], o)
                            <==> IsLast(ShapeOf(c0), w, o))
  {
    hide *;
    RunParts(c0, h0, roots, nets, warps, z0, c1, h1, join, z1, done);
    WarpParts(h0, roots, nets, warps, i);
    GapKept(c0, h0, roots, nets, warps, z0, c1, h1, join, z1, done, i);
    LastSame(ShapeOf(c0), ShapeOf(c1), warps[i]);
  }

  lemma WarpParts(height: seq<nat>, roots: set<nat>, nets: iset<(nat, Net)>, warps: seq<Warp>, i: nat)
    requires WarpsFit(height, roots, nets, warps) && i < |warps|
    ensures WarpFits(height, roots, nets, warps[i]) && 0 < |height| && warps[i].chunk < |height|
    ensures height[warps[i].chunk] + warps[i].level == height[0] && 0 < warps[i].level < height[0]
    ensures |warps[i].region.addr| == |warps[i].region.mask| == height[0]
    ensures warps[i].region.mask[warps[i].level - 1] != 0xFF
    ensures forall t | 0 <= t < warps[i].level :: Leading(warps[i].region.mask[t])
  {
    hide Leading;
  }

  lemma LastSame(s: Shape, s': Shape, w: Warp)
    requires w.level <= |w.region.addr| && w.level <= |w.region.mask|
    requires forall p: Digits | |p| == w.level && Covers(w.region, p) ::
               Walk(s, 0, p).Some? && Walk(s', 0, p) == Walk(s, 0, p)
    ensures Filling(s', 0, w.region.addr[..w.level], w.region.mask[..w.level])
    ensures forall o :: LastAt(s', 0, w.region.addr[..w.level], w.region.mask[..w.level], o) <==> IsLast(s, w, o)
  {
    hide Walk, Agree;
    forall p: Digits | |p| == w.level
      ensures Covers(w.region, p) <==> Covers(Net(w.region.addr[..w.level], w.region.mask[..w.level]), p)
    {
      var n := Net(w.region.addr[..w.level], w.region.mask[..w.level]);
      assert forall i | 0 <= i < |p| :: n.mask[i] == w.region.mask[i] && n.addr[i] == w.region.addr[i];
    }
    hide Covers;
    assert |w.region.mask[..w.level]| == w.level;
    forall o: nat
      ensures LastAt(s', 0, w.region.addr[..w.level], w.region.mask[..w.level], o) <==> IsLast(s, w, o)
    {
      if IsLast(s, w, o) {
        var p: Digits :| |p| == w.level && Covers(w.region, p) && Walk(s, 0, p) == Some(o);
        assert |p| == |w.region.mask[..w.level]|;
      }
    }
  }

  /** Chunk x lies below a warp: the merge reads it and never writes it. */
  ghost predicate BelowWarp(chunks: seq<Chunk>, height: seq<nat>, warps: seq<Warp>, x: int)
    requires WellFormed(chunks, height)
  {
    exists j :: 0 <= j < |warps| && warps[j].chunk < |chunks| && Reaches(ShapeOf(chunks), height, warps[j].chunk, x)
  }

  ghost function WarpChunks(chunks: seq<Chunk>, height: seq<nat>, warps: seq<Warp>): set<nat>
    requires WellFormed(chunks, height)
  {
    set x: nat | x < |chunks| && BelowWarp(chunks, height, warps, x)
  }

  lemma WarpChunksClosed(chunks: seq<Chunk>, height: seq<nat>, warps: seq<Warp>)
    requires WellFormed(chunks, height)
    ensures Closed(ShapeOf(chunks), WarpChunks(chunks, height, warps))
    ensures forall x | x in WarpChunks(chunks, height, warps) :: BelowWarp(chunks, height, warps, x)
    ensures forall j | 0 <= j < |warps| && warps[j].chunk < |chunks| ::
              warps[j].chunk in WarpChunks(chunks, height, warps)
  {
    var s, z := ShapeOf(chunks), WarpChunks(chunks, height, warps);
    forall x, d | x in z && Kid(s, x, d) >= 0
      ensures Kid(s, x, d) in z
    {
      var j :| 0 <= j < |warps| && warps[j].chunk < |chunks| && Reaches(s, height, warps[j].chunk, x);
      assert Reaches(s, height, Kid(s, x, d), Kid(s, x, d));
      assert Reaches(s, height, x, Kid(s, x, d));
      ReachTrans(s, height, warps[j].chunk, x, Kid(s, x, d));
    }
  }

  /** The whole state of a run of merges: `done` are the ends of gaps that have been merged. */
  ghost predicate Run(c0: seq<Chunk>, h0: seq<nat>, roots: set<nat>, nets: iset<(nat, Net)>, warps: seq<Warp>,
                      c1: seq<Chunk>, h1: seq<nat>, join: Joins, z1: set<nat>, done: set<nat>)
  {
    && Prepared(c0, h0, roots, nets, warps) && AllLast(ShapeOf(c0), warps, done)
    && MergeRun(c0, h0, WarpChunks(c0, h0, warps), c1, h1, join, z1, warps, done)
  }

  lemma RunStart(chunks: seq<Chunk>, height: seq<nat>, roots: set<nat>, nets: iset<(nat, Net)>, warps: seq<Warp>,
                 lo: nat)
    requires Prepared(chunks, height, roots, nets, warps)
    ensures var z := WarpChunks(chunks, height, warps);
            && Run(chunks, height, roots, nets, warps, chunks, height, map[], z, {})
            && Merging(chunks, height, map[], z, map[], map[], lo, lo)
  {
    hide Prepared, WarpChunks;
    PreparedParts(chunks, height, roots, nets, warps);
    WarpChunksClosed(chunks, height, warps);
    MergeRunStart(chunks, height, WarpChunks(chunks, height, warps), map[], warps);
  }

  lemma MergingBound(chunks: seq<Chunk>, height: seq<nat>, join: Joins, z: set<nat>, memo: Memo,
                     extended: map<nat, nat>,
                     lo: nat, next: nat)
    requires Merging(chunks, height, join, z, memo, extended, lo, next)
    ensures lo <= next && JoinFits(join, lo, next)
  {
    hide Layered, MemoFits, ExtendedFits, Closed;
  }

  lemma PreparedParts(chunks: seq<Chunk>, height: seq<nat>, roots: set<nat>, nets: iset<(nat, Net)>, warps: seq<Warp>)
    requires Prepared(chunks, height, roots, nets, warps)
    ensures WellFormed(chunks, height) && Rooted(height, roots) && WarpsFit(height, roots, nets, warps)
    ensures 0 in roots && |height| == |chunks| > 0 && Sized(chunks)
  {
    hide Layered, WarpsFit, Aligned, Gaps, Exact;
  }

  lemma EndFits(chunks: seq<Chunk>, height: seq<nat>, roots: set<nat>, nets: iset<(nat, Net)>, warps: seq<Warp>, i: nat,
                o: nat)
    requires Prepared(chunks, height, roots, nets, warps) && i < |warps| && IsLast(ShapeOf(chunks), warps[i], o)
    ensures o < |chunks| && warps[i].chunk < |chunks| && height[warps[i].chunk] == height[o]
  {
    var p: Digits :| |p| == warps[i].level && Covers(warps[i].region, p) && Walk(ShapeOf(chunks), 0, p) == Some(o);
    hide Covers, Walk, Prepared, IsLast;
    PreparedParts(chunks, height, roots, nets, warps);
    WarpParts(height, roots, nets, warps, i);
    GapFilled(chunks, height, roots, nets, warps, i, p);
  }

  lemma RunOpens(c0: seq<Chunk>, h0: seq<nat>, roots: set<nat>, nets: iset<(nat, Net)>, warps: seq<Warp>,
                 c1: seq<Chunk>, h1: seq<nat>, join: Joins, z1: set<nat>, done: set<nat>)
    requires Run(c0, h0, roots, nets, warps, c1, h1, join, z1, done)
    ensures Prepared(c0, h0, roots, nets, warps) && WellFormed(c0, h0) && WellFormed(c1, h1)
            && AllLast(ShapeOf(c0), warps, done)
    ensures MergeRun(c0, h0, WarpChunks(c0, h0, warps), c1, h1, join, z1, warps, done)
    ensures Sized(c0) && Sized(c1) && |h0| == |c0| <= |h1| == |c1| && (forall x | 0 <= x < |h0| :: h0[x] == h1[x])
  {
    hide Layered, WarpsFit, Aligned, Gaps, Exact, AllLast, WarpChunks, ReachedFrom, IsLast, EndJoined;
  }

  lemma EndReady(c0: seq<Chunk>, h0: seq<nat>, roots: set<nat>, nets: iset<(nat, Net)>, warps: seq<Warp>, lo: nat,
                 c1: seq<Chunk>, h1: seq<nat>, join: Joins, z1: set<nat>, done: set<nat>, i: nat, o: nat)
    requires Run(c0, h0, roots, nets, warps, c1, h1, join, z1, done) && WellFormed(c0, h0) && Rooted(h0, roots)
    requires IdsBelow(c0, h0, roots, lo) && WellFormed(c1, h1)
    requires i < |warps| && o !in done && IsLast(ShapeOf(c0), warps[i], o)
    ensures o < |c0| <= |c1| && warps[i].chunk < |c0| && warps[i].chunk in z1
    ensures warps[i].chunk in WarpChunks(c0, h0, warps) && Closed(ShapeOf(c0), WarpChunks(c0, h0, warps))
    ensures h0[warps[i].chunk] <= h0[o] && h1[warps[i].chunk] <= h1[o]
    ensures SameBelow(c0, h0, c1, o) && Loose(c0, h0, WarpChunks(c0, h0, warps), lo, o) && Loose(c1, h1, z1, lo, o)
  {
    hide *;
    var z0 := WarpChunks(c0, h0, warps);
    WarpChunksClosed(c0, h0, warps);
    RunOpens(c0, h0, roots, nets, warps, c1, h1, join, z1, done);
    EndFits(c0, h0, roots, nets, warps, i, o);
    RunParts(c0, h0, roots, nets, warps, z0, c1, h1, join, z1, done);
    MergeRunReady(c0, h0, roots, nets, warps, z0, lo, c1, h1, join, z1, done, i, o);
  }

  lemma RunStep(c0: seq<Chunk>, h0: seq<nat>, roots: set<nat>, nets: iset<(nat, Net)>, warps: seq<Warp>, lo: nat,
                c1: seq<Chunk>, h1: seq<nat>, j1: Joins, z1: set<nat>,
                c2: seq<Chunk>, h2: seq<nat>, j2: Joins, z2: set<nat>, done: set<nat>, i: nat, o: nat)
    requires Run(c0, h0, roots, nets, warps, c1, h1, j1, z1, done) && WellFormed(c0, h0) && Rooted(h0, roots)
    requires IdsBelow(c0, h0, roots, lo) && WellFormed(c1, h1) && Closed(ShapeOf(c1), z1)
    requires i < |warps| && o !in done && IsLast(ShapeOf(c0), warps[i], o)
    requires ChunkStep(c1, h1, j1, z1, c2, h2, j2, z2, warps[i].chunk, o)
    ensures Run(c0, h0, roots, nets, warps, c2, h2, j2, z2, done + {o})
  {
    hide Prepared, IsLast, WarpChunks, MergeRun, ChunkStep, IdsBelow, Layered;
    EndReady(c0, h0, roots, nets, warps, lo, c1, h1, j1, z1, done, i, o);
    MergeRunStep(c0, h0, roots, nets, warps, WarpChunks(c0, h0, warps), lo, c1, h1, j1, z1, c2, h2, j2, z2, done, i, o);
    forall o' | o' in done + {o}
      ensures exists j :: 0 <= j < |warps| && IsLast(ShapeOf(c0), warps[j], o')
    {
      if o' == o {
        assert 0 <= i < |warps| && IsLast(ShapeOf(c0), warps[i], o');
      }
    }
  }
}
