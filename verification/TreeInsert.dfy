/**
  Inserting a network into the shared chunk forest (`insert_step`, `update_group_id_next`).

  The labels of the forest are the group ids of all addresses under all roots.  Inserting a
  network splits the groups it cuts through, for the addresses of the network and for no others,
  although the chunks it writes to may be shared.  What makes this safe is `Aligned`: a chunk
  that is not marked `multirefs` lies on one path only, and two paths to one chunk are both
  inside or both outside every network that is inserted above that chunk.
*/
module TreeInsert {
  import opened Base
  import opened Nets
  import opened Partition
  import opened ChunkForest

  type Cell = (nat, Digits)

  ghost predicate Rooted(height: seq<nat>, roots: set<nat>) {
    forall r | r in roots :: r < |height|
  }

  ghost predicate IsCell(height: seq<nat>, roots: set<nat>, x: Cell)
    requires Rooted(height, roots)
  {
    x.0 in roots && |x.1| == height[x.0]
  }

  /** The group id of every address under every root. */
  ghost function Labels(chunks: seq<Chunk>, height: seq<nat>, roots: set<nat>): imap<Cell, nat>
    requires WellFormed(chunks, height) && Rooted(height, roots)
  {
    imap x: Cell | IsCell(height, roots, x) :: Lookup(chunks, height, x.0, x.1)
  }

  lemma LabelsKeys(chunks: seq<Chunk>, height: seq<nat>, roots: set<nat>)
    requires WellFormed(chunks, height) && Rooted(height, roots)
    ensures forall x :: x in Labels(chunks, height, roots) <==> IsCell(height, roots, x)
  {
  }

  /** The addresses of the network under the root. */
  ghost function NetCells(r: nat, n: Net): iset<Cell> {
    iset x: Cell | x.0 == r && Covers(n, x.1)
  }

  /** The addresses whose walk ends below slot d of chunk c. */
  ghost predicate EndsBelow(s: Shape, height: seq<nat>, c: nat, d: bv8, slot: (nat, bv8))
    requires Layered(s, height) && c < |s|
  {
    if Kid(s, c, d) >= 0 then Reaches(s, height, Kid(s, c, d), slot.0) else slot == (c, d)
  }

  ghost function SlotCells(s: Shape, height: seq<nat>, roots: set<nat>, c: nat, d: bv8): iset<Cell>
    requires Layered(s, height) && Rooted(height, roots) && c < |s|
  {
    iset x: Cell | IsCell(height, roots, x) && EndsBelow(s, height, c, d, Stop(s, height, x.0, x.1))
  }

  ghost function ChunkCells(s: Shape, height: seq<nat>, roots: set<nat>, c: nat): iset<Cell>
    requires Layered(s, height) && Rooted(height, roots) && c < |s|
  {
    iset x: Cell | IsCell(height, roots, x) && Reaches(s, height, c, Stop(s, height, x.0, x.1).0)
  }

  /** Everything below the chunks of `prev`, all lower than `top`, has been visited. */
  ghost predicate Visited(s: Shape, height: seq<nat>, roots: set<nat>, prev: set<nat>, top: nat, done: iset<Cell>)
    requires Layered(s, height) && Rooted(height, roots)
  {
    forall k | k in prev :: k < |s| && height[k] < top && ChunkCells(s, height, roots, k) <= done
  }

  lemma VisitedGrows(s: Shape, height: seq<nat>, roots: set<nat>, prev: set<nat>, top: nat, done: iset<Cell>,
                     done': iset<Cell>)
    requires Layered(s, height) && Rooted(height, roots) && Visited(s, height, roots, prev, top, done)
    requires done <= done'
    ensures Visited(s, height, roots, prev, top, done')
  {
    forall k | k in prev
      ensures ChunkCells(s, height, roots, k) <= done'
    {
      assert ChunkCells(s, height, roots, k) <= done;
    }
  }

  lemma VisitedNone(s: Shape, height: seq<nat>, roots: set<nat>, top: nat, done: iset<Cell>)
    requires Layered(s, height) && Rooted(height, roots)
    ensures Visited(s, height, roots, {}, top, done)
  {
  }

  lemma VisitedAdd(s: Shape, height: seq<nat>, roots: set<nat>, prev: set<nat>, top: nat, done: iset<Cell>, k: nat)
    requires Layered(s, height) && Rooted(height, roots) && k < |s| && height[k] < top
    requires Visited(s, height, roots, prev, top, done + ChunkCells(s, height, roots, k))
    ensures Visited(s, height, roots, prev + {k}, top, done + ChunkCells(s, height, roots, k))
  {
  }

  ghost function Flags(chunks: seq<Chunk>): seq<bool> {
    seq(|chunks|, c requires 0 <= c < |chunks| => chunks[c].multirefs)
  }

  // ----- alignment --------------------------------------------------------------------------

  ghost predicate Twins(multirefs: bool, nets: iset<(nat, Net)>, r1: nat, x1: Digits, r2: nat, x2: Digits) {
    && r1 == r2 && |x1| == |x2| && (multirefs || x1 == x2)
    && forall n | (r1, n) in nets && |n.mask| > 0 && Level(n.mask) < |x1| :: Covers(n, x1) <==> Covers(n, x2)
  }

  ghost predicate Aligned(s: Shape, flags: seq<bool>, roots: set<nat>, nets: iset<(nat, Net)>) {
    forall r1, x1, r2, x2 | r1 in roots && r2 in roots && Walk(s, r1, x1).Some? && Walk(s, r1, x1) == Walk(s, r2, x2) ::
      && Walk(s, r1, x1).value < |flags|
      && Twins(flags[Walk(s, r1, x1).value], nets, r1, x1, r2, x2)
  }

  lemma AlignedTwins(s: Shape, flags: seq<bool>, roots: set<nat>, nets: iset<(nat, Net)>,
                     r1: nat, x1: Digits, r2: nat, x2: Digits)
    requires Aligned(s, flags, roots, nets) && r1 in roots && r2 in roots
    requires Walk(s, r1, x1).Some? && Walk(s, r1, x1) == Walk(s, r2, x2)
    ensures Walk(s, r1, x1).value < |flags|
    ensures Twins(flags[Walk(s, r1, x1).value], nets, r1, x1, r2, x2)
  {
  }

  /** Along every reference the height drops by exactly one. */
  ghost predicate Exact(s: Shape, height: seq<nat>)
    requires Layered(s, height)
  {
    forall c, d | 0 <= c < |s| && Kid(s, c, d) >= 0 :: height[Kid(s, c, d)] + 1 == height[c]
  }

  // ----- the gaps ---------------------------------------------------------------------------

  /**
    A gapped prefix: inside `region` (the part of the prefix before the gap) the bytes up to
    `level` do not matter, and the addresses from byte `level` on are classified below `chunk`.
  */
  datatype Warp = Warp(region: Net, level: nat, chunk: nat)

  ghost predicate InGap(warps: seq<Warp>, x: Digits) {
    exists i :: 0 <= i < |warps| && |x| <= warps[i].level && Covers(warps[i].region, x)
  }

  /** Chunks are shared in gaps only, the roots are not shared, and a gap is filled with chunks down to its level. */
  ghost predicate Gaps(s: Shape, flags: seq<bool>, roots: set<nat>, warps: seq<Warp>) {
    && (forall r, x | r in roots && Walk(s, r, x).Some? && Walk(s, r, x).value < |flags|
        && flags[Walk(s, r, x).value] ::
          r == 0 && x != [] && InGap(warps, x))
    && (forall x | InGap(warps, x) :: Walk(s, 0, x).Some?)
  }

  lemma NewPathGaps(s: Shape, s': Shape, flags: seq<bool>, flags': seq<bool>, roots: set<nat>, warps: seq<Warp>, r: nat,
                    q: Digits)
    requires Gaps(s, flags, roots, warps) && |s| == |flags| && flags' == flags + [false] && 0 in roots
    requires NewPath(s, s', roots, r, q)
    ensures Gaps(s', flags', roots, warps)
  {
    hide InGap;
  }

  // ----- giving a slot a chunk of its own ---------------------------------------------------

  /** Slot d of chunk c gets a private chunk that holds what the slot held before. */
  function Hang(chunks: seq<Chunk>, c: nat, d: bv8): (chunks': seq<Chunk>)
    requires Sized(chunks) && c < |chunks|
    requires chunks[c].At(d).Link? ==> chunks[c].At(d).chunk < |chunks|
    ensures Sized(chunks') && |chunks'| == |chunks| + 1
  {
    var n := match chunks[c].At(d)
             case Group(g) => Filled(false, Group(g))
             case Link(k) => Chunk(false, chunks[k].values);
    chunks[c := chunks[c].Put(d, Link(|chunks|))] + [n]
  }

  ghost function HangHeight(height: seq<nat>, c: nat): seq<nat>
    requires c < |height| && height[c] >= 2
  {
    height + [height[c] - 1]
  }

  /** The new chunk is private, and no other chunk changes its mark. */
  lemma HangMarks(chunks: seq<Chunk>, height: seq<nat>, c: nat, d: bv8)
    requires Sized(chunks) && c < |chunks| == |height| && height[c] >= 2
    requires chunks[c].At(d).Link? ==> chunks[c].At(d).chunk < |chunks|
    ensures !Hang(chunks, c, d)[|chunks|].multirefs && Hang(chunks, c, d)[c].multirefs == chunks[c].multirefs
    ensures Extends(height, HangHeight(height, c)) && HangHeight(height, c)[c] == height[c]
  {
  }

  lemma HangShape(chunks: seq<Chunk>, height: seq<nat>, c: nat, d: bv8)
    requires WellFormed(chunks, height) && Exact(ShapeOf(chunks), height)
    requires c < |chunks| && height[c] >= 2
    ensures chunks[c].At(d).Link? ==> chunks[c].At(d).chunk < |chunks|
    ensures var s, s' := ShapeOf(chunks), ShapeOf(Hang(chunks, c, d));
            && (forall x, e | 0 <= x < |chunks| :: Kid(s', x, e) == if x == c && e == d then |chunks| else Kid(s, x, e))
            && (forall e :: Kid(s', |chunks|, e) == if Kid(s, c, d) >= 0 then Kid(s, Kid(s, c, d), e) else -1)
            && Layered(s', HangHeight(height, c)) && Exact(s', HangHeight(height, c))
  {
    HangKids(chunks, height, c, d);
    HangLayers(ShapeOf(chunks), ShapeOf(Hang(chunks, c, d)), height, c, d);
  }

  lemma HangKids(chunks: seq<Chunk>, height: seq<nat>, c: nat, d: bv8)
    requires WellFormed(chunks, height) && c < |chunks| && height[c] >= 2
    ensures chunks[c].At(d).Link? ==> chunks[c].At(d).chunk < |chunks|
    ensures var s, s' := ShapeOf(chunks), ShapeOf(Hang(chunks, c, d));
            && |s'| == |s| + 1
            && (forall x, e | 0 <= x < |chunks| :: Kid(s', x, e) == if x == c && e == d then |chunks| else Kid(s, x, e))
            && (forall e :: Kid(s', |chunks|, e) == if Kid(s, c, d) >= 0 then Kid(s, Kid(s, c, d), e) else -1)
  {
    var s := ShapeOf(chunks);
    assert Kid(s, c, d) == if chunks[c].At(d).Link? then chunks[c].At(d).chunk else -1;
    var chunks' := Hang(chunks, c, d);
    var s' := ShapeOf(chunks');
    forall x, e | 0 <= x < |chunks|
      ensures Kid(s', x, e) == if x == c && e == d then |chunks| else Kid(s, x, e)
    {
      assert chunks'[x] == if x == c then chunks[c].Put(d, Link(|chunks|)) else chunks[x];
    }
    forall e
      ensures Kid(s', |chunks|, e) == if Kid(s, c, d) >= 0 then Kid(s, Kid(s, c, d), e) else -1
    {
      if chunks[c].At(d).Link? {
        assert chunks'[|chunks|].At(e) == chunks[chunks[c].At(d).chunk].At(e);
      }
    }
  }

  lemma HangLayers(s: Shape, s': Shape, height: seq<nat>, c: nat, d: bv8)
    requires Layered(s, height) && Exact(s, height) && c < |s| && height[c] >= 2 && |s'| == |s| + 1
    requires forall x, e | 0 <= x < |s| :: Kid(s', x, e) == if x == c && e == d then |s| else Kid(s, x, e)
    requires forall e :: Kid(s', |s|, e) == if Kid(s, c, d) >= 0 then Kid(s, Kid(s, c, d), e) else -1
    ensures Layered(s', HangHeight(height, c)) && Exact(s', HangHeight(height, c))
  {
    hide Kid;
  }

  /** No address changes its group id. */
  lemma {:induction false} HangKeepsLookup(chunks: seq<Chunk>, height: seq<nat>, c: nat, d: bv8, x: nat, a: Digits)
    requires WellFormed(chunks, height) && Exact(ShapeOf(chunks), height)
    requires c < |chunks| && height[c] >= 2
    requires chunks[c].At(d).Link? ==> chunks[c].At(d).chunk < |chunks|
    requires WellFormed(Hang(chunks, c, d), HangHeight(height, c))
    requires x < |chunks| && height[x] <= |a|
    ensures Lookup(Hang(chunks, c, d), HangHeight(height, c), x, a) == Lookup(chunks, height, x, a)
    decreases |a|
  {
    HangShape(chunks, height, c, d);
    var s := ShapeOf(chunks);
    var chunks', h' := Hang(chunks, c, d), HangHeight(height, c);
    assert chunks'[x] == if x == c then chunks[c].Put(d, Link(|chunks|)) else chunks[x];
    assert Kid(s, x, a[0]) == if chunks[x].At(a[0]).Link? then chunks[x].At(a[0]).chunk else -1;
    if x == c && a[0] == d {
      var t := a[1..];
      assert height[c] - 1 <= |t|;
      assert Lookup(chunks', h', x, a) == Lookup(chunks', h', |chunks|, t);
      match chunks[c].At(d) {
        case Group(g) =>
          assert chunks'[|chunks|].At(t[0]) == Group(g);
        case Link(k) =>
          assert chunks'[|chunks|].At(t[0]) == chunks[k].At(t[0]);
          assert Kid(s, k, t[0]) == if chunks[k].At(t[0]).Link? then chunks[k].At(t[0]).chunk else -1;
          if chunks[k].At(t[0]).Link? {
            HangKeepsLookup(chunks, height, c, d, chunks[k].At(t[0]).chunk, t[1..]);
          }
      }
    } else if chunks[x].At(a[0]).Link? {
      HangKeepsLookup(chunks, height, c, d, chunks[x].At(a[0]).chunk, a[1..]);
    }
  }

  /** A new chunk hangs in slot d of chunk c and refers to what the old one referred to. */
  ghost predicate Hung(s: Shape, s': Shape, c: nat, d: bv8) {
    && (forall x, e | 0 <= x < |s| :: Kid(s', x, e) == if x == c && e == d then |s| else Kid(s, x, e))
    && (forall e :: Kid(s', |s|, e) == if Kid(s, c, d) >= 0 then Kid(s, Kid(s, c, d), e) else -1)
  }

  /** The only walk to chunk c is q below root r. */
  ghost predicate OnlyWalk(s: Shape, roots: set<nat>, c: nat, r: nat, q: Digits) {
    forall r', p | r' in roots && Walk(s, r', p) == Some(c) :: r' == r && p == q
  }

  /** One digit more behind the new chunk. */
  lemma HungBehind(s: Shape, s': Shape, c: nat, d: bv8, r: nat, q: Digits, e: bv8)
    requires Hung(s, s', c, d) && Walk(s, r, q) == Some(c) && Walk(s', r, q + [d]) == Some(|s|)
    ensures Walk(s', r, q + [d] + [e]) == Walk(s, r, q + [d] + [e])
  {
    WalkMore(s, r, q, d);
    WalkMore(s, r, q + [d], e);
    WalkMore(s', r, q + [d], e);
    hide Walk, Kid;
  }

  lemma WalkMore(s: Shape, r: nat, p: Digits, e: bv8)
    ensures var w := Walk(s, r, p);
            Walk(s, r, p + [e]) == if w.Some? && Kid(s, w.value, e) >= 0 then Some(Kid(s, w.value, e)) else None
  {
    assert (p + [e])[..|p|] == p;
  }

  /** One digit more behind a chunk that was there before. */
  lemma HungElsewhere(s: Shape, s': Shape, roots: set<nat>, c: nat, d: bv8, r: nat, q: Digits, r': nat, p: Digits,
                      e: bv8)
    requires Hung(s, s', c, d) && OnlyWalk(s, roots, c, r, q) && Walk(s, r, q) == Some(c) && c < |s| && r' in roots
    requires Walk(s', r', p) == Walk(s, r', p) && (Walk(s, r', p).Some? ==> Walk(s, r', p).value < |s|)
    ensures Walk(s', r', p + [e]) == if r' == r && p == q && e == d then Some(|s|) else Walk(s, r', p + [e])
  {
    WalkMore(s, r', p, e);
    WalkMore(s', r', p, e);
    hide Walk, Kid;
  }

  /** The only walk that changes is the one to the slot that got the new chunk. */
  lemma {:induction false} HangWalk(s: Shape, s': Shape, height: seq<nat>, roots: set<nat>, c: nat, d: bv8, r: nat,
                                    q: Digits, r': nat, p: Digits)
    requires Hung(s, s', c, d) && OnlyWalk(s, roots, c, r, q) && Walk(s, r, q) == Some(c) && c < |s|
    requires Layered(s, height) && Rooted(height, roots) && r' in roots
    ensures Walk(s', r', p) == if r' == r && p == q + [d] then Some(|s|) else Walk(s, r', p)
    decreases |p|
  {
    hide Hung, OnlyWalk, Kid;
    if p != [] {
      var p', e := p[..|p| - 1], p[|p| - 1];
      assert p == p' + [e] && (p == q + [d] <==> p' == q && e == d);
      HangWalk(s, s', height, roots, c, d, r, q, r', p');
      hide Walk;
      if Walk(s, r', p').Some? {
        WalkHeight(s, height, r', p');
      }
      if r' == r && p' == q + [d] {
        HungBehind(s, s', c, d, r, q, e);
      } else {
        HungElsewhere(s, s', roots, c, d, r, q, r', p', e);
      }
    }
  }

  /** Only the walk to q below root r changes: it now leads to a new chunk. */
  ghost predicate NewPath(s: Shape, s': Shape, roots: set<nat>, r: nat, q: Digits) {
    forall r', p | r' in roots :: Walk(s', r', p) == if r' == r && p == q then Some(|s|) else Walk(s, r', p)
  }

  /** A new private chunk at one path, all other walks unchanged, keeps the alignment. */
  lemma NewPathAligned(s: Shape, s': Shape, flags: seq<bool>, flags': seq<bool>, roots: set<nat>,
                       nets: iset<(nat, Net)>,
                       r: nat, q: Digits)
    requires Aligned(s, flags, roots, nets) && |s| == |flags| && flags' == flags + [false]
    requires NewPath(s, s', roots, r, q)
    ensures Aligned(s', flags', roots, nets)
  {
    forall r1, x1, r2, x2 | r1 in roots && r2 in roots && Walk(s', r1, x1).Some? && Walk(s', r1, x1) == Walk(s', r2, x2)
      ensures Walk(s', r1, x1).value < |flags'|
      ensures Twins(flags'[Walk(s', r1, x1).value], nets, r1, x1, r2, x2)
    {
      if !(r1 == r && x1 == q) {
        assert Walk(s, r1, x1).value < |flags|;
      }
    }
  }

  /** Giving a slot of a private chunk a chunk of its own keeps the labels and the alignment. */
  lemma HangKeeps(chunks: seq<Chunk>, height: seq<nat>, roots: set<nat>, nets: iset<(nat, Net)>,
                  c: nat, d: bv8, r: nat, q: Digits)
    requires WellFormed(chunks, height) && Exact(ShapeOf(chunks), height) && Rooted(height, roots)
    requires Aligned(ShapeOf(chunks), Flags(chunks), roots, nets)
    requires r in roots && Walk(ShapeOf(chunks), r, q) == Some(c)
    requires c < |chunks| && height[c] >= 2 && !chunks[c].multirefs
    ensures chunks[c].At(d).Link? ==> chunks[c].At(d).chunk < |chunks|
    ensures var chunks', h' := Hang(chunks, c, d), HangHeight(height, c);
            && WellFormed(chunks', h') && Exact(ShapeOf(chunks'), h') && Rooted(h', roots)
            && Labels(chunks', h', roots) == Labels(chunks, height, roots)
            && Aligned(ShapeOf(chunks'), Flags(chunks'), roots, nets)
            && Walk(ShapeOf(chunks'), r, q) == Some(c) && Walk(ShapeOf(chunks'), r, q + [d]) == Some(|chunks|)
            && NewPath(ShapeOf(chunks), ShapeOf(chunks'), roots, r, q + [d])
               && Flags(chunks') == Flags(chunks) + [false]
  {
    HangShape(chunks, height, c, d);
    var chunks', h' := Hang(chunks, c, d), HangHeight(height, c);
    var s, s', flags, flags' := ShapeOf(chunks), ShapeOf(chunks'), Flags(chunks), Flags(chunks');
    assert flags' == flags + [false];
    forall r', p | r' in roots && Walk(s, r', p) == Some(c)
      ensures r' == r && p == q
    {
      assert Twins(flags[c], nets, r', p, r, q);
    }
    hide Aligned, Layered, Exact, Hang;
    assert Hung(s, s', c, d) && OnlyWalk(s, roots, c, r, q);
    forall r', p | r' in roots
      ensures Walk(s', r', p) == if r' == r && p == q + [d] then Some(|chunks|) else Walk(s, r', p)
    {
      HangWalk(s, s', height, roots, c, d, r, q, r', p);
    }
    NewPathAligned(s, s', flags, flags', roots, nets, r, q + [d]);
    forall x: Cell | IsCell(height, roots, x)
      ensures Lookup(chunks', h', x.0, x.1) == Lookup(chunks, height, x.0, x.1)
    {
      HangKeepsLookup(chunks, height, c, d, x.0, x.1);
    }
  }

  /** Below the changed chunk nothing changes. */
  lemma {:induction false} HangReaches(chunks: seq<Chunk>, height: seq<nat>, c: nat, d: bv8, k: nat, y: nat)
    requires WellFormed(chunks, height) && Exact(ShapeOf(chunks), height)
    requires c < |chunks| && height[c] >= 2
    requires chunks[c].At(d).Link? ==> chunks[c].At(d).chunk < |chunks|
    requires WellFormed(Hang(chunks, c, d), HangHeight(height, c))
    requires k < |chunks| && height[k] < height[c]
    requires Reaches(ShapeOf(Hang(chunks, c, d)), HangHeight(height, c), k, y)
    ensures Reaches(ShapeOf(chunks), height, k, y) && y < |chunks|
    decreases height[k]
  {
    HangShape(chunks, height, c, d);
    var s, s', h' := ShapeOf(chunks), ShapeOf(Hang(chunks, c, d)), HangHeight(height, c);
    if y != k {
      var e :| Kid(s', k, e) >= 0 && Reaches(s', h', Kid(s', k, e), y);
      assert Kid(s', k, e) == Kid(s, k, e);
      HangReaches(chunks, height, c, d, Kid(s, k, e), y);
    }
  }

  lemma {:induction false} HangStop(chunks: seq<Chunk>, height: seq<nat>, c: nat, d: bv8, x: nat, a: Digits)
    requires WellFormed(chunks, height) && Exact(ShapeOf(chunks), height)
    requires c < |chunks| && height[c] >= 2
    requires chunks[c].At(d).Link? ==> chunks[c].At(d).chunk < |chunks|
    requires WellFormed(Hang(chunks, c, d), HangHeight(height, c))
    requires x < |chunks| && height[x] <= |a|
    ensures var slot' := Stop(ShapeOf(Hang(chunks, c, d)), HangHeight(height, c), x, a);
            slot'.0 == |chunks| || slot' == Stop(ShapeOf(chunks), height, x, a)
    decreases |a|
  {
    HangShape(chunks, height, c, d);
    var s, s', h' := ShapeOf(chunks), ShapeOf(Hang(chunks, c, d)), HangHeight(height, c);
    if x == c && a[0] == d {
      assert Stop(s', h', x, a) == Stop(s', h', |chunks|, a[1..]);
      if Kid(s', |chunks|, a[1..][0]) >= 0 {
        var k := Kid(s, c, d);
        assert Kid(s', |chunks|, a[1..][0]) == Kid(s, k, a[1..][0]);
        HangStop(chunks, height, c, d, Kid(s, k, a[1..][0]), a[1..][1..]);
      }
    } else if Kid(s, x, a[0]) >= 0 {
      assert Kid(s', x, a[0]) == Kid(s, x, a[0]);
      HangStop(chunks, height, c, d, Kid(s, x, a[0]), a[1..]);
    }
  }

  lemma HangVisited(chunks: seq<Chunk>, height: seq<nat>, roots: set<nat>, c: nat, d: bv8, prev: set<nat>,
                    done: iset<Cell>)
    requires WellFormed(chunks, height) && Exact(ShapeOf(chunks), height) && Rooted(height, roots)
    requires c < |chunks| && height[c] >= 2
    requires chunks[c].At(d).Link? ==> chunks[c].At(d).chunk < |chunks|
    requires WellFormed(Hang(chunks, c, d), HangHeight(height, c))
    requires Visited(ShapeOf(chunks), height, roots, prev, height[c], done)
    ensures Rooted(HangHeight(height, c), roots)
    ensures Visited(ShapeOf(Hang(chunks, c, d)), HangHeight(height, c), roots, prev, height[c], done)
  {
    var s, s', h' := ShapeOf(chunks), ShapeOf(Hang(chunks, c, d)), HangHeight(height, c);
    forall k, x | k in prev && x in ChunkCells(s', h', roots, k)
      ensures x in done
    {
      HangReaches(chunks, height, c, d, k, Stop(s', h', x.0, x.1).0);
      HangStop(chunks, height, c, d, x.0, x.1);
      assert x in ChunkCells(s, height, roots, k);
    }
  }

  function Ones(n: nat): (m: Bytes)
    ensures |m| == n && forall i | 0 <= i < n :: m[i] == 0xFF
  {
    seq(n, _ => 0xFF)
  }

  lemma PathStep(addr: Bytes, mask: Bytes, q: Digits)
    requires |addr| == |mask| && Contiguous(mask) && !AllZero(mask[1..])
    ensures mask[0] == 0xFF && addr[0] & mask[0] == addr[0] && Contiguous(mask[1..]) && |mask| >= 2
    ensures q + addr == q + [addr[0]] + addr[1..]
    ensures Ones(|q|) + mask == Ones(|q + [addr[0]]|) + mask[1..]
  {
  }

  // ----- the addresses below a slot and the network -----------------------------------------

  lemma {:induction false} LevelAfterOnes(mask: Bytes, n: nat)
    requires n < |mask|
    requires forall i | 0 <= i < n :: mask[i] == 0xFF
    requires AllZero(mask[n + 1..]) && (n > 0 ==> mask[n] != 0)
    ensures Level(mask) == n
    decreases n
  {
    if n == 0 {
    } else {
      assert mask[1..][n - 1] == mask[n];
      assert mask[1..][n - 1 + 1..] == mask[n + 1..];
      LevelAfterOnes(mask[1..], n - 1);
    }
  }

  lemma FirstByteSet(mask: Bytes)
    requires |mask| > 0 && AllZero(mask[1..])
    ensures mask[0] == 0 <==> AllZero(mask)
  {
    assert forall j | 0 < j < |mask| :: mask[j] == mask[1..][j - 1];
  }

  lemma CoversByLevel(n: Net, x: Bytes, k: nat)
    requires |n.mask| == |n.addr| > 0 && Level(n.mask) < k <= |x| && Covers(n, x[..k])
    ensures Covers(n, x)
  {
    hide Agree;
    forall i | 0 <= i < |x| && i < |n.mask|
      ensures Agree(x[i], n.mask[i], n.addr[i])
    {
      if i < k {
        assert x[..k][i] == x[i];
      }
      AgreeEnds(x[i], n.addr[i]);
    }
  }

  /** Below a slot of a private chunk lie only addresses of the network, if the network covers the slot. */
  lemma SlotInNet(s: Shape, height: seq<nat>, flags: seq<bool>, roots: set<nat>, nets: iset<(nat, Net)>,
                  r: nat, n: Net, q: Digits, c: nat, d: bv8, x: Cell)
    requires Layered(s, height) && Rooted(height, roots) && |flags| == |s| && Aligned(s, flags, roots, nets)
    requires r in roots && (r, n) in nets && |n.addr| == |n.mask| > 0 && Level(n.mask) == |q|
    requires c < |s| && Walk(s, r, q) == Some(c) && !flags[c]
    requires Covers(n, q + [d])
    requires x in SlotCells(s, height, roots, c, d)
    ensures x in NetCells(r, n)
  {
    hide Aligned, Covers, Level;
    var (y, e) := Stop(s, height, x.0, x.1);
    var k := StopWalk(s, height, x.0, x.1);
    var p := x.1[..k];
    if Kid(s, c, d) < 0 {
      AlignedTwins(s, flags, roots, nets, r, q, x.0, p);
      assert x.1[..k + 1] == q + [d];
      CoversByLevel(n, x.1, k + 1);
    } else {
      var t := ReachWalk(s, height, Kid(s, c, d), y);
      var full := q + [d] + t;
      WalkSplit(s, r, q + [d], t);
      WalkMore(s, r, q, d);
      hide Walk;
      AlignedTwins(s, flags, roots, nets, r, full, x.0, p);
      assert full[..|q| + 1] == q + [d];
      CoversByLevel(n, full, |q| + 1);
      assert Covers(n, p);
      CoversByLevel(n, x.1, k);
    }
  }

  /** Every address that starts with the path of the slot lies below it. */
  lemma PathInSlot(s: Shape, height: seq<nat>, roots: set<nat>, r: nat, q: Digits, c: nat, d: bv8, x: Cell)
    requires Layered(s, height) && Rooted(height, roots) && c < |s| && Walk(s, r, q) == Some(c)
    requires IsCell(height, roots, x) && x.0 == r && |q| < |x.1| && x.1[..|q|] == q && x.1[|q|] == d
    ensures x in SlotCells(s, height, roots, c, d)
  {
    var a := x.1[|q|..];
    assert x.1 == q + a && a[0] == d;
    StopAlongWalk(s, height, r, q, a);
    if Kid(s, c, d) >= 0 {
      StopReached(s, height, Kid(s, c, d), a[1..]);
    }
  }

  /** The addresses after path q whose next digit is at least first and at most last. */
  ghost predicate After(q: Digits, first: bv8, last: bv8, a: Digits) {
    |q| < |a| && a[..|q|] == q && Between(first, a[|q|], last)
  }

  /** What has been visited beyond `done` while the slots of a network are visited in order. */
  ghost predicate SlotsDone(dom: iset<Cell>, done: iset<Cell>, now: iset<Cell>, r: nat, n: Net) {
    done <= now && forall x | x in dom && x in now :: x in done || x in NetCells(r, n)
  }

  lemma SlotsDoneStep(dom: iset<Cell>, done: iset<Cell>, now: iset<Cell>, cells: iset<Cell>, r: nat, n: Net)
    requires SlotsDone(dom, done, now, r, n)
    requires forall x | x in dom && x in cells :: x in NetCells(r, n)
    ensures SlotsDone(dom, done, now + cells, r, n)
  {
  }

  /** The addresses after path q with a digit from first to last, below d while `more`, are visited. */
  ghost predicate DigitsDone(dom: iset<Cell>, now: iset<Cell>, r: nat, q: Digits,
                             first: bv8, last: bv8, d: bv8, more: bool)
  {
    forall x | x in dom && x.0 == r && After(q, first, last, x.1) && (more ==> x.1[|q|] < d) :: x in now
  }

  lemma DigitsStart(dom: iset<Cell>, now: iset<Cell>, r: nat, q: Digits, a: bv8, m: bv8)
    requires Leading(m)
    ensures Between(Low(a, m), Low(a, m), High(a, m))
    ensures DigitsDone(dom, now, r, q, Low(a, m), High(a, m), Low(a, m), true)
  {
    assert Between(Low(a, m), Low(a, m), High(a, m));
    hide Low, High, Leading;
  }

  lemma DigitsStep(dom: iset<Cell>, now: iset<Cell>, cells: iset<Cell>, r: nat, q: Digits,
                   first: bv8, last: bv8, d: bv8)
    requires Between(first, d, last)
    requires DigitsDone(dom, now, r, q, first, last, d, true)
    requires forall x | x in dom && x.0 == r && |q| < |x.1| && x.1[..|q|] == q && x.1[|q|] == d :: x in cells
    ensures d == last ==> DigitsDone(dom, now + cells, r, q, first, last, d, false)
    ensures d != last ==> DigitsDone(dom, now + cells, r, q, first, last, d + 1, true)
                          && Between(first, d + 1, last) && !(d + 1) < !d
  {
    assert d != last ==> Between(first, d + 1, last) && !(d + 1) < !d;
    forall x | x in dom && x.0 == r && After(q, first, last, x.1) && (d == last || x.1[|q|] < d + 1)
      ensures x in now + cells
    {
      UpTo(x.1[|q|], first, last, d);
    }
  }

  lemma UpTo(x: bv8, first: bv8, last: bv8, d: bv8)
    requires Between(first, x, last) && Between(first, d, last) && (d == last || x < d + 1)
    ensures x < d || x == d
  {
  }

  lemma CoversDigits(addr: Digits, mask: Digits, q: Digits, x: Digits)
    requires |addr| == |mask| > 0 && AllZero(mask[1..])
    requires |x| > |q|
    ensures Covers(Net(q + addr, Ones(|q|) + mask), x) <==> x[..|q|] == q && Agree(x[|q|], mask[0], addr[0])
  {
    hide Agree;
    var n := Net(q + addr, Ones(|q|) + mask);
    assert n.mask[|q|] == mask[0] && n.addr[|q|] == addr[0];
    forall i | 0 <= i < |q|
      ensures Agree(x[i], n.mask[i], n.addr[i]) <==> x[i] == q[i]
    {
      assert n.mask[i] == 0xFF && n.addr[i] == q[i];
      AgreeEnds(x[i], n.addr[i]);
    }
    forall i | |q| < i < |x| && i < |n.mask|
      ensures Agree(x[i], n.mask[i], n.addr[i])
    {
      assert n.mask[i] == mask[1..][i - |q| - 1] == 0;
      AgreeEnds(x[i], n.addr[i]);
    }
    if x[..|q|] == q {
      assert forall i | 0 <= i < |q| :: x[i] == x[..|q|][i];
    }
  }

  /** The first byte after the path takes exactly the values of the slots. */
  lemma CoversSlot(addr: Digits, mask: Digits, q: Digits, x: Digits)
    requires |addr| == |mask| > 0 && Leading(mask[0]) && AllZero(mask[1..])
    requires |x| > |q|
    ensures Covers(Net(q + addr, Ones(|q|) + mask), x)
       <==> After(q, Low(addr[0], mask[0]), High(addr[0], mask[0]), x)
  {
    hide Agree, Covers, AllZero, Leading, Low, High, Between;
    CoversDigits(addr, mask, q, x);
    AgreeInterval(x[|q|], mask[0], addr[0]);
  }

  /** Visiting slot d, one of the slots of the network: only addresses of the network, all those after path q + [d]. */
  lemma SlotCellsStep(s: Shape, height: seq<nat>, flags: seq<bool>, roots: set<nat>, nets: iset<(nat, Net)>,
                      r: nat, n: Net, addr: Digits, mask: Digits, q: Digits, c: nat, d: bv8)
    requires Layered(s, height) && Rooted(height, roots) && |flags| == |s| && Aligned(s, flags, roots, nets)
    requires r in roots && (r, n) in nets && |q| < height[r]
    requires |addr| == |mask| > 0 && Leading(mask[0]) && AllZero(mask[1..]) && (|q| > 0 ==> !AllZero(mask))
    requires n == Net(q + addr, Ones(|q|) + mask) && Between(Low(addr[0], mask[0]), d, High(addr[0], mask[0]))
    requires c < |s| && Walk(s, r, q) == Some(c) && !flags[c]
    ensures forall x | IsCell(height, roots, x) ::
              && (x in SlotCells(s, height, roots, c, d) ==> x in NetCells(r, n))
              && (x.0 == r && x.1[..|q|] == q && x.1[|q|] == d ==> x in SlotCells(s, height, roots, c, d))
  {
    hide Aligned, SlotCells, Covers, Walk, Level, Layered, Leading, NetCells, Low, High, Between;
    CoversSlot(addr, mask, q, q + [d]);
    assert (q + [d])[..|q|] == q;
    assert n.mask[|q| + 1..] == mask[1..];
    FirstByteSet(mask);
    LevelAfterOnes(n.mask, |q|);
    forall x | IsCell(height, roots, x)
      ensures x in SlotCells(s, height, roots, c, d) ==> x in NetCells(r, n)
      ensures x.0 == r && x.1[..|q|] == q && x.1[|q|] == d ==> x in SlotCells(s, height, roots, c, d)
    {
      if x in SlotCells(s, height, roots, c, d) {
        SlotInNet(s, height, flags, roots, nets, r, n, q, c, d, x);
      }
      if x.0 == r && x.1[..|q|] == q && x.1[|q|] == d {
        PathInSlot(s, height, roots, r, q, c, d, x);
      }
    }
  }

  lemma SlotsDoneAll(dom: iset<Cell>, done: iset<Cell>, now: iset<Cell>,
                     r: nat, n: Net, addr: Digits, mask: Digits, q: Digits, d: bv8)
    requires |addr| == |mask| > 0 && Leading(mask[0]) && AllZero(mask[1..])
    requires n == Net(q + addr, Ones(|q|) + mask)
    requires forall x | x in dom && x.0 == r :: |x.1| == |q| + |addr|
    requires SlotsDone(dom, done, now, r, n)
    requires DigitsDone(dom, now, r, q, Low(addr[0], mask[0]), High(addr[0], mask[0]), d, false)
    ensures forall x | x in dom :: x in now <==> x in done + NetCells(r, n)
  {
    hide Leading, Low, High, Between, Covers;
    forall x | x in dom
      ensures x in now <==> x in done + NetCells(r, n)
    {
      if x.0 == r {
        CoversSlot(addr, mask, q, x.1);
      }
    }
  }

  lemma SplittingKeys(before: imap<Cell, nat>, now: imap<Cell, nat>, done: iset<Cell>, remap: map<nat, nat>, lo: nat,
                      next: nat)
    requires Splitting(before, now, done, remap, lo, next)
    ensures before.Keys == now.Keys
  {
  }

  /** New chunks are added behind the old ones. */
  ghost predicate Extends(h: seq<nat>, h': seq<nat>) {
    |h| <= |h'| && h'[..|h|] == h
  }

  lemma ExtendsSame(h: seq<nat>)
    ensures Extends(h, h)
  {
  }

  lemma ExtendsTransitive(h: seq<nat>, h': seq<nat>, h'': seq<nat>)
    requires Extends(h, h') && Extends(h', h'')
    ensures Extends(h, h'')
  {
    assert h''[..|h|] == h''[..|h'|][..|h|];
  }

  /** Splitting depends on the visited set only through the cells. */
  lemma SplitSame(before: imap<Cell, nat>, now: imap<Cell, nat>, done: iset<Cell>, done': iset<Cell>,
                  remap: map<nat, nat>, lo: nat, next: nat)
    requires Splitting(before, now, done, remap, lo, next)
    requires forall x | x in now :: x in done <==> x in done'
    ensures Splitting(before, now, done', remap, lo, next)
  {
  }

  lemma {:induction false} WalkExact(s: Shape, height: seq<nat>, c: nat, p: Digits)
    requires Layered(s, height) && Exact(s, height) && c < |s| && Walk(s, c, p).Some?
    ensures Walk(s, c, p).value < |s| && height[Walk(s, c, p).value] + |p| == height[c]
    decreases |p|
  {
    if p != [] {
      WalkExact(s, height, c, p[..|p| - 1]);
    }
  }

  // ----- relabelling slots ------------------------------------------------------------------

  /** Writing a group id over a group id keeps the shape. */
  lemma RelabelShape(chunks: seq<Chunk>, c: nat, d: bv8, g: nat)
    requires Sized(chunks) && c < |chunks| && chunks[c].At(d).Group?
    ensures Sized(chunks[c := chunks[c].Put(d, Group(g))])
    ensures ShapeOf(chunks[c := chunks[c].Put(d, Group(g))]) == ShapeOf(chunks)
    ensures Flags(chunks[c := chunks[c].Put(d, Group(g))]) == Flags(chunks)
  {
    var chunks' := chunks[c := chunks[c].Put(d, Group(g))];
    assert Links(chunks'[c]) == Links(chunks[c]) by {
      forall i | 0 <= i < 256
        ensures Links(chunks'[c])[i] == Links(chunks[c])[i]
      {
        assert chunks'[c].At(i as bv8) == if i as bv8 == d then Group(g) else chunks[c].At(i as bv8);
      }
    }
    assert forall x | 0 <= x < |chunks| && x != c :: chunks'[x] == chunks[x];
  }

  lemma RelabelSlot(chunks: seq<Chunk>, height: seq<nat>, roots: set<nat>, c: nat, d: bv8, g: nat, x: Cell)
    requires WellFormed(chunks, height) && Rooted(height, roots)
    requires c < |chunks| && chunks[c].At(d).Group? && IsCell(height, roots, x)
    requires WellFormed(chunks[c := chunks[c].Put(d, Group(g))], height)
    requires ShapeOf(chunks[c := chunks[c].Put(d, Group(g))]) == ShapeOf(chunks)
    ensures Lookup(chunks[c := chunks[c].Put(d, Group(g))], height, x.0, x.1)
         == if x in SlotCells(ShapeOf(chunks), height, roots, c, d) then g else Lookup(chunks, height, x.0, x.1)
  {
    var s, chunks' := ShapeOf(chunks), chunks[c := chunks[c].Put(d, Group(g))];
    LeafSlotCells(chunks, height, roots, c, d, x);
    LookupAtStop(chunks, height, x.0, x.1);
    LookupAtStop(chunks', height, x.0, x.1);
    var (y, e) := Stop(s, height, x.0, x.1);
    assert chunks'[y].At(e) == if (y, e) == (c, d) then Group(g) else chunks[y].At(e);
  }

  /** The walk ends below one of the slots of chunk c before slot i. */
  ghost predicate EndsFirst(s: Shape, height: seq<nat>, c: nat, i: bv8, slot: (nat, bv8))
    requires Layered(s, height) && c < |s|
  {
    exists e: bv8 :: e < i && EndsBelow(s, height, c, e, slot)
  }

  /** The addresses that end below one of the slots of chunk c before slot i. */
  ghost function FirstCells(s: Shape, height: seq<nat>, roots: set<nat>, c: nat, i: bv8): iset<Cell>
    requires Layered(s, height) && Rooted(height, roots) && c < |s|
  {
    iset x: Cell | IsCell(height, roots, x) && EndsFirst(s, height, c, i, Stop(s, height, x.0, x.1))
  }

  lemma FirstCellsNone(s: Shape, height: seq<nat>, roots: set<nat>, c: nat)
    requires Layered(s, height) && Rooted(height, roots) && c < |s|
    ensures FirstCells(s, height, roots, c, 0) == iset{}
  {
  }

  lemma FirstCellsStep(s: Shape, height: seq<nat>, roots: set<nat>, c: nat, i: bv8)
    requires Layered(s, height) && Rooted(height, roots) && c < |s| && i != 0xFF
    ensures FirstCells(s, height, roots, c, i + 1)
         == FirstCells(s, height, roots, c, i) + SlotCells(s, height, roots, c, i)
  {
    forall x | IsCell(height, roots, x)
      ensures x in FirstCells(s, height, roots, c, i + 1)
         <==> x in FirstCells(s, height, roots, c, i) || x in SlotCells(s, height, roots, c, i)
    {
      var slot := Stop(s, height, x.0, x.1);
      if EndsFirst(s, height, c, i + 1, slot) {
        var e: bv8 :| e < i + 1 && EndsBelow(s, height, c, e, slot);
        assert e < i || e == i;
      }
    }
  }

  lemma FirstCellsLast(s: Shape, height: seq<nat>, roots: set<nat>, c: nat)
    requires Layered(s, height) && Rooted(height, roots) && c < |s|
    ensures ChunkCells(s, height, roots, c)
         == FirstCells(s, height, roots, c, 0xFF) + SlotCells(s, height, roots, c, 0xFF)
  {
    forall x | IsCell(height, roots, x)
      ensures EndsFirst(s, height, c, 0xFF, Stop(s, height, x.0, x.1))
              || EndsBelow(s, height, c, 0xFF, Stop(s, height, x.0, x.1))
              <==> Reaches(s, height, c, Stop(s, height, x.0, x.1).0)
    {
      var slot := Stop(s, height, x.0, x.1);
      if slot.0 == c {
        assert EndsBelow(s, height, c, slot.1, slot) && (slot.1 < 0xFF || slot.1 == 0xFF);
      } else if Reaches(s, height, c, slot.0) {
        var e :| Kid(s, c, e) >= 0 && Reaches(s, height, Kid(s, c, e), slot.0);
        assert EndsBelow(s, height, c, e, slot) && (e < 0xFF || e == 0xFF);
      }
    }
  }

  lemma LinkSlotCells(chunks: seq<Chunk>, height: seq<nat>, roots: set<nat>, c: nat, d: bv8)
    requires WellFormed(chunks, height) && Rooted(height, roots) && c < |chunks| && chunks[c].At(d).Link?
    ensures chunks[c].At(d).chunk < |chunks| && 0 <= height[chunks[c].At(d).chunk] < height[c]
    ensures SlotCells(ShapeOf(chunks), height, roots, c, d) == ChunkCells(ShapeOf(chunks), height, roots,
                                                                          chunks[c].At(d).chunk)
  {
    assert Kid(ShapeOf(chunks), c, d) == chunks[c].At(d).chunk;
  }

  /** The addresses that end in a slot holding a group id carry that id. */
  lemma LeafSlotCells(chunks: seq<Chunk>, height: seq<nat>, roots: set<nat>, c: nat, d: bv8, x: Cell)
    requires WellFormed(chunks, height) && Rooted(height, roots) && c < |chunks| && chunks[c].At(d).Group?
    requires IsCell(height, roots, x)
    ensures x in SlotCells(ShapeOf(chunks), height, roots, c, d) <==> Stop(ShapeOf(chunks), height, x.0, x.1) == (c, d)
    ensures x in SlotCells(ShapeOf(chunks), height, roots, c, d)
            ==> Lookup(chunks, height, x.0, x.1) == chunks[c].At(d).id
  {
    assert Kid(ShapeOf(chunks), c, d) == -1;
    LookupAtStop(chunks, height, x.0, x.1);
  }

  lemma AssignedUpdate(vec: seq<nat>, i: nat, v: nat)
    requires i < |vec| && vec[i] == 0 && v != 0
    ensures Assigned(vec[i := v]) == Assigned(vec)[i := v]
  {
  }
}
