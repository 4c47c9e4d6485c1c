/**
  Merging the chunks of a gapped prefix (the "warp" chunks) into the chunks they lie over
  (`merge_chunk`).

  For a warp id a and an origin id b the merged id is b where a is 0, and otherwise an id that
  belongs to the pair (a, b) alone.  The merge memoises its results and shares chunks; `frozen`
  collects the chunks that are final, so that what the memo promises stays true.
*/
module TreeMerge {
  import opened Base
  import opened ChunkForest
  import opened TreeInsert

  type Joins = map<(nat, nat), nat>
  type Memo = map<(Value, Value), Value>

  /** r is the merged id of warp id a and origin id b. */
  ghost predicate Joined(join: Joins, a: nat, b: nat, r: nat) {
    if a == 0 then r == b else (a, b) in join && join[(a, b)] == r
  }

  /** Merged ids are new and belong to one pair. */
  ghost predicate JoinFits(join: Joins, lo: nat, next: nat) {
    && lo <= next
    && (forall p | p in join :: lo <= join[p] < next)
    && (forall p, q | p in join && q in join && join[p] == join[q] :: p == q)
  }

  ghost predicate JoinExtends(join: Joins, join': Joins) {
    forall p | p in join :: p in join' && join'[p] == join[p]
  }

  ghost predicate ValueFits(height: seq<nat>, v: Value, n: nat) {
    v.Link? ==> v.chunk < |height| && height[v.chunk] <= n
  }

  /** The group id behind a value. */
  ghost function Den(chunks: seq<Chunk>, height: seq<nat>, v: Value, y: Digits): nat
    requires WellFormed(chunks, height) && ValueFits(height, v, |y|)
  {
    match v
    case Group(g) => g
    case Link(k) => Lookup(chunks, height, k, y)
  }

  ghost predicate Closed(s: Shape, z: set<nat>) {
    && (forall x | x in z :: x < |s|)
    && (forall x, d | x in z && Kid(s, x, d) >= 0 :: Kid(s, x, d) in z)
  }

  /** No chunk is reached both from x and from y. */
  ghost predicate Apart(s: Shape, height: seq<nat>, x: nat, y: nat)
    requires Layered(s, height) && x < |s| && y < |s|
  {
    forall c :: !(Reaches(s, height, x, c) && Reaches(s, height, y, c))
  }

  /** The references of chunk x lead one level down, to disjoint parts. */
  ghost predicate Branching(s: Shape, height: seq<nat>, x: nat)
    requires Layered(s, height)
  {
    && (forall d | Kid(s, x, d) >= 0 :: 0 <= x < |s| && height[Kid(s, x, d)] + 1 == height[x])
    && (forall d, e | d != e && Kid(s, x, d) >= 0 && Kid(s, x, e) >= 0 :: Apart(s, height, Kid(s, x, d), Kid(s, x, e)))
  }

  /** Below chunk c lies a tree of chunks that are not frozen, with group ids below lo. */
  ghost predicate Loose(chunks: seq<Chunk>, height: seq<nat>, z: set<nat>, lo: nat, c: nat)
    requires WellFormed(chunks, height) && c < |chunks|
  {
    forall x | Reaches(ShapeOf(chunks), height, c, x) ::
      && x !in z && 0 <= x < |chunks| && Branching(ShapeOf(chunks), height, x)
      && (forall d: bv8 | chunks[x].At(d).Group? :: chunks[x].At(d).id < lo)
  }

  // ----- reachability -----------------------------------------------------------------------

  lemma {:induction false} ReachTrans(s: Shape, height: seq<nat>, c: nat, x: nat, y: int)
    requires Layered(s, height) && c < |s| && Reaches(s, height, c, x) && x < |s| && Reaches(s, height, x, y)
    ensures Reaches(s, height, c, y)
    decreases height[c]
  {
    if x != c {
      var d :| Kid(s, c, d) >= 0 && Reaches(s, height, Kid(s, c, d), x);
      ReachTrans(s, height, Kid(s, c, d), x, y);
    }
  }

  lemma {:induction false} ReachHeight(s: Shape, height: seq<nat>, c: nat, x: int)
    requires Layered(s, height) && c < |s| && Reaches(s, height, c, x)
    ensures 0 <= x < |s| && (x == c || height[x] < height[c])
    decreases height[c]
  {
    if x != c {
      var d :| Kid(s, c, d) >= 0 && Reaches(s, height, Kid(s, c, d), x);
      ReachHeight(s, height, Kid(s, c, d), x);
    }
  }

  lemma {:induction false} ClosedReach(s: Shape, height: seq<nat>, z: set<nat>, c: nat, x: int)
    requires Layered(s, height) && Closed(s, z) && c in z && Reaches(s, height, c, x)
    ensures x in z
    decreases height[c]
  {
    if x != c {
      var d :| Kid(s, c, d) >= 0 && Reaches(s, height, Kid(s, c, d), x);
      ClosedReach(s, height, z, Kid(s, c, d), x);
    }
  }

  /** The chunks below c are the same in both states. */
  ghost predicate SameBelow(chunks: seq<Chunk>, height: seq<nat>, chunks': seq<Chunk>, c: nat)
    requires WellFormed(chunks, height) && c < |chunks| <= |chunks'|
  {
    forall w | 0 <= w < |chunks| && Reaches(ShapeOf(chunks), height, c, w) :: chunks'[w] == chunks[w]
  }

  lemma SameBelowDown(chunks: seq<Chunk>, height: seq<nat>, chunks': seq<Chunk>, c: nat, k: nat)
    requires WellFormed(chunks, height) && c < |chunks| <= |chunks'| && SameBelow(chunks, height, chunks', c)
    requires k < |chunks| && Reaches(ShapeOf(chunks), height, c, k)
    ensures SameBelow(chunks, height, chunks', k)
  {
    forall w | 0 <= w < |chunks| && Reaches(ShapeOf(chunks), height, k, w)
      ensures chunks'[w] == chunks[w]
    {
      ReachTrans(ShapeOf(chunks), height, c, k, w);
    }
  }

  lemma KidsOfSame(chunks: seq<Chunk>, chunks': seq<Chunk>, x: nat)
    requires Sized(chunks) && Sized(chunks') && x < |chunks| <= |chunks'| && chunks'[x] == chunks[x]
    ensures forall d :: Kid(ShapeOf(chunks'), x, d) == Kid(ShapeOf(chunks), x, d)
  {
    forall d
      ensures Kid(ShapeOf(chunks'), x, d) == Kid(ShapeOf(chunks), x, d)
    {
      assert chunks[x].At(d) == chunks'[x].At(d);
    }
  }

  lemma ReachKid(s: Shape, height: seq<nat>, c: nat, d: bv8)
    requires Layered(s, height) && c < |s| && Kid(s, c, d) >= 0
    ensures Kid(s, c, d) < |s| && 0 <= height[Kid(s, c, d)] < height[c] && Reaches(s, height, c, Kid(s, c, d))
  {
    assert Reaches(s, height, Kid(s, c, d), Kid(s, c, d));
  }

  /** What lies below unchanged chunks is unchanged. */
  lemma {:induction false} SameReaches(chunks: seq<Chunk>, height: seq<nat>, chunks': seq<Chunk>, height': seq<nat>,
                                       c: nat, x: int)
    requires WellFormed(chunks, height) && WellFormed(chunks', height') && Extends(height, height') && c < |chunks|
    requires SameBelow(chunks, height, chunks', c)
    ensures Reaches(ShapeOf(chunks'), height', c, x) <==> Reaches(ShapeOf(chunks), height, c, x)
    decreases height[c]
  {
    var s, s' := ShapeOf(chunks), ShapeOf(chunks');
    assert Reaches(s, height, c, c);
    KidsOfSame(chunks, chunks', c);
    forall d | Kid(s, c, d) >= 0
      ensures Reaches(s', height', Kid(s, c, d), x) <==> Reaches(s, height, Kid(s, c, d), x)
    {
      var k := Kid(s, c, d);
      ReachKid(s, height, c, d);
      SameBelowDown(chunks, height, chunks', c, k);
      SameReaches(chunks, height, chunks', height', k, x);
    }
    hide SameBelow, Layered;
    assert forall d :: Kid(s', c, d) == Kid(s, c, d);
    if x != c {
      if Reaches(s', height', c, x) {
        var d :| Kid(s', c, d) >= 0 && Reaches(s', height', Kid(s', c, d), x);
        assert Kid(s, c, d) == Kid(s', c, d);
      }
      if Reaches(s, height, c, x) {
        var d :| Kid(s, c, d) >= 0 && Reaches(s, height, Kid(s, c, d), x);
        assert Kid(s, c, d) == Kid(s', c, d);
      }
    }
  }

  lemma {:induction false} SameLookup(chunks: seq<Chunk>, height: seq<nat>, chunks': seq<Chunk>, height': seq<nat>,
                                      c: nat, y: Digits)
    requires WellFormed(chunks, height) && WellFormed(chunks', height') && Extends(height, height')
    requires c < |chunks| && height[c] <= |y|
    requires SameBelow(chunks, height, chunks', c)
    ensures Lookup(chunks', height', c, y) == Lookup(chunks, height, c, y)
    decreases |y|
  {
    var s := ShapeOf(chunks);
    assert Kid(s, c, y[0]) == if chunks[c].At(y[0]).Link? then chunks[c].At(y[0]).chunk else -1;
    assert Reaches(s, height, c, c);
    if chunks[c].At(y[0]).Link? {
      var k := chunks[c].At(y[0]).chunk;
      ReachKid(s, height, c, y[0]);
      SameBelowDown(chunks, height, chunks', c, k);
      SameLookup(chunks, height, chunks', height', k, y[1..]);
    }
  }

  lemma ClosedSameBelow(chunks: seq<Chunk>, height: seq<nat>, chunks': seq<Chunk>, z: set<nat>, c: nat)
    requires WellFormed(chunks, height) && |chunks| <= |chunks'|
    requires Closed(ShapeOf(chunks), z) && c in z
    requires forall w | w in z :: w < |chunks| && chunks'[w] == chunks[w]
    ensures SameBelow(chunks, height, chunks', c)
  {
    forall w | 0 <= w < |chunks| && Reaches(ShapeOf(chunks), height, c, w)
      ensures chunks'[w] == chunks[w]
    {
      ClosedReach(ShapeOf(chunks), height, z, c, w);
    }
  }

  /** A loose part stays loose while its chunks are unchanged and not frozen. */
  lemma SameLoose(chunks: seq<Chunk>, height: seq<nat>, chunks': seq<Chunk>, height': seq<nat>,
                  z: set<nat>, z': set<nat>, lo: nat, c: nat)
    requires WellFormed(chunks, height) && WellFormed(chunks', height') && Extends(height, height') && c < |chunks|
    requires Loose(chunks, height, z, lo, c) && SameBelow(chunks, height, chunks', c)
    requires forall w | 0 <= w < |chunks| && Reaches(ShapeOf(chunks), height, c, w) :: w !in z'
    ensures Loose(chunks', height', z', lo, c)
  {
    var s, s' := ShapeOf(chunks), ShapeOf(chunks');
    hide Layered, Branching, Extends;
    forall x | Reaches(s', height', c, x)
      ensures x !in z' && 0 <= x < |chunks'| && Branching(s', height', x)
      ensures forall d: bv8 | chunks'[x].At(d).Group? :: chunks'[x].At(d).id < lo
    {
      SameReaches(chunks, height, chunks', height', c, x);
      assert chunks'[x] == chunks[x];
      SameBelowDown(chunks, height, chunks', c, x);
      SameBranching(chunks, height, chunks', height', x);
    }
  }

  lemma SameBranching(chunks: seq<Chunk>, height: seq<nat>, chunks': seq<Chunk>, height': seq<nat>, x: nat)
    requires WellFormed(chunks, height) && WellFormed(chunks', height') && Extends(height, height') && x < |chunks|
    requires Branching(ShapeOf(chunks), height, x) && SameBelow(chunks, height, chunks', x)
    ensures Branching(ShapeOf(chunks'), height', x)
  {
    var s, s' := ShapeOf(chunks), ShapeOf(chunks');
    assert Reaches(s, height, x, x);
    KidsOfSame(chunks, chunks', x);
    hide Reaches, SameBelow;
    forall d | Kid(s, x, d) >= 0
      ensures forall w :: Reaches(s', height', Kid(s, x, d), w) <==> Reaches(s, height, Kid(s, x, d), w)
    {
      forall w
        ensures Reaches(s', height', Kid(s, x, d), w) <==> Reaches(s, height, Kid(s, x, d), w)
      {
        ReachKid(s, height, x, d);
        SameBelowDown(chunks, height, chunks', x, Kid(s, x, d));
        SameReaches(chunks, height, chunks', height', Kid(s, x, d), w);
      }
    }
    forall d, e | d != e && Kid(s', x, d) >= 0 && Kid(s', x, e) >= 0
      ensures Apart(s', height', Kid(s', x, d), Kid(s', x, e))
    {
      assert Apart(s, height, Kid(s, x, d), Kid(s, x, e));
    }
  }

  // ----- the memo ---------------------------------------------------------------------------

  ghost predicate EntryFits(chunks: seq<Chunk>, height: seq<nat>, join: Joins, z: set<nat>, wv: Value, ov: Value,
                            rv: Value)
    requires WellFormed(chunks, height)
  {
    && (wv.Link? ==> wv.chunk in z) && (ov.Link? ==> ov.chunk in z) && (rv.Link? ==> rv.chunk in z)
    && (wv.Group? && ov.Group? ==> wv.id != 0 && rv.Group? && Joined(join, wv.id, ov.id, rv.id))
    && (wv.Link? && ov.Group? ==>
          && rv.Link? && wv.chunk < |chunks| && rv.chunk < |chunks| && height[rv.chunk] <= height[wv.chunk]
          && PairFits(chunks, height, join, wv.chunk, ov.id, rv.chunk))
  }

  /** Chunk r is chunk w merged with origin id b. */
  ghost predicate PairFits(chunks: seq<Chunk>, height: seq<nat>, join: Joins, w: nat, b: nat, r: nat)
    requires WellFormed(chunks, height) && w < |chunks| && r < |chunks| && height[r] <= height[w]
  {
    forall y: Digits | |y| >= height[w] :: Joined(join, Lookup(chunks, height, w, y), b, Lookup(chunks, height, r, y))
  }

  ghost predicate MemoFits(chunks: seq<Chunk>, height: seq<nat>, join: Joins, z: set<nat>, memo: Memo)
    requires WellFormed(chunks, height)
  {
    && (forall p | p in memo :: EntryFits(chunks, height, join, z, p.0, p.1, memo[p]))
    && (forall p | p in join :: (Group(p.0), Group(p.1)) in memo)
  }

  /** The chunks that stand for a warp id at every digit. */
  ghost predicate ExtendedFits(chunks: seq<Chunk>, height: seq<nat>, z: set<nat>, extended: map<nat, nat>)
    requires WellFormed(chunks, height)
  {
    forall a | a in extended ::
      extended[a] in z && extended[a] < |chunks| && height[extended[a]] == 1
      && chunks[extended[a]] == Filled(false, Group(a))
  }

  ghost predicate Merging(chunks: seq<Chunk>, height: seq<nat>, join: Joins, z: set<nat>, memo: Memo,
                          extended: map<nat, nat>,
                          lo: nat, next: nat)
  {
    && WellFormed(chunks, height) && Closed(ShapeOf(chunks), z) && JoinFits(join, lo, next)
    && MemoFits(chunks, height, join, z, memo) && ExtendedFits(chunks, height, z, extended)
  }

  lemma JoinedKeeps(join: Joins, join': Joins, a: nat, b: nat, r: nat)
    requires Joined(join, a, b, r) && JoinExtends(join, join')
    ensures Joined(join', a, b, r)
  {
  }

  /** What the memo promises stays true while the frozen chunks stay as they are. */
  lemma MemoKeeps(chunks: seq<Chunk>, height: seq<nat>, chunks': seq<Chunk>, height': seq<nat>,
                  join: Joins, join': Joins, z: set<nat>, z': set<nat>, memo: Memo, extended: map<nat, nat>)
    requires WellFormed(chunks, height) && WellFormed(chunks', height') && Extends(height, height')
    requires Closed(ShapeOf(chunks), z) && z <= z' && JoinExtends(join, join')
    requires MemoFits(chunks, height, join, z, memo) && ExtendedFits(chunks, height, z, extended)
    requires forall w | w in z :: w < |chunks| && chunks'[w] == chunks[w]
    ensures forall p | p in memo :: EntryFits(chunks', height', join', z', p.0, p.1, memo[p])
    ensures ExtendedFits(chunks', height', z', extended)
  {
    hide Layered, Closed, Joined, JoinExtends;
    forall p | p in memo
      ensures EntryFits(chunks', height', join', z', p.0, p.1, memo[p])
    {
      var wv, ov, rv := p.0, p.1, memo[p];
      assert EntryFits(chunks, height, join, z, wv, ov, rv);
      if wv.Group? && ov.Group? {
        JoinedKeeps(join, join', wv.id, ov.id, rv.id);
      } else if wv.Link? && ov.Group? {
        ClosedSameBelow(chunks, height, chunks', z, wv.chunk);
        ClosedSameBelow(chunks, height, chunks', z, rv.chunk);
        forall y: Digits | |y| >= height[wv.chunk]
          ensures Joined(join', Lookup(chunks', height', wv.chunk, y), ov.id, Lookup(chunks', height', rv.chunk, y))
        {
          SameLookup(chunks, height, chunks', height', wv.chunk, y);
          SameLookup(chunks, height, chunks', height', rv.chunk, y);
          JoinedKeeps(join, join', Lookup(chunks, height, wv.chunk, y), ov.id, Lookup(chunks, height, rv.chunk, y));
        }
      }
    }
  }

  // ----- small changes of the chunks --------------------------------------------------------

  lemma PutValue(chunks: seq<Chunk>, height: seq<nat>, c: nat, d: bv8, v: Value)
    requires WellFormed(chunks, height) && c < |chunks|
    requires v.Link? ==> v.chunk < |chunks| && height[v.chunk] < height[c]
    ensures WellFormed(chunks[c := chunks[c].Put(d, v)], height)
    ensures forall x, e | x != c || e != d ::
              Kid(ShapeOf(chunks[c := chunks[c].Put(d, v)]), x, e) == Kid(ShapeOf(chunks), x, e)
    ensures Kid(ShapeOf(chunks[c := chunks[c].Put(d, v)]), c, d) == if v.Link? then v.chunk else -1
  {
    var chunks' := chunks[c := chunks[c].Put(d, v)];
    var s, s' := ShapeOf(chunks), ShapeOf(chunks');
    forall x, e
      ensures x != c || e != d ==> Kid(s', x, e) == Kid(s, x, e)
    {
      if 0 <= x < |chunks| {
        assert chunks'[x] == if x == c then chunks[c].Put(d, v) else chunks[x];
      }
    }
  }

  lemma AppendFlat(chunks: seq<Chunk>, height: seq<nat>, g: nat, h: nat)
    requires WellFormed(chunks, height) && h >= 1
    ensures WellFormed(chunks + [Filled(false, Group(g))], height + [h])
    ensures forall x, e | x != |chunks| ::
              Kid(ShapeOf(chunks + [Filled(false, Group(g))]), x, e) == Kid(ShapeOf(chunks), x, e)
    ensures forall e :: Kid(ShapeOf(chunks + [Filled(false, Group(g))]), |chunks|, e) == -1
  {
    var chunks' := chunks + [Filled(false, Group(g))];
    var s, s' := ShapeOf(chunks), ShapeOf(chunks');
    forall x, e | x != |chunks|
      ensures Kid(s', x, e) == Kid(s, x, e)
    {
      if 0 <= x < |chunks| {
        assert chunks'[x] == chunks[x];
      }
    }
  }

  lemma FlatLookup(chunks: seq<Chunk>, height: seq<nat>, c: nat, g: nat, y: Digits)
    requires WellFormed(chunks, height) && c < |chunks| && chunks[c] == Filled(false, Group(g)) && height[c] <= |y|
    ensures Lookup(chunks, height, c, y) == g
    ensures forall x :: Reaches(ShapeOf(chunks), height, c, x) <==> x == c
  {
    assert forall d :: Kid(ShapeOf(chunks), c, d) == -1;
  }

  // ----- one slot, one chunk ----------------------------------------------------------------

  ghost predicate UnderSlot(chunks: seq<Chunk>, height: seq<nat>, c: nat, d: bv8, x: int)
    requires WellFormed(chunks, height) && c < |chunks|
  {
    Kid(ShapeOf(chunks), c, d) >= 0 && Reaches(ShapeOf(chunks), height, Kid(ShapeOf(chunks), c, d), x)
  }

  /** Slot d of chunk c may be merged: the warp chunk is final and what lies below the slot is loose. */
  ghost predicate SlotReady(chunks: seq<Chunk>, height: seq<nat>, z: set<nat>, lo: nat, wc: nat, c: nat, d: bv8)
    requires WellFormed(chunks, height)
  {
    && wc in z && wc < |chunks| && c < |chunks| && c !in z && height[wc] <= height[c]
    && match chunks[c].At(d)
       case Group(b) => b < lo
       case Link(k) => k < |chunks| && height[k] + 1 == height[c] && Loose(chunks, height, z, lo, k)
  }

  lemma SlotInside(chunks: seq<Chunk>, height: seq<nat>, z: set<nat>, lo: nat, wc: nat, c: nat, d: bv8)
    requires WellFormed(chunks, height) && SlotReady(chunks, height, z, lo, wc, c, d)
    ensures wc < |chunks| && c < |chunks| && c !in z && wc in z
  {
    hide Layered, Loose;
  }

  /** Slot d of chunk c has been merged, and nothing but what lay below it has changed. */
  ghost predicate SlotStep(c0: seq<Chunk>, h0: seq<nat>, j0: Joins, z0: set<nat>,
                           c1: seq<Chunk>, h1: seq<nat>, j1: Joins, z1: set<nat>, wc: nat, c: nat, d: bv8)
  {
    && WellFormed(c0, h0) && WellFormed(c1, h1) && wc < |c0| && c < |c0| && h0[wc] <= h0[c]
    && Extends(h0, h1) && JoinExtends(j0, j1) && z0 <= z1 && c !in z1
    && (forall x | 0 <= x < |c0| && x != c && !UnderSlot(c0, h0, c, d, x) :: c1[x] == c0[x])
    && (forall x | x in z1 :: x in z0 || x >= |c0| || UnderSlot(c0, h0, c, d, x))
    && (forall x | UnderSlot(c0, h0, c, d, x) :: 0 <= x && x in z1)
    && (forall e: bv8 | e != d :: c1[c].At(e) == c0[c].At(e))
    && (c1[c].At(d).Link? ==> c1[c].At(d).chunk in z1)
    && SlotJoined(c0, h0, c1, h1, j1, wc, c, d)
  }

  /** Below slot d of chunk c the merged ids are found. */
  ghost predicate SlotJoined(c0: seq<Chunk>, h0: seq<nat>, c1: seq<Chunk>, h1: seq<nat>, j1: Joins, wc: nat, c: nat,
                             d: bv8)
    requires WellFormed(c0, h0) && WellFormed(c1, h1) && wc < |c0| && c < |c0| && h0[wc] <= h0[c] && Extends(h0, h1)
  {
    forall y: Digits | |y| + 1 >= h0[c] ::
      && ValueFits(h0, c0[wc].At(d), |y|) && ValueFits(h0, c0[c].At(d), |y|) && ValueFits(h1, c1[c].At(d), |y|)
      && Joined(j1, Den(c0, h0, c0[wc].At(d), y), Den(c0, h0, c0[c].At(d), y), Den(c1, h1, c1[c].At(d), y))
  }

  /** Chunk c has been merged, and nothing but what lay below it has changed. */
  ghost predicate ChunkStep(c0: seq<Chunk>, h0: seq<nat>, j0: Joins, z0: set<nat>,
                            c1: seq<Chunk>, h1: seq<nat>, j1: Joins, z1: set<nat>, wc: nat, c: nat)
  {
    && WellFormed(c0, h0) && WellFormed(c1, h1) && wc < |c0| && c < |c0| && h0[wc] <= h0[c]
    && Extends(h0, h1) && JoinExtends(j0, j1) && z0 <= z1
    && (forall x | 0 <= x < |c0| && !Reaches(ShapeOf(c0), h0, c, x) :: c1[x] == c0[x])
    && (forall x | x in z1 :: x in z0 || x >= |c0| || Reaches(ShapeOf(c0), h0, c, x))
    && (forall x | Reaches(ShapeOf(c0), h0, c, x) :: 0 <= x && x in z1)
    && (forall y: Digits | |y| >= h0[c] ::
          Joined(j1, Lookup(c0, h0, wc, y), Lookup(c0, h0, c, y), Lookup(c1, h1, c, y)))
  }

  // ----- the cases of one slot --------------------------------------------------------------

  ghost function Below(chunks: seq<Chunk>, height: seq<nat>, c: nat, d: bv8): set<nat>
    requires WellFormed(chunks, height) && c < |chunks|
  {
    set x: nat | x < |chunks| && UnderSlot(chunks, height, c, d, x)
  }

  lemma SlotValues(chunks: seq<Chunk>, height: seq<nat>, c: nat, d: bv8)
    requires WellFormed(chunks, height) && c < |chunks|
    ensures Kid(ShapeOf(chunks), c, d) == if chunks[c].At(d).Link? then chunks[c].At(d).chunk else -1
    ensures chunks[c].At(d).Link? ==> chunks[c].At(d).chunk < |chunks| && 1 <= height[chunks[c].At(d).chunk] < height[c]
    ensures forall n: nat | n + 1 >= height[c] :: ValueFits(height, chunks[c].At(d), n)
  {
  }

  lemma ClosedBelow(chunks: seq<Chunk>, height: seq<nat>, z: set<nat>, c: nat, d: bv8)
    requires WellFormed(chunks, height) && c < |chunks| && Closed(ShapeOf(chunks), z)
    ensures Closed(ShapeOf(chunks), z + Below(chunks, height, c, d))
  {
    var s, b := ShapeOf(chunks), Below(chunks, height, c, d);
    forall x, e | x in z + b && Kid(s, x, e) >= 0
      ensures Kid(s, x, e) in z + b
    {
      if x !in z {
        ReachKid(s, height, x, e);
        ReachTrans(s, height, Kid(s, c, d), x, Kid(s, x, e));
      }
    }
  }

  lemma UnderSlotRange(chunks: seq<Chunk>, height: seq<nat>, c: nat, d: bv8, x: int)
    requires WellFormed(chunks, height) && c < |chunks| && UnderSlot(chunks, height, c, d, x)
    ensures 0 <= x < |chunks| && height[x] < height[c]
  {
    ReachHeight(ShapeOf(chunks), height, Kid(ShapeOf(chunks), c, d), x);
  }

  /** Where the warp is empty the origin stays; what lies below the slot becomes final. */
  lemma SlotEmpty(chunks: seq<Chunk>, height: seq<nat>, join: Joins, z: set<nat>, memo: Memo, extended: map<nat, nat>,
                  lo: nat, next: nat, wc: nat, c: nat, d: bv8)
    requires Merging(chunks, height, join, z, memo, extended, lo, next) && SlotReady(chunks, height, z, lo, wc, c, d)
    requires chunks[wc].At(d) == Group(0)
    ensures Merging(chunks, height, join, z + Below(chunks, height, c, d), memo, extended, lo, next)
    ensures SlotStep(chunks, height, join, z, chunks, height, join, z + Below(chunks, height, c, d), wc, c, d)
  {
    var z' := z + Below(chunks, height, c, d);
    SlotValues(chunks, height, c, d);
    ClosedBelow(chunks, height, z, c, d);
    MemoKeeps(chunks, height, chunks, height, join, join, z, z', memo, extended);
    hide Layered, MemoFits, ExtendedFits, Loose;
    forall x | UnderSlot(chunks, height, c, d, x)
      ensures 0 <= x < |chunks| && x in z' && x != c
    {
      UnderSlotRange(chunks, height, c, d, x);
    }
    assert SlotJoined(chunks, height, chunks, height, join, wc, c, d);
    assert chunks[c].At(d).Link? ==> Reaches(ShapeOf(chunks), height, chunks[c].At(d).chunk, chunks[c].At(d).chunk);
  }

  /** Writing to a chunk that is not frozen keeps the memo. */
  lemma PutKeepsMerging(chunks: seq<Chunk>, height: seq<nat>, join: Joins, z: set<nat>, memo: Memo,
                        extended: map<nat, nat>,
                        lo: nat, next: nat, c: nat, d: bv8, v: Value)
    requires Merging(chunks, height, join, z, memo, extended, lo, next)
    requires c < |chunks| && c !in z && (v.Link? ==> v.chunk < |chunks| && height[v.chunk] < height[c])
    ensures Merging(chunks[c := chunks[c].Put(d, v)], height, join, z, memo, extended, lo, next)
  {
    var chunks' := chunks[c := chunks[c].Put(d, v)];
    PutValue(chunks, height, c, d, v);
    MemoKeeps(chunks, height, chunks', height, join, join, z, z, memo, extended);
  }

  /** A value found in the memo. */
  lemma SlotKnown(chunks: seq<Chunk>, height: seq<nat>, join: Joins, z: set<nat>, memo: Memo, extended: map<nat, nat>,
                  lo: nat, next: nat, wc: nat, c: nat, d: bv8)
    requires Merging(chunks, height, join, z, memo, extended, lo, next) && SlotReady(chunks, height, z, lo, wc, c, d)
    requires (chunks[wc].At(d), chunks[c].At(d)) in memo
    ensures var v := memo[(chunks[wc].At(d), chunks[c].At(d))];
            && (v.Link? ==> v.chunk < |chunks| && height[v.chunk] < height[c])
            && Merging(chunks[c := chunks[c].Put(d, v)], height, join, z, memo, extended, lo, next)
            && SlotStep(chunks, height, join, z, chunks[c := chunks[c].Put(d, v)], height, join, z, wc, c, d)
  {
    var wv, ov := chunks[wc].At(d), chunks[c].At(d);
    var v := memo[(wv, ov)];
    assert EntryFits(chunks, height, join, z, wv, ov, v);
    SlotValues(chunks, height, c, d);
    SlotValues(chunks, height, wc, d);
    assert ov.Group?;
    PutKeepsMerging(chunks, height, join, z, memo, extended, lo, next, c, d, v);
    hide Layered, MemoFits, ExtendedFits, Loose, Closed, JoinFits, SlotJoined, Reaches, EntryFits;
    KnownJoined(chunks, height, join, z, wc, c, d, v);
  }

  lemma KnownJoined(chunks: seq<Chunk>, height: seq<nat>, join: Joins, z: set<nat>, wc: nat, c: nat, d: bv8, v: Value)
    requires WellFormed(chunks, height) && Closed(ShapeOf(chunks), z) && wc < |chunks| && c < |chunks| && c !in z
             && height[wc] <= height[c]
    requires chunks[c].At(d).Group? && EntryFits(chunks, height, join, z, chunks[wc].At(d), chunks[c].At(d), v)
    requires (v.Link? ==> v.chunk < |chunks| && height[v.chunk] < height[c])
             && WellFormed(chunks[c := chunks[c].Put(d, v)], height)
    ensures SlotJoined(chunks, height, chunks[c := chunks[c].Put(d, v)], height, join, wc, c, d)
  {
    var wv, ov := chunks[wc].At(d), chunks[c].At(d);
    var chunks' := chunks[c := chunks[c].Put(d, v)];
    SlotValues(chunks, height, wc, d);
    if v.Link? {
      ClosedSameBelow(chunks, height, chunks', z, v.chunk);
    }
    hide Layered, Closed, Reaches;
    forall y: Digits | |y| + 1 >= height[c]
      ensures ValueFits(height, wv, |y|) && ValueFits(height, v, |y|)
      ensures Joined(join, Den(chunks, height, wv, y), ov.id, Den(chunks', height, v, y))
    {
      if v.Link? {
        SameLookup(chunks, height, chunks', height, v.chunk, y);
      }
    }
  }

  /** Two group ids that meet for the first time get a new id. */
  lemma SlotPair(chunks: seq<Chunk>, height: seq<nat>, join: Joins, z: set<nat>, memo: Memo, extended: map<nat, nat>,
                 lo: nat, next: nat, wc: nat, c: nat, d: bv8, a: nat, b: nat)
    requires Merging(chunks, height, join, z, memo, extended, lo, next) && SlotReady(chunks, height, z, lo, wc, c, d)
    requires chunks[wc].At(d) == Group(a) && chunks[c].At(d) == Group(b) && a != 0
    requires (Group(a), Group(b)) !in memo
    ensures var chunks', join' := chunks[c := chunks[c].Put(d, Group(next))], join[(a, b) := next];
            && Merging(chunks', height, join', z, memo[(Group(a), Group(b)) := Group(next)], extended, lo, next + 1)
            && SlotStep(chunks, height, join, z, chunks', height, join', z, wc, c, d)
  {
    var chunks', join' := chunks[c := chunks[c].Put(d, Group(next))], join[(a, b) := next];
    var memo' := memo[(Group(a), Group(b)) := Group(next)];
    SlotValues(chunks, height, c, d);
    PutValue(chunks, height, c, d, Group(next));
    assert (a, b) !in join;
    MemoKeeps(chunks, height, chunks', height, join, join', z, z, memo, extended);
    assert forall p | p in memo' :: EntryFits(chunks', height, join', z, p.0, p.1, memo'[p]);
    assert MemoFits(chunks', height, join', z, memo');
    hide Layered, ExtendedFits, Loose, MemoFits;
    assert SlotJoined(chunks, height, chunks', height, join', wc, c, d);
  }

  /** A slot whose chunk has been merged in place, possibly after new frozen chunks were added. */
  lemma SlotFromKid(c0: seq<Chunk>, h0: seq<nat>, j0: Joins, z0: set<nat>, lo: nat,
                    c': seq<Chunk>, h': seq<nat>, z': set<nat>,
                    c1: seq<Chunk>, h1: seq<nat>, j1: Joins, z1: set<nat>, wc: nat, w: nat, c: nat, d: bv8, k: nat)
    requires WellFormed(c0, h0) && SlotReady(c0, h0, z0, lo, wc, c, d) && c0[c].At(d) == Link(k)
    requires WellFormed(c', h') && |c0| <= |c'| && Extends(h0, h') && (forall x | 0 <= x < |c0| :: c'[x] == c0[x])
    requires z0 <= z' && (forall x | x in z' :: x in z0 || x >= |c0|)
    requires ChunkStep(c', h', j0, z', c1, h1, j1, z1, w, k)
    requires ValueFits(h0, c0[wc].At(d), h0[c] - 1)
    requires forall y: Digits | |y| + 1 >= h0[c] :: Lookup(c', h', w, y) == Den(c0, h0, c0[wc].At(d), y)
    ensures SlotStep(c0, h0, j0, z0, c1, h1, j1, z1, wc, c, d)
  {
    hide Layered, Loose;
    SlotValues(c0, h0, c, d);
    SlotValues(c0, h0, wc, d);
    ExtendsTransitive(h0, h', h1);
    assert SameBelow(c0, h0, c', k);
    forall x
      ensures UnderSlot(c0, h0, c, d, x) <==> Reaches(ShapeOf(c'), h', k, x)
    {
      SameReaches(c0, h0, c', h', k, x);
    }
    forall x | UnderSlot(c0, h0, c, d, x)
      ensures 0 <= x < |c0| && h0[x] < h0[c]
    {
      UnderSlotRange(c0, h0, c, d, x);
    }
    forall y: Digits | |y| + 1 >= h0[c]
      ensures Joined(j1, Den(c0, h0, c0[wc].At(d), y), Lookup(c0, h0, k, y), Lookup(c1, h1, k, y))
    {
      SameLookup(c0, h0, c', h', k, y);
    }
    assert c1[c] == c0[c];
    hide Reaches, UnderSlot, SameBelow;
    assert SlotJoined(c0, h0, c1, h1, j1, wc, c, d);
  }

  /** A slot that held a group id and got a new chunk, which was then merged. */
  lemma SlotFromNew(c0: seq<Chunk>, h0: seq<nat>, j0: Joins, z0: set<nat>, lo: nat, c': seq<Chunk>, h': seq<nat>,
                    c1: seq<Chunk>, h1: seq<nat>, j1: Joins, z1: set<nat>, wc: nat, w: nat, c: nat, d: bv8, b: nat)
    requires WellFormed(c0, h0) && Closed(ShapeOf(c0), z0) && SlotReady(c0, h0, z0, lo, wc, c, d)
    requires c0[c].At(d) == Group(b) && c0[wc].At(d) == Link(w)
    requires w < |c0| && h0[w] < h0[c]
    requires c' == c0[c := c0[c].Put(d, Link(|c0|))] + [Filled(false, Group(b))] && h' == h0 + [h0[w]]
    requires ChunkStep(c', h', j0, z0, c1, h1, j1, z1, w, |c0|)
    ensures SlotStep(c0, h0, j0, z0, c1, h1, j1, z1, wc, c, d)
    ensures forall y: Digits | |y| >= h0[w] :: Joined(j1, Lookup(c0, h0, w, y), b, Lookup(c1, h1, |c0|, y))
  {
    SlotValues(c0, h0, c, d);
    SlotValues(c0, h0, wc, d);
    assert w in z0 by { assert Kid(ShapeOf(c0), wc, d) == w; }
    ExtendsTransitive(h0, h', h1);
    NewJoined(c0, h0, j0, z0, c', h', c1, h1, j1, z1, w, c, d, b);
    FlatReach(c', h', |c0|, b);
    hide Layered, Loose, Closed, Reaches, SameBelow, SlotJoined, Lookup, Joined, Den;
    assert c1[c] == c'[c];
    SlotByKid(c0, h0, c1, h1, j1, wc, w, c, d, b);
  }

  lemma NewJoined(c0: seq<Chunk>, h0: seq<nat>, j0: Joins, z0: set<nat>, c': seq<Chunk>, h': seq<nat>,
                  c1: seq<Chunk>, h1: seq<nat>, j1: Joins, z1: set<nat>, w: nat, c: nat, d: bv8, b: nat)
    requires WellFormed(c0, h0) && Closed(ShapeOf(c0), z0) && w in z0 && w < |c0| && c < |c0| && c !in z0
    requires c' == c0[c := c0[c].Put(d, Link(|c0|))] + [Filled(false, Group(b))] && h' == h0 + [h0[w]]
    requires ChunkStep(c', h', j0, z0, c1, h1, j1, z1, w, |c0|)
    ensures forall y: Digits | |y| >= h0[w] :: Joined(j1, Lookup(c0, h0, w, y), b, Lookup(c1, h1, |c0|, y))
  {
    ClosedSameBelow(c0, h0, c', z0, w);
    hide Layered, Closed, Reaches, SameBelow;
    forall y: Digits | |y| >= h0[w]
      ensures Joined(j1, Lookup(c0, h0, w, y), b, Lookup(c1, h1, |c0|, y))
    {
      FlatLookup(c', h', |c0|, b, y);
      SameLookup(c0, h0, c', h', w, y);
    }
  }

  lemma SlotByKid(c0: seq<Chunk>, h0: seq<nat>, c1: seq<Chunk>, h1: seq<nat>, j1: Joins, wc: nat, w: nat, c: nat,
                  d: bv8, b: nat)
    requires WellFormed(c0, h0) && WellFormed(c1, h1) && wc < |c0| && c < |c0| && h0[wc] <= h0[c] && Extends(h0, h1)
    requires c0[c].At(d) == Group(b) && c0[wc].At(d) == Link(w) && w < |c0| && h0[w] < h0[c]
    requires |c0| < |c1| && h1[|c0|] == h0[w] && c1[c].At(d) == Link(|c0|)
    requires forall y: Digits | |y| >= h0[w] :: Joined(j1, Lookup(c0, h0, w, y), b, Lookup(c1, h1, |c0|, y))
    ensures SlotJoined(c0, h0, c1, h1, j1, wc, c, d)
  {
    hide Layered, Lookup, Joined;
  }

  lemma FlatReach(chunks: seq<Chunk>, height: seq<nat>, c: nat, g: nat)
    requires WellFormed(chunks, height) && c < |chunks| && chunks[c] == Filled(false, Group(g))
    ensures forall x :: Reaches(ShapeOf(chunks), height, c, x) <==> x == c
  {
    assert forall d :: Kid(ShapeOf(chunks), c, d) == -1;
  }

  lemma FlatLoose(chunks: seq<Chunk>, height: seq<nat>, z: set<nat>, lo: nat, c: nat, g: nat)
    requires WellFormed(chunks, height) && c < |chunks| && chunks[c] == Filled(false, Group(g)) && c !in z && g < lo
    ensures Loose(chunks, height, z, lo, c)
  {
    FlatReach(chunks, height, c, g);
    assert forall d :: Kid(ShapeOf(chunks), c, d) == -1;
  }

  // ----- the loop over the slots ------------------------------------------------------------

  ghost predicate Pending(d: bv8, more: bool, e: bv8) {
    more && d <= e
  }

  /** Chunk c while its slots are merged in order; the slots from d on are pending while `more`. */
  ghost predicate ChunkLoop(c0: seq<Chunk>, h0: seq<nat>, j0: Joins, z0: set<nat>,
                            c1: seq<Chunk>, h1: seq<nat>, j1: Joins, z1: set<nat>, wc: nat, c: nat, d: bv8, more: bool)
  {
    && WellFormed(c0, h0) && WellFormed(c1, h1) && wc < |c0| && c < |c0| && h0[wc] <= h0[c]
    && Extends(h0, h1) && JoinExtends(j0, j1) && z0 <= z1 && c !in z1
    && (forall x | 0 <= x < |c0| && !Reaches(ShapeOf(c0), h0, c, x) :: c1[x] == c0[x])
    && (forall x | x in z1 :: x in z0 || x >= |c0| || Reaches(ShapeOf(c0), h0, c, x))
    && (forall e: bv8, x | Pending(d, more, e) && UnderSlot(c0, h0, c, e, x)
        && 0 <= x < |c0| :: x !in z1 && c1[x] == c0[x])
    && (forall e: bv8, x | !Pending(d, more, e) && UnderSlot(c0, h0, c, e, x) && 0 <= x :: x in z1)
    && (forall e: bv8 | Pending(d, more, e) :: c1[c].At(e) == c0[c].At(e))
    && (forall e: bv8 | !Pending(d, more, e) ::
          && (c1[c].At(e).Link? ==> c1[c].At(e).chunk in z1)
          && SlotJoined(c0, h0, c1, h1, j1, wc, c, e))
  }

  lemma ChunkLoopStart(chunks: seq<Chunk>, height: seq<nat>, join: Joins, z: set<nat>, lo: nat, wc: nat, c: nat)
    requires WellFormed(chunks, height) && wc < |chunks| && c < |chunks| && height[wc] <= height[c]
    requires Loose(chunks, height, z, lo, c)
    ensures ChunkLoop(chunks, height, join, z, chunks, height, join, z, wc, c, 0, true)
  {
    assert Reaches(ShapeOf(chunks), height, c, c);
    forall e: bv8
      ensures Pending(0, true, e)
    {
    }
    hide Pending;
    forall e: bv8, x | UnderSlot(chunks, height, c, e, x)
      ensures x !in z
    {
      assert Reaches(ShapeOf(chunks), height, c, x);
    }
  }

  lemma LooseDown(chunks: seq<Chunk>, height: seq<nat>, z: set<nat>, lo: nat, c: nat, k: nat)
    requires WellFormed(chunks, height) && c < |chunks| && Loose(chunks, height, z, lo, c)
    requires k < |chunks| && Reaches(ShapeOf(chunks), height, c, k)
    ensures Loose(chunks, height, z, lo, k)
  {
    forall x | Reaches(ShapeOf(chunks), height, k, x)
      ensures Reaches(ShapeOf(chunks), height, c, x)
    {
      ReachTrans(ShapeOf(chunks), height, c, k, x);
    }
  }

  /** The part below a pending slot is still as it was. */
  lemma PendingNext(d: bv8, e: bv8)
    ensures Pending(d, true, d)
    ensures Pending(if d == 0xFF then d else d + 1, d != 0xFF, e) <==> Pending(d, true, e) && e != d
  {
  }

  lemma PendingBelow(c0: seq<Chunk>, h0: seq<nat>, j0: Joins, z0: set<nat>, lo: nat,
                     c1: seq<Chunk>, h1: seq<nat>, j1: Joins, z1: set<nat>, wc: nat, c: nat, d: bv8, e: bv8)
    requires ChunkLoop(c0, h0, j0, z0, c1, h1, j1, z1, wc, c, d, true) && Pending(d, true, e)
    requires Loose(c0, h0, z0, lo, c)
    ensures c1[c].At(e) == c0[c].At(e)
    ensures forall x :: UnderSlot(c1, h1, c, e, x) <==> UnderSlot(c0, h0, c, e, x)
    ensures c0[c].At(e).Link? ==> c0[c].At(e).chunk < |c0| && SameBelow(c0, h0, c1, c0[c].At(e).chunk)
                                  && Loose(c1, h1, z1, lo, c0[c].At(e).chunk)
  {
    hide Layered, SlotJoined;
    SlotValues(c0, h0, c, e);
    SlotValues(c1, h1, c, e);
    if c0[c].At(e).Link? {
      var k := c0[c].At(e).chunk;
      forall w | 0 <= w < |c0| && Reaches(ShapeOf(c0), h0, k, w)
        ensures c1[w] == c0[w] && w !in z1
      {
        assert UnderSlot(c0, h0, c, e, w);
      }
      hide ChunkLoop;
      assert SameBelow(c0, h0, c1, k);
      forall x
        ensures UnderSlot(c1, h1, c, e, x) <==> UnderSlot(c0, h0, c, e, x)
      {
        SameReaches(c0, h0, c1, h1, k, x);
      }
      ReachKid(ShapeOf(c0), h0, c, e);
      LooseDown(c0, h0, z0, lo, c, k);
      SameLoose(c0, h0, c1, h1, z0, z1, lo, k);
    }
  }

  lemma FrozenSame(c0: seq<Chunk>, h0: seq<nat>, j0: Joins, z0: set<nat>, lo: nat,
                   c1: seq<Chunk>, h1: seq<nat>, j1: Joins, z1: set<nat>, wc: nat, c: nat, d: bv8, more: bool)
    requires ChunkLoop(c0, h0, j0, z0, c1, h1, j1, z1, wc, c, d, more) && Loose(c0, h0, z0, lo, c)
    requires forall x | x in z0 :: x < |c0|
    ensures forall x | x in z0 :: c1[x] == c0[x]
  {
  }

  lemma ChunkLoopReady(c0: seq<Chunk>, h0: seq<nat>, j0: Joins, z0: set<nat>, lo: nat,
                       c1: seq<Chunk>, h1: seq<nat>, j1: Joins, z1: set<nat>, wc: nat, c: nat, d: bv8)
    requires ChunkLoop(c0, h0, j0, z0, c1, h1, j1, z1, wc, c, d, true)
    requires Loose(c0, h0, z0, lo, c) && wc in z0 && Closed(ShapeOf(c0), z0)
    ensures SlotReady(c1, h1, z1, lo, wc, c, d)
    ensures c1[wc] == c0[wc] && h1[c] == h0[c]
  {
    assert Pending(d, true, d);
    hide Pending;
    PendingBelow(c0, h0, j0, z0, lo, c1, h1, j1, z1, wc, c, d, d);
    FrozenSame(c0, h0, j0, z0, lo, c1, h1, j1, z1, wc, c, d, true);
    hide SlotJoined, Layered;
    assert Reaches(ShapeOf(c0), h0, c, c);
    SlotValues(c0, h0, c, d);
    assert Branching(ShapeOf(c0), h0, c);
  }

  /** Before a pending slot is merged, the ids below it and below the warp slot are the original ones. */
  lemma PendingDen(c0: seq<Chunk>, h0: seq<nat>, j0: Joins, z0: set<nat>, lo: nat,
                   c1: seq<Chunk>, h1: seq<nat>, j1: Joins, z1: set<nat>, wc: nat, c: nat, d: bv8, y: Digits)
    requires ChunkLoop(c0, h0, j0, z0, c1, h1, j1, z1, wc, c, d, true)
    requires Loose(c0, h0, z0, lo, c) && wc in z0 && Closed(ShapeOf(c0), z0) && |y| + 1 >= h0[c]
    ensures ValueFits(h0, c0[wc].At(d), |y|) && ValueFits(h0, c0[c].At(d), |y|)
    ensures ValueFits(h1, c0[wc].At(d), |y|) && ValueFits(h1, c0[c].At(d), |y|)
    ensures Den(c1, h1, c0[wc].At(d), y) == Den(c0, h0, c0[wc].At(d), y)
    ensures Den(c1, h1, c0[c].At(d), y) == Den(c0, h0, c0[c].At(d), y)
  {
    assert Pending(d, true, d);
    PendingBelow(c0, h0, j0, z0, lo, c1, h1, j1, z1, wc, c, d, d);
    FrozenSame(c0, h0, j0, z0, lo, c1, h1, j1, z1, wc, c, d, true);
    SlotValues(c0, h0, c, d);
    SlotValues(c0, h0, wc, d);
    assert ValueFits(h0, c0[wc].At(d), |y|) && ValueFits(h0, c0[c].At(d), |y|);
    if c0[c].At(d).Link? {
      SameLookup(c0, h0, c1, h1, c0[c].At(d).chunk, y);
    }
    if c0[wc].At(d).Link? {
      var w := c0[wc].At(d).chunk;
      assert Kid(ShapeOf(c0), wc, d) == w;
      ClosedSameBelow(c0, h0, c1, z0, w);
      SameLookup(c0, h0, c1, h1, w, y);
    }
  }

  lemma ChunkLoopStep(c0: seq<Chunk>, h0: seq<nat>, j0: Joins, z0: set<nat>, lo: nat,
                      c1: seq<Chunk>, h1: seq<nat>, j1: Joins, z1: set<nat>,
                      c2: seq<Chunk>, h2: seq<nat>, j2: Joins, z2: set<nat>,
                      wc: nat, c: nat, d: bv8, d': bv8, more': bool)
    requires ChunkLoop(c0, h0, j0, z0, c1, h1, j1, z1, wc, c, d, true)
    requires Loose(c0, h0, z0, lo, c) && wc in z0 && Closed(ShapeOf(c0), z0) && Closed(ShapeOf(c1), z1)
    requires SlotStep(c1, h1, j1, z1, c2, h2, j2, z2, wc, c, d)
    requires forall e :: Pending(d', more', e) <==> Pending(d, true, e) && e != d
    ensures ChunkLoop(c0, h0, j0, z0, c2, h2, j2, z2, wc, c, d', more')
  {
    assert Pending(d, true, d);
    hide Pending;
    PendingBelow(c0, h0, j0, z0, lo, c1, h1, j1, z1, wc, c, d, d);
    FrozenSame(c0, h0, j0, z0, lo, c1, h1, j1, z1, wc, c, d, true);
    ExtendsTransitive(h0, h1, h2);
    StepFrames(c0, h0, j0, z0, lo, c1, h1, j1, z1, c2, h2, j2, z2, wc, c, d);
    forall e: bv8 | !Pending(d', more', e)
      ensures c2[c].At(e).Link? ==> c2[c].At(e).chunk in z2
      ensures SlotJoined(c0, h0, c2, h2, j2, wc, c, e)
    {
      if e == d {
        forall y: Digits | |y| + 1 >= h0[c]
          ensures ValueFits(h0, c0[wc].At(d), |y|) && ValueFits(h0, c0[c].At(d), |y|) && ValueFits(h2, c2[c].At(d), |y|)
          ensures Joined(j2, Den(c0, h0, c0[wc].At(d), y), Den(c0, h0, c0[c].At(d), y), Den(c2, h2, c2[c].At(d), y))
        {
          PendingDen(c0, h0, j0, z0, lo, c1, h1, j1, z1, wc, c, d, y);
        }
      } else {
        assert !Pending(d, true, e);
        OldSlotJoined(c0, h0, c1, h1, j1, z1, c2, h2, j2, wc, c, e);
      }
    }
  }

  /** A slot that was merged before keeps its merged ids. */
  lemma OldSlotJoined(c0: seq<Chunk>, h0: seq<nat>, c1: seq<Chunk>, h1: seq<nat>, j1: Joins, z1: set<nat>,
                      c2: seq<Chunk>, h2: seq<nat>, j2: Joins, wc: nat, c: nat, e: bv8)
    requires WellFormed(c0, h0) && WellFormed(c1, h1) && WellFormed(c2, h2) && wc < |c0| && c < |c0| && h0[wc] <= h0[c]
    requires Extends(h0, h1) && Extends(h1, h2) && Extends(h0, h2) && JoinExtends(j1, j2)
    requires Closed(ShapeOf(c1), z1) && (forall x | x in z1 :: x < |c1| && c2[x] == c1[x])
    requires SlotJoined(c0, h0, c1, h1, j1, wc, c, e)
    requires c2[c].At(e) == c1[c].At(e) && (c1[c].At(e).Link? ==> c1[c].At(e).chunk in z1)
    ensures SlotJoined(c0, h0, c2, h2, j2, wc, c, e)
  {
    hide Layered, Closed, Joined, JoinExtends;
    var v := c1[c].At(e);
    forall y: Digits | |y| + 1 >= h0[c]
      ensures ValueFits(h0, c0[wc].At(e), |y|) && ValueFits(h0, c0[c].At(e), |y|) && ValueFits(h2, v, |y|)
      ensures Joined(j2, Den(c0, h0, c0[wc].At(e), y), Den(c0, h0, c0[c].At(e), y), Den(c2, h2, v, y))
    {
      assert ValueFits(h1, v, |y|);
      if v.Link? {
        ClosedSameBelow(c1, h1, c2, z1, v.chunk);
        SameLookup(c1, h1, c2, h2, v.chunk, y);
      }
      JoinedKeeps(j1, j2, Den(c0, h0, c0[wc].At(e), y), Den(c0, h0, c0[c].At(e), y), Den(c1, h1, v, y));
    }
  }

  /** The frame conditions of the loop after one more slot. */
  lemma StepFrames(c0: seq<Chunk>, h0: seq<nat>, j0: Joins, z0: set<nat>, lo: nat,
                   c1: seq<Chunk>, h1: seq<nat>, j1: Joins, z1: set<nat>,
                   c2: seq<Chunk>, h2: seq<nat>, j2: Joins, z2: set<nat>, wc: nat, c: nat, d: bv8)
    requires ChunkLoop(c0, h0, j0, z0, c1, h1, j1, z1, wc, c, d, true)
    requires Loose(c0, h0, z0, lo, c) && Pending(d, true, d)
    requires SlotStep(c1, h1, j1, z1, c2, h2, j2, z2, wc, c, d)
    requires forall x :: UnderSlot(c1, h1, c, d, x) <==> UnderSlot(c0, h0, c, d, x)
    ensures JoinExtends(j0, j2) && z0 <= z2
    ensures forall x | x in z1 && x < |c1| :: c2[x] == c1[x]
    ensures forall x | 0 <= x < |c0| && !Reaches(ShapeOf(c0), h0, c, x) :: c2[x] == c0[x]
    ensures forall x | x in z2 :: x in z0 || x >= |c0| || Reaches(ShapeOf(c0), h0, c, x)
    ensures forall e: bv8, x | Pending(d, true, e) && e != d && UnderSlot(c0, h0, c, e, x)
            && 0 <= x < |c0| :: x !in z2 && c2[x] == c0[x]
    ensures forall e: bv8, x | (!Pending(d, true, e) || e == d) && UnderSlot(c0, h0, c, e, x) && 0 <= x :: x in z2
  {
    hide Pending, SlotJoined, Layered;
    var s := ShapeOf(c0);
    assert Reaches(s, h0, c, c) && Branching(s, h0, c);
    forall e, x | UnderSlot(c0, h0, c, e, x)
      ensures Reaches(s, h0, c, x) && 0 <= x < |c0| && x != c
      ensures e != d ==> !UnderSlot(c0, h0, c, d, x)
    {
      UnderSlotRange(c0, h0, c, e, x);
      ReachKid(s, h0, c, e);
      ReachTrans(s, h0, c, Kid(s, c, e), x);
    }
  }

  lemma LoopReaches(c0: seq<Chunk>, h0: seq<nat>, j0: Joins, z0: set<nat>, c1: seq<Chunk>, h1: seq<nat>, j1: Joins,
                    z1: set<nat>,
                    wc: nat, c: nat, d: bv8)
    requires ChunkLoop(c0, h0, j0, z0, c1, h1, j1, z1, wc, c, d, false)
    ensures WellFormed(c0, h0) && c < |c0| && forall x | Reaches(ShapeOf(c0), h0, c, x) :: 0 <= x && x in z1 + {c}
  {
    assert forall e: bv8 :: !Pending(d, false, e);
    hide Pending, SlotJoined;
    var s0 := ShapeOf(c0);
    forall x | Reaches(s0, h0, c, x)
      ensures 0 <= x && x in z1 + {c}
    {
      ReachHeight(s0, h0, c, x);
      if x != c {
        var e :| Kid(s0, c, e) >= 0 && Reaches(s0, h0, Kid(s0, c, e), x);
        assert UnderSlot(c0, h0, c, e, x);
      }
    }
  }

  lemma LoopJoins(c0: seq<Chunk>, h0: seq<nat>, j0: Joins, z0: set<nat>, c1: seq<Chunk>, h1: seq<nat>, j1: Joins,
                  z1: set<nat>,
                  wc: nat, c: nat, d: bv8)
    requires ChunkLoop(c0, h0, j0, z0, c1, h1, j1, z1, wc, c, d, false)
    ensures WellFormed(c0, h0) && WellFormed(c1, h1) && Extends(h0, h1) && c < |c0| && wc < |c0| && h0[wc] <= h0[c]
    ensures forall y: Digits | |y| >= h0[c] ::
              Joined(j1, Lookup(c0, h0, wc, y), Lookup(c0, h0, c, y), Lookup(c1, h1, c, y))
  {
    assert forall e: bv8 :: !Pending(d, false, e);
    hide Pending, Reaches, UnderSlot;
    forall y: Digits | |y| >= h0[c]
      ensures Joined(j1, Lookup(c0, h0, wc, y), Lookup(c0, h0, c, y), Lookup(c1, h1, c, y))
    {
      assert SlotJoined(c0, h0, c1, h1, j1, wc, c, y[0]);
      assert |y[1..]| + 1 >= h0[c];
    }
  }

  /** When no slot is pending the chunk is merged and can be frozen. */
  lemma ChunkLoopEnd(c0: seq<Chunk>, h0: seq<nat>, j0: Joins, z0: set<nat>, c1: seq<Chunk>, h1: seq<nat>, j1: Joins,
                     z1: set<nat>,
                     memo: Memo, extended: map<nat, nat>, lo: nat, next: nat, wc: nat, c: nat, d: bv8)
    requires ChunkLoop(c0, h0, j0, z0, c1, h1, j1, z1, wc, c, d, false)
    requires Merging(c1, h1, j1, z1, memo, extended, lo, next)
    ensures ChunkStep(c0, h0, j0, z0, c1, h1, j1, z1 + {c}, wc, c)
    ensures Merging(c1, h1, j1, z1 + {c}, memo, extended, lo, next)
  {
    assert forall e: bv8 :: !Pending(d, false, e);
    hide Pending;
    var s0, s1 := ShapeOf(c0), ShapeOf(c1);
    LoopReaches(c0, h0, j0, z0, c1, h1, j1, z1, wc, c, d);
    LoopJoins(c0, h0, j0, z0, c1, h1, j1, z1, wc, c, d);
    hide Reaches, Lookup, SlotJoined, Joined, Layered, MemoFits, ExtendedFits, JoinFits;
    forall x, e | x in z1 + {c} && Kid(s1, x, e) >= 0
      ensures Kid(s1, x, e) in z1 + {c}
    {
      if x == c {
        SlotValues(c1, h1, c, e);
      }
    }
    MemoKeeps(c1, h1, c1, h1, j1, j1, z1, z1 + {c}, memo, extended);
  }

  // ----- new chunks and new memo entries ----------------------------------------------------

  /** Adding a chunk without references, frozen or not, keeps the memo. */
  lemma AppendKeepsMerging(chunks: seq<Chunk>, height: seq<nat>, join: Joins, z: set<nat>, memo: Memo,
                           extended: map<nat, nat>,
                           lo: nat, next: nat, g: nat, h: nat)
    requires Merging(chunks, height, join, z, memo, extended, lo, next) && h >= 1
    ensures var chunks', height' := chunks + [Filled(false, Group(g))], height + [h];
            && Merging(chunks', height', join, z, memo, extended, lo, next)
            && Merging(chunks', height', join, z + {|chunks|}, memo, extended, lo, next)
            && Extends(height, height')
  {
    var chunks', height' := chunks + [Filled(false, Group(g))], height + [h];
    AppendFlat(chunks, height, g, h);
    MemoKeeps(chunks, height, chunks', height', join, join, z, z, memo, extended);
    MemoKeeps(chunks, height, chunks', height', join, join, z, z + {|chunks|}, memo, extended);
    hide Layered, JoinFits, EntryFits, ExtendedFits;
  }

  lemma MemoAdd(chunks: seq<Chunk>, height: seq<nat>, join: Joins, z: set<nat>, memo: Memo, extended: map<nat, nat>,
                lo: nat, next: nat, wv: Value, ov: Value, rv: Value)
    requires Merging(chunks, height, join, z, memo, extended, lo, next)
    requires EntryFits(chunks, height, join, z, wv, ov, rv)
    ensures Merging(chunks, height, join, z, memo[(wv, ov) := rv], extended, lo, next)
  {
    hide Layered, Closed, JoinFits, ExtendedFits, EntryFits;
    var memo' := memo[(wv, ov) := rv];
    assert forall p | p in memo' :: EntryFits(chunks, height, join, z, p.0, p.1, memo'[p]);
  }

  lemma EntryNew(chunks: seq<Chunk>, height: seq<nat>, join: Joins, z: set<nat>, w: nat, b: nat, n: nat)
    requires WellFormed(chunks, height) && w in z && n in z && w < |chunks| && n < |chunks| && height[n] <= height[w]
    requires PairFits(chunks, height, join, w, b, n)
    ensures EntryFits(chunks, height, join, z, Link(w), Group(b), Link(n))
  {
  }

  lemma MemoAddNew(c0: seq<Chunk>, h0: seq<nat>, z0: set<nat>, c1: seq<Chunk>, h1: seq<nat>, join: Joins, z1: set<nat>,
                   memo: Memo, extended: map<nat, nat>, lo: nat, next: nat, w: nat, b: nat, n: nat)
    requires WellFormed(c0, h0) && Closed(ShapeOf(c0), z0) && w in z0 && Extends(h0, h1)
    requires Merging(c1, h1, join, z1, memo, extended, lo, next)
    requires (forall x | x in z0 :: x < |c0| && c1[x] == c0[x]) && z0 <= z1
    requires n in z1 && n < |c1| && h1[n] <= h1[w]
    requires forall y: Digits | |y| >= h0[w] :: Joined(join, Lookup(c0, h0, w, y), b, Lookup(c1, h1, n, y))
    ensures Merging(c1, h1, join, z1, memo[(Link(w), Group(b)) := Link(n)], extended, lo, next)
  {
    ClosedSameBelow(c0, h0, c1, z0, w);
    hide Layered, JoinFits, ExtendedFits, MemoFits, Joined, Closed, Reaches, SameBelow, Lookup;
    forall y: Digits | |y| >= h1[w]
      ensures Joined(join, Lookup(c1, h1, w, y), b, Lookup(c1, h1, n, y))
    {
      SameLookup(c0, h0, c1, h1, w, y);
    }
    assert PairFits(c1, h1, join, w, b, n);
    hide PairFits, EntryFits;
    EntryNew(c1, h1, join, z1, w, b, n);
    MemoAdd(c1, h1, join, z1, memo, extended, lo, next, Link(w), Group(b), Link(n));
  }

  /** A slot with a group id under a warp chunk gets a new chunk, which is ready to be merged. */
  lemma NewOpens(chunks: seq<Chunk>, height: seq<nat>, join: Joins, z: set<nat>, memo: Memo, extended: map<nat, nat>,
                 lo: nat, next: nat, wc: nat, c: nat, d: bv8, w: nat, b: nat)
    requires Merging(chunks, height, join, z, memo, extended, lo, next) && SlotReady(chunks, height, z, lo, wc, c, d)
    requires chunks[c].At(d) == Group(b) && chunks[wc].At(d) == Link(w)
    ensures w < |chunks| && 1 <= height[w] < height[c] && w in z && c < |chunks|
    ensures var chunks', height' := chunks[c := chunks[c].Put(d, Link(|chunks|))] + [Filled(false, Group(b))],
            height + [height[w]];
            && Merging(chunks', height', join, z, memo, extended, lo, next) && Loose(chunks', height', z, lo, |chunks|)
            && Extends(height, height')
  {
    SlotValues(chunks, height, wc, d);
    SlotValues(chunks, height, c, d);
    assert w in z by { assert Kid(ShapeOf(chunks), wc, d) == w; }
    AppendKeepsMerging(chunks, height, join, z, memo, extended, lo, next, b, height[w]);
    var more, height' := chunks + [Filled(false, Group(b))], height + [height[w]];
    PutKeepsMerging(more, height', join, z, memo, extended, lo, next, c, d, Link(|chunks|));
    var chunks' := chunks[c := chunks[c].Put(d, Link(|chunks|))] + [Filled(false, Group(b))];
    assert more[c := more[c].Put(d, Link(|chunks|))] == chunks';
    FlatLoose(chunks', height', z, lo, |chunks|, b);
  }

  /** The merged new chunk is remembered for the pair. */
  lemma NewCloses(c0: seq<Chunk>, h0: seq<nat>, j0: Joins, z0: set<nat>, lo: nat, c1: seq<Chunk>, h1: seq<nat>,
                  j1: Joins, z1: set<nat>,
                  memo: Memo, extended: map<nat, nat>, next: nat, wc: nat, w: nat, c: nat, d: bv8, b: nat)
    requires WellFormed(c0, h0) && Closed(ShapeOf(c0), z0) && SlotReady(c0, h0, z0, lo, wc, c, d)
    requires c0[c].At(d) == Group(b) && c0[wc].At(d) == Link(w) && w < |c0| && h0[w] < h0[c] && w in z0
    requires ChunkStep(c0[c := c0[c].Put(d, Link(|c0|))] + [Filled(false, Group(b))], h0 + [h0[w]], j0, z0, c1, h1, j1,
                       z1, w, |c0|)
    requires Merging(c1, h1, j1, z1, memo, extended, lo, next)
    ensures SlotStep(c0, h0, j0, z0, c1, h1, j1, z1, wc, c, d)
    ensures Merging(c1, h1, j1, z1, memo[(Link(w), Group(b)) := Link(|c0|)], extended, lo, next)
  {
    var c', h' := c0[c := c0[c].Put(d, Link(|c0|))] + [Filled(false, Group(b))], h0 + [h0[w]];
    SlotFromNew(c0, h0, j0, z0, lo, c', h', c1, h1, j1, z1, wc, w, c, d, b);
    NewFrozen(c', h', j0, z0, c1, h1, j1, z1, w, |c0|);
    NewFrame(c0, h0, j0, z0, c1, h1, j1, z1, wc, c, d, b);
    hide SlotStep, ChunkStep, SlotReady, Merging, Closed, Layered, Lookup, Joined;
    MemoAddNew(c0, h0, z0, c1, h1, j1, z1, memo, extended, lo, next, w, b, |c0|);
  }

  lemma NewFrozen(c0: seq<Chunk>, h0: seq<nat>, j0: Joins, z0: set<nat>, c1: seq<Chunk>, h1: seq<nat>, j1: Joins,
                  z1: set<nat>, wc: nat, c: nat)
    requires ChunkStep(c0, h0, j0, z0, c1, h1, j1, z1, wc, c)
    ensures c in z1 && c < |c1| && |h1| == |c1| && h1[c] == h0[c] && h1[wc] == h0[wc]
  {
    hide Layered, Lookup, Joined;
    assert Reaches(ShapeOf(c0), h0, c, c);
  }

  lemma NewFrame(c0: seq<Chunk>, h0: seq<nat>, j0: Joins, z0: set<nat>, c1: seq<Chunk>, h1: seq<nat>, j1: Joins,
                 z1: set<nat>, wc: nat, c: nat,
                 d: bv8, b: nat)
    requires SlotStep(c0, h0, j0, z0, c1, h1, j1, z1, wc, c, d) && c0[c].At(d) == Group(b) && c !in z0
    requires forall x | x in z0 :: 0 <= x < |c0|
    ensures Extends(h0, h1) && z0 <= z1 && forall x | x in z0 :: x < |c0| && c1[x] == c0[x]
  {
    SlotValues(c0, h0, c, d);
    hide Layered, SlotJoined, Reaches;
  }

  /** The chunk that stands for warp id a is there, and the part to be merged is still loose. */
  lemma ExtendReady(chunks: seq<Chunk>, height: seq<nat>, join: Joins, z: set<nat>, memo: Memo, extended: map<nat, nat>,
                    lo: nat, next: nat, a: nat, k: nat)
    requires Merging(chunks, height, join, z, memo, extended, lo, next)
    requires k < |chunks| && Loose(chunks, height, z, lo, k)
    ensures var chunks', height', z' := chunks + [Filled(false, Group(a))], height + [1], z + {|chunks|};
            && Merging(chunks', height', join, z', memo, extended[a := |chunks|], lo, next)
            && Extends(height, height') && Loose(chunks', height', z', lo, k)
            && forall x | 0 <= x < |chunks| :: chunks'[x] == chunks[x]
  {
    var chunks', height', z' := chunks + [Filled(false, Group(a))], height + [1], z + {|chunks|};
    AppendKeepsMerging(chunks, height, join, z, memo, extended, lo, next, a, 1);
    hide MemoFits, Layered, Closed, JoinFits;
    assert SameBelow(chunks, height, chunks', k);
    SameLoose(chunks, height, chunks', height', z, z', lo, k);
  }
}
