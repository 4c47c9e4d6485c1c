/**
  Reading the group ids of a network (`get_step`, `get_group_id_next`) and renumbering the group
  ids of the tree (`remap_chunk`).
*/
module TreeGet {
  import opened Base
  import opened Nets
  import opened ChunkForest
  import opened TreeInsert
  import opened TreeMerge
  import opened TreeGaps

  // ----- the ids below a chunk --------------------------------------------------------------

  ghost predicate HoldsAt(chunks: seq<Chunk>, x: int, d: bv8, g: nat) {
    0 <= x < |chunks| && chunks[x].Sized() && chunks[x].At(d) == Group(g)
  }

  /** Some address below chunk c has group id g. */
  ghost predicate Holds(chunks: seq<Chunk>, height: seq<nat>, c: nat, g: nat)
    requires WellFormed(chunks, height) && c < |chunks|
  {
    exists x, d :: Reaches(ShapeOf(chunks), height, c, x) && HoldsAt(chunks, x, d, g)
  }

  ghost predicate SlotHolds(chunks: seq<Chunk>, height: seq<nat>, c: nat, d: bv8, g: nat)
    requires WellFormed(chunks, height) && c < |chunks|
  {
    match chunks[c].At(d)
    case Group(h) => g == h
    case Link(k) => k < |chunks| && Holds(chunks, height, k, g)
  }

  lemma HoldsSlot(chunks: seq<Chunk>, height: seq<nat>, c: nat, g: nat)
    requires WellFormed(chunks, height) && c < |chunks|
    ensures Holds(chunks, height, c, g) <==> exists d :: SlotHolds(chunks, height, c, d, g)
  {
    var s := ShapeOf(chunks);
    if Holds(chunks, height, c, g) {
      var x, d :| Reaches(s, height, c, x) && HoldsAt(chunks, x, d, g);
      if x == c {
        assert SlotHolds(chunks, height, c, d, g);
      } else {
        var e :| Kid(s, c, e) >= 0 && Reaches(s, height, Kid(s, c, e), x);
        assert SlotHolds(chunks, height, c, e, g);
      }
    }
    if d :| SlotHolds(chunks, height, c, d, g) {
      match chunks[c].At(d) {
        case Group(_) =>
          assert Reaches(s, height, c, c) && HoldsAt(chunks, c, d, g);
        case Link(k) =>
          assert Kid(s, c, d) == k;
          var x, e :| Reaches(s, height, k, x) && HoldsAt(chunks, x, e, g);
          assert Reaches(s, height, c, x);
      }
    }
  }

  /** The ids below a chunk are the ids of the addresses below it. */
  lemma HoldsLookup(chunks: seq<Chunk>, height: seq<nat>, c: nat, n: nat, g: nat)
    requires WellFormed(chunks, height) && c < |chunks| && n >= height[c]
    ensures Holds(chunks, height, c, g) <==> exists y: Digits :: |y| == n && Lookup(chunks, height, c, y) == g
  {
    var s := ShapeOf(chunks);
    if Holds(chunks, height, c, g) {
      var x, d :| Reaches(s, height, c, x) && HoldsAt(chunks, x, d, g);
      var p := ReachWalk(s, height, c, x);
      WalkHeight(s, height, c, p);
      assert height[x] >= 1;
      var t: Digits := [d] + seq(n - |p| - 1, _ => 0);
      LookupAlong(chunks, height, c, p, t);
      assert |p + t| == n && Lookup(chunks, height, c, p + t) == g;
    }
    if y: Digits :| |y| == n && Lookup(chunks, height, c, y) == g {
      LookupAtStop(chunks, height, c, y);
      StopReached(s, height, c, y);
      var (x, d) := Stop(s, height, c, y);
      assert HoldsAt(chunks, x, d, g);
    }
  }

  /** The ids below the slots of chunk c that a loop has passed. */
  ghost predicate SlotsHold(chunks: seq<Chunk>, height: seq<nat>, c: nat, low: bv8, high: bv8, d: bv8, more: bool,
                            g: nat)
    requires WellFormed(chunks, height) && c < |chunks|
  {
    exists e :: Passed(low, high, d, more, e) && SlotHolds(chunks, height, c, e, g)
  }

  lemma SlotsHoldStep(chunks: seq<Chunk>, height: seq<nat>, c: nat, low: bv8, high: bv8, d: bv8, d': bv8, more: bool,
                      g: nat)
    requires WellFormed(chunks, height) && c < |chunks|
    requires forall e :: Passed(low, high, d', more, e) <==> Passed(low, high, d, true, e) || e == d
    ensures SlotsHold(chunks, height, c, low, high, d', more, g)
            <==> SlotsHold(chunks, height, c, low, high, d, true, g) || SlotHolds(chunks, height, c, d, g)
  {
    hide Passed, SlotHolds;
    if SlotHolds(chunks, height, c, d, g) {
      assert Passed(low, high, d', more, d);
    }
  }

  ghost predicate AllHeld(chunks: seq<Chunk>, height: seq<nat>, prev: set<nat>, groups: set<nat>)
    requires WellFormed(chunks, height)
  {
    forall k, g | k in prev && k < |chunks| && Holds(chunks, height, k, g) :: g in groups
  }

  // ----- the ids of a network ---------------------------------------------------------------

  /** Some address of the network below chunk c has group id g. */
  ghost predicate Seen(chunks: seq<Chunk>, height: seq<nat>, c: nat, addr: Digits, mask: Digits, g: nat)
    requires WellFormed(chunks, height) && c < |chunks| && height[c] <= |mask|
  {
    exists y: Digits :: |y| == |mask| && Covers(Net(addr, mask), y) && Lookup(chunks, height, c, y) == g
  }

  lemma LookupFirst(chunks: seq<Chunk>, height: seq<nat>, c: nat, d: bv8, t: Digits)
    requires WellFormed(chunks, height) && c < |chunks| && height[c] <= 1 + |t|
    ensures var v := chunks[c].At(d);
            if v.Group? then Lookup(chunks, height, c, [d] + t) == v.id
            else v.chunk < |chunks| && height[v.chunk] <= |t|
                 && Lookup(chunks, height, c, [d] + t) == Lookup(chunks, height, v.chunk, t)
  {
    assert ([d] + t)[1..] == t;
    assert Kid(ShapeOf(chunks), c, d) == if chunks[c].At(d).Link? then chunks[c].At(d).chunk else -1;
  }

  /** One step along a full byte of the mask. */
  lemma SeenNext(chunks: seq<Chunk>, height: seq<nat>, c: nat, addr: Digits, mask: Digits, g: nat)
    requires WellFormed(chunks, height) && c < |chunks| && height[c] <= |mask| == |addr| && |mask| > 0
             && mask[0] == 0xFF
    ensures var v := chunks[c].At(addr[0]);
            if v.Group? then Seen(chunks, height, c, addr, mask, g) <==> g == v.id
            else v.chunk < |chunks| && height[v.chunk] <= |mask[1..]|
                 && (Seen(chunks, height, c, addr, mask, g) <==> Seen(chunks, height, v.chunk, addr[1..], mask[1..], g))
  {
    hide Covers, Agree, Layered;
    var d := addr[0];
    LookupFirst(chunks, height, c, d, addr[1..]);
    forall y: Digits | |y| == |mask|
      ensures Covers(Net(addr, mask), y) <==> y[0] == d && Covers(Net(addr[1..], mask[1..]), y[1..])
    {
      assert y == [y[0]] + y[1..];
      CoversFirst(addr, mask, y[0], y[1..]);
      AgreeEnds(y[0], d);
    }
    if Seen(chunks, height, c, addr, mask, g) {
      var y: Digits :| |y| == |mask| && Covers(Net(addr, mask), y) && Lookup(chunks, height, c, y) == g;
      assert y == [d] + y[1..];
      LookupFirst(chunks, height, c, d, y[1..]);
    }
    match chunks[c].At(d) {
      case Group(h) =>
        CoversItself(Net(addr[1..], mask[1..]));
        var y := [d] + addr[1..];
        assert y[1..] == addr[1..] && |y| == |mask|;
      case Link(k) =>
        if Seen(chunks, height, k, addr[1..], mask[1..], g) {
          var t: Digits :| |t| == |mask[1..]| && Covers(Net(addr[1..], mask[1..]), t)
              && Lookup(chunks, height, k, t) == g;
          LookupFirst(chunks, height, c, d, t);
          assert ([d] + t)[1..] == t && |[d] + t| == |mask|;
        }
    }
  }

  /** The last step: all slots that the byte of the mask leaves open. */
  lemma SeenLast(chunks: seq<Chunk>, height: seq<nat>, c: nat, addr: Digits, mask: Digits, g: nat)
    requires WellFormed(chunks, height) && c < |chunks| && height[c] <= |mask| == |addr| && |mask| > 0
             && AllZero(mask[1..])
    ensures Seen(chunks, height, c, addr, mask, g)
            <==> exists d :: Agree(d, mask[0], addr[0]) && SlotHolds(chunks, height, c, d, g)
  {
    hide Covers, Agree, Layered, Holds, Lookup, SlotHolds;
    forall y: Digits | |y| == |mask|
      ensures Covers(Net(addr, mask), y) <==> Agree(y[0], mask[0], addr[0])
    {
      assert y == [y[0]] + y[1..];
      CoversFirst(addr, mask, y[0], y[1..]);
      CoversAll(Net(addr[1..], mask[1..]), y[1..]);
    }
    if Seen(chunks, height, c, addr, mask, g) {
      var y: Digits :| |y| == |mask| && Covers(Net(addr, mask), y) && Lookup(chunks, height, c, y) == g;
      SlotSeen(chunks, height, c, y);
    }
    if d :| Agree(d, mask[0], addr[0]) && SlotHolds(chunks, height, c, d, g) {
      var y := SlotFound(chunks, height, c, d, |mask|, g);
    }
  }

  /** The group of an address is held in the slot of its first digit. */
  lemma SlotSeen(chunks: seq<Chunk>, height: seq<nat>, c: nat, y: Digits)
    requires WellFormed(chunks, height) && c < |chunks| && height[c] <= |y|
    ensures |y| > 0 && SlotHolds(chunks, height, c, y[0], Lookup(chunks, height, c, y))
  {
    assert y == [y[0]] + y[1..];
    LookupFirst(chunks, height, c, y[0], y[1..]);
    SlotValues(chunks, height, c, y[0]);
    hide Layered, Holds, Lookup;
    if chunks[c].At(y[0]).Link? {
      HoldsLookup(chunks, height, chunks[c].At(y[0]).chunk, |y[1..]|, Lookup(chunks, height, c, y));
    }
  }

  /** A group that is held in a slot belongs to an address with that first digit. */
  lemma SlotFound(chunks: seq<Chunk>, height: seq<nat>, c: nat, d: bv8, n: nat, g: nat) returns (y: Digits)
    requires WellFormed(chunks, height) && c < |chunks| && height[c] <= n && SlotHolds(chunks, height, c, d, g)
    ensures |y| == n > 0 && y[0] == d && Lookup(chunks, height, c, y) == g
  {
    SlotValues(chunks, height, c, d);
    hide Layered, Holds, Lookup;
    var t: Digits := seq(n - 1, _ => 0);
    if chunks[c].At(d).Link? {
      HoldsLookup(chunks, height, chunks[c].At(d).chunk, n - 1, g);
      t :| |t| == n - 1 && Lookup(chunks, height, chunks[c].At(d).chunk, t) == g;
    }
    LookupFirst(chunks, height, c, d, t);
    y := [d] + t;
  }

  lemma CoversAll(n: Net, x: Digits)
    requires AllZero(n.mask)
    ensures Covers(n, x)
  {
    forall i | 0 <= i < |x| && i < |n.mask| && i < |n.addr|
      ensures Agree(x[i], n.mask[i], n.addr[i])
    {
      AgreeEnds(x[i], n.addr[i]);
    }
  }

  // ----- the networks with a gap ------------------------------------------------------------

  /** After the merge: `ends` are the chunks at the end of the gap of the warp. */
  ghost predicate EndsFit(chunks: seq<Chunk>, height: seq<nat>, w: Warp, ends: set<nat>, h: nat)
    requires WellFormed(chunks, height)
  {
    && 0 < |chunks| && height[0] == h && w.level < h
    && (forall o :: o in ends <==> IsLast(ShapeOf(chunks), w, o))
    && (forall p: Digits | |p| == w.level && Covers(w.region, p) :: Walk(ShapeOf(chunks), 0, p).Some?)
  }

  lemma EndHeight(chunks: seq<Chunk>, height: seq<nat>, w: Warp, ends: set<nat>, h: nat, o: nat)
    requires WellFormed(chunks, height) && EndsFit(chunks, height, w, ends, h) && o in ends
    ensures o < |chunks| && height[o] <= h - w.level
  {
    var p: Digits :| |p| == w.level && Covers(w.region, p) && Walk(ShapeOf(chunks), 0, p) == Some(o);
    WalkHeight(ShapeOf(chunks), height, 0, p);
  }

  /** Some address of the network with last part (addr, mask) has group id g below one of the ends. */
  ghost predicate SeenBelow(chunks: seq<Chunk>, height: seq<nat>, ends: set<nat>, addr: Digits, mask: Digits, g: nat)
    requires WellFormed(chunks, height) && forall o | o in ends :: o < |chunks| && height[o] <= |mask|
  {
    exists o :: o in ends && Seen(chunks, height, o, addr, mask, g)
  }

  lemma SeenBelowStep(chunks: seq<Chunk>, height: seq<nat>, ends: set<nat>, o: nat, addr: Digits, mask: Digits, g: nat)
    requires WellFormed(chunks, height) && forall o' | o' in ends + {o} :: o' < |chunks| && height[o'] <= |mask|
    ensures SeenBelow(chunks, height, ends + {o}, addr, mask, g)
            <==> SeenBelow(chunks, height, ends, addr, mask, g) || Seen(chunks, height, o, addr, mask, g)
  {
    hide Seen;
  }

  lemma GappedSeen(chunks: seq<Chunk>, height: seq<nat>, w: Warp, ends: set<nat>, h: nat, n: Net, g: nat)
    requires WellFormed(chunks, height) && EndsFit(chunks, height, w, ends, h) && |n.addr| == |n.mask| == h
    requires TailNet(w, n, h) && forall o | o in ends :: o < |chunks| && height[o] <= h - w.level
    ensures Seen(chunks, height, 0, n.addr, n.mask, g)
            <==> SeenBelow(chunks, height, ends, n.addr[w.level..], n.mask[w.level..], g)
  {
    hide Covers, Layered, Walk, Lookup, EndsFit, TailNet;
    EndsSizes(chunks, height, w, ends, h);
    assert n == Net(n.addr, n.mask);
    var l := w.level;
    var addr, mask := n.addr[l..], n.mask[l..];
    if Seen(chunks, height, 0, n.addr, n.mask, g) {
      var y: Digits :| |y| == |n.mask| && Covers(Net(n.addr, n.mask), y) && Lookup(chunks, height, 0, y) == g;
      SeenDown(chunks, height, w, ends, h, n, y);
    }
    if o :| o in ends && Seen(chunks, height, o, addr, mask, g) {
      var t: Digits :| |t| == |mask| && Covers(Net(addr, mask), t) && Lookup(chunks, height, o, t) == g;
      SeenUp(chunks, height, w, ends, h, n, o, t);
    }
  }

  /** The network is its region and, behind the gap, a network of its own. */
  ghost predicate TailNet(w: Warp, n: Net, h: nat)
    requires |n.addr| == |n.mask| == h
  {
    && w.level <= h
    && forall x: Digits | |x| == h ::
         Covers(n, x)
         <==> Covers(w.region, x[..w.level]) && Covers(Net(n.addr[w.level..], n.mask[w.level..]), x[w.level..])
  }

  lemma EndsSizes(chunks: seq<Chunk>, height: seq<nat>, w: Warp, ends: set<nat>, h: nat)
    requires WellFormed(chunks, height) && EndsFit(chunks, height, w, ends, h)
    ensures |chunks| > 0 && height[0] <= h && w.level <= h
  {
    hide Covers, Layered, Walk, Lookup;
  }

  /** An address of the network is found behind one of the ends of its gap. */
  lemma SeenDown(chunks: seq<Chunk>, height: seq<nat>, w: Warp, ends: set<nat>, h: nat, n: Net, y: Digits)
    requires WellFormed(chunks, height) && EndsFit(chunks, height, w, ends, h) && |n.addr| == |n.mask| == |y| == h
             && |chunks| > 0 && height[0] <= h
    requires TailNet(w, n, h) && (forall o | o in ends :: o < |chunks| && height[o] <= h - w.level) && Covers(n, y)
    ensures SeenBelow(chunks, height, ends, n.addr[w.level..], n.mask[w.level..], Lookup(chunks, height, 0, y))
  {
    hide Covers, Layered, Walk, Lookup;
    var p, t := y[..w.level], y[w.level..];
    assert y == p + t;
    var o := Walk(ShapeOf(chunks), 0, p).value;
    assert IsLast(ShapeOf(chunks), w, o);
    LookupAlong(chunks, height, 0, p, t);
    assert Seen(chunks, height, o, n.addr[w.level..], n.mask[w.level..], Lookup(chunks, height, 0, y));
  }

  lemma SeenUp(chunks: seq<Chunk>, height: seq<nat>, w: Warp, ends: set<nat>, h: nat, n: Net, o: nat, t: Digits)
    requires WellFormed(chunks, height) && EndsFit(chunks, height, w, ends, h) && |n.addr| == |n.mask| == h
             && |chunks| > 0 && height[0] <= h
    requires TailNet(w, n, h) && (forall o | o in ends :: o < |chunks| && height[o] <= h - w.level) && o in ends
    requires |t| == h - w.level && Covers(Net(n.addr[w.level..], n.mask[w.level..]), t)
    ensures Seen(chunks, height, 0, n.addr, n.mask, Lookup(chunks, height, o, t))
  {
    hide Covers, Layered, Walk, Lookup;
    var p: Digits :| |p| == w.level && Covers(w.region, p) && Walk(ShapeOf(chunks), 0, p) == Some(o);
    LookupAlong(chunks, height, 0, p, t);
    var y := p + t;
    assert y[..w.level] == p && y[w.level..] == t && |y| == h;
    assert Covers(n, y) && n == Net(n.addr, n.mask);
  }

  // ----- renumbering ------------------------------------------------------------------------

  ghost predicate Small(k: Chunk, n: nat) {
    k.Sized() && forall d: bv8 | k.At(d).Group? :: k.At(d).id < n
  }

  /** All ids in the chunks of z, which are closed under references, are below n. */
  ghost predicate AllSmall(chunks: seq<Chunk>, z: set<nat>, n: nat) {
    && Sized(chunks) && Closed(ShapeOf(chunks), z)
    && forall x | x in z && x < |chunks| :: Small(chunks[x], n)
  }

  ghost predicate Renumbered(k: Chunk, k': Chunk, vec: seq<nat>) {
    && k.Sized() && k'.Sized() && k'.multirefs == k.multirefs
    && (forall d: bv8 | k.At(d).Group? :: k.At(d).id < |vec| && k'.At(d) == Group(vec[k.At(d).id]))
    && (forall d: bv8 | k.At(d).Link? :: k'.At(d) == k.At(d))
  }

  /** The passed slots of chunk c have been renumbered. */
  ghost predicate RenumberedTo(was: seq<Chunk>, chunks: seq<Chunk>, c: nat, vec: seq<nat>, d: bv8, more: bool) {
    && c < |was| == |chunks| && was[c].Sized() && chunks[c].Sized() && chunks[c].multirefs == was[c].multirefs
    && (forall x | 0 <= x < |was| && x != c :: chunks[x] == was[x])
    && (forall e: bv8 | was[c].At(e).Group? :: was[c].At(e).id < |vec|)
    && (forall e: bv8 ::
          chunks[c].At(e) == if Passed(0, 0xFF, d, more, e) && was[c].At(e).Group? then Group(vec[was[c].At(e).id])
                                            else was[c].At(e))
  }

  lemma RenumberStart(was: seq<Chunk>, c: nat, vec: seq<nat>)
    requires c < |was| && Small(was[c], |vec|)
    ensures RenumberedTo(was, was, c, vec, 0, true)
  {
    forall e { EveryDigit(0, e); }
    hide Passed;
  }

  lemma RenumberHere(was: seq<Chunk>, chunks: seq<Chunk>, c: nat, vec: seq<nat>, d: bv8)
    requires RenumberedTo(was, chunks, c, vec, d, true)
    ensures c < |was| == |chunks| && was[c].Sized() && chunks[c].Sized() && chunks[c].At(d) == was[c].At(d)
    ensures was[c].At(d).Group? ==> was[c].At(d).id < |vec|
  {
    NotYet(0, 0xFF, d);
    hide Passed;
  }

  lemma RenumberNext(was: seq<Chunk>, chunks: seq<Chunk>, c: nat, vec: seq<nat>, d: bv8)
    requires RenumberedTo(was, chunks, c, vec, d, true)
    ensures var chunks' := if was[c].At(d).Group? then chunks[c := chunks[c].Put(d, Group(vec[was[c].At(d).id]))]
                           else chunks;
            forall d': bv8, more: bool | PassedBoth(0, 0xFF, d, d', more) ::
              RenumberedTo(was, chunks', c, vec, d', more)
  {
    hide Passed;
  }

  lemma RenumberEnd(was: seq<Chunk>, chunks: seq<Chunk>, c: nat, vec: seq<nat>, d: bv8)
    requires RenumberedTo(was, chunks, c, vec, d, false)
    ensures RenumberedAll(was, chunks, {c}, vec)
  {
    forall e { EveryDigit(d, e); }
    hide Passed;
  }

  /** Exactly the chunks of z have been renumbered, each of them once. */
  ghost predicate RenumberedAll(c0: seq<Chunk>, c1: seq<Chunk>, z: set<nat>, vec: seq<nat>) {
    && |c1| == |c0|
    && (forall x | 0 <= x < |c0| && x in z :: Renumbered(c0[x], c1[x], vec))
    && (forall x | 0 <= x < |c0| && x !in z :: c1[x] == c0[x])
  }

  /** The references of the chunks of z lead to chunks of `prev`. */
  ghost predicate KidsIn(s: Shape, z: set<nat>, prev: set<nat>) {
    forall x, d | x in z && Kid(s, x, d) >= 0 :: Kid(s, x, d) in prev
  }

  lemma {:induction false} RenumberedLookup(c0: seq<Chunk>, c1: seq<Chunk>, height: seq<nat>, z: set<nat>,
                                            vec: seq<nat>, c: nat, a: Digits)
    requires WellFormed(c0, height) && WellFormed(c1, height) && RenumberedAll(c0, c1, z, vec)
             && KidsIn(ShapeOf(c0), z, z)
    requires c < |c0| && c in z && height[c] <= |a|
    ensures Lookup(c0, height, c, a) < |vec| && Lookup(c1, height, c, a) == vec[Lookup(c0, height, c, a)]
    decreases |a|
  {
    var s := ShapeOf(c0);
    assert Renumbered(c0[c], c1[c], vec);
    assert Kid(s, c, a[0]) == if c0[c].At(a[0]).Link? then c0[c].At(a[0]).chunk else -1;
    if c0[c].At(a[0]).Link? {
      RenumberedLookup(c0, c1, height, z, vec, c0[c].At(a[0]).chunk, a[1..]);
    }
  }

  lemma RenumberedShape(c0: seq<Chunk>, c1: seq<Chunk>, height: seq<nat>, z: set<nat>, vec: seq<nat>)
    requires WellFormed(c0, height) && RenumberedAll(c0, c1, z, vec)
    ensures WellFormed(c1, height) && ShapeOf(c1) == ShapeOf(c0)
  {
    forall x | 0 <= x < |c0|
      ensures c1[x].Sized()
      ensures forall d: bv8 ::
                c1[x].At(d).Link? == c0[x].At(d).Link? && (c0[x].At(d).Link? ==> c1[x].At(d) == c0[x].At(d))
    {
    }
    SameShape(c0, c1);
  }

  lemma SameShape(c0: seq<Chunk>, c1: seq<Chunk>)
    requires Sized(c0) && Sized(c1) && |c1| == |c0|
    requires forall x, d: bv8 | 0 <= x < |c0| ::
               c1[x].At(d).Link? == c0[x].At(d).Link? && (c0[x].At(d).Link? ==> c1[x].At(d) == c0[x].At(d))
    ensures ShapeOf(c1) == ShapeOf(c0)
  {
    forall x | 0 <= x < |c0|
      ensures Links(c1[x]) == Links(c0[x])
    {
      SameLinks(c0[x], c1[x]);
    }
    hide Links, Kid;
    assert forall x | 0 <= x < |c0| :: ShapeOf(c1)[x] == ShapeOf(c0)[x];
  }

  lemma SameLinks(k0: Chunk, k1: Chunk)
    requires k0.Sized() && k1.Sized()
    requires forall d: bv8 :: k1.At(d).Link? == k0.At(d).Link? && (k0.At(d).Link? ==> k1.At(d) == k0.At(d))
    ensures Links(k1) == Links(k0)
  {
    forall i | 0 <= i < 256
      ensures Links(k1)[i] == Links(k0)[i]
    {
      var d := ByteOf(i);
      assert k0.At(d) == k0.values[i] && k1.At(d) == k1.values[i];
    }
  }

  /**
    The state of `remap_chunk` between calls: the chunks of z have been renumbered; those outside `prev` are
    higher than `top`.
  */
  ghost predicate Renumbering(was: seq<Chunk>, chunks: seq<Chunk>, height: seq<nat>, z: set<nat>, prev: set<nat>,
                              vec: seq<nat>, top: nat,
                              all: set<nat>)
  {
    && WellFormed(was, height) && AllSmall(was, all, |vec|) && RenumberedAll(was, chunks, z, vec)
    && (forall x | x in prev :: x < |was| && x in all)
    && (forall x | x in z && x !in prev :: x < |was| && height[x] >= top)
  }

  lemma RenumberMore(was: seq<Chunk>, chunks: seq<Chunk>, chunks': seq<Chunk>, z: set<nat>, c: nat, vec: seq<nat>)
    requires RenumberedAll(was, chunks, z, vec) && RenumberedAll(chunks, chunks', {c}, vec) && c !in z && c < |was|
    ensures RenumberedAll(was, chunks', z + {c}, vec)
  {
    hide Renumbered;
    assert c in {c};
    forall x | 0 <= x < |was| && x in z + {c}
      ensures Renumbered(was[x], chunks'[x], vec)
    {
      if x != c {
        assert x !in {c};
      }
    }
  }

  lemma KidsMore(s: Shape, z: set<nat>, z': set<nat>, prev: set<nat>, prev': set<nat>)
    requires KidsIn(s, z, prev) && KidsIn(s, z', prev') && prev <= prev'
    ensures KidsIn(s, z + z', prev')
  {
  }

  /** The state of the loop of `remap_chunk` over the chunks that are new below chunk c; `todo` are pending. */
  ghost predicate RemapState(was: seq<Chunk>, chunks: seq<Chunk>, height: seq<nat>, vec: seq<nat>, c: nat, z: set<nat>,
                             prev: set<nat>,
                             prev': set<nat>, z': set<nat>, todo: set<nat>, all: set<nat>)
  {
    && c < |height| && Renumbering(was, chunks, height, z', prev', vec, height[c], all)
    && prev <= prev' && todo <= prev' - prev && z' == z + {c} + (prev' - prev - todo)
    && (forall k | k in prev' - prev :: k < |height| && height[k] < height[c] && k !in z)
    && KidsIn(ShapeOf(was), {c} + (prev' - prev) - todo, prev')
  }

  lemma RemapStart(was: seq<Chunk>, chunks: seq<Chunk>, height: seq<nat>, vec: seq<nat>, c: nat, z: set<nat>,
                   prev: set<nat>,
                   prev': set<nat>, next: set<nat>, all: set<nat>)
    requires c < |height| && Renumbering(was, chunks, height, z + {c}, prev', vec, height[c], all) && Sized(was)
    requires prev' == prev + next && next !! prev && KidsIn(ShapeOf(was), {c}, prev')
    requires forall k | k in next :: k < |height| && height[k] < height[c] && k !in z
    ensures RemapState(was, chunks, height, vec, c, z, prev, prev', z + {c}, next, all)
  {
    hide Renumbering, Layered, ShapeOf;
    assert prev' - prev == next;
    assert {c} + next - next == {c};
    assert z + {c} + (next - next) == z + {c};
  }

  lemma RemapNext(was: seq<Chunk>, chunks: seq<Chunk>, height: seq<nat>, vec: seq<nat>, c: nat, z: set<nat>,
                  prev: set<nat>,
                  prev': set<nat>, z': set<nat>, todo: set<nat>, k: nat, all: set<nat>)
    requires RemapState(was, chunks, height, vec, c, z, prev, prev', z', todo, all) && k in todo
    ensures k < |height| && height[k] < height[c] && k !in z' && k in all
    ensures Renumbering(was, chunks, height, z', prev', vec, height[k] + 1, all)
  {
    hide RenumberedAll, AllSmall, Layered, KidsIn;
  }

  /** After chunk k of the pending ones has been renumbered with all that is new below it. */
  lemma RemapRound(was: seq<Chunk>, c1: seq<Chunk>, c2: seq<Chunk>, height: seq<nat>, vec: seq<nat>, c: nat, k: nat,
                   z: set<nat>, prev: set<nat>,
                   p1: set<nat>, z1: set<nat>, t1: set<nat>, p2: set<nat>, z2: set<nat>, all: set<nat>)
    requires RemapState(was, c1, height, vec, c, z, prev, p1, z1, t1, all) && k in t1 && p1 <= p2
    requires z2 == z1 + {k} + (p2 - p1) && Renumbering(was, c2, height, z2, p2, vec, height[k], all)
    requires forall x | x in p2 - p1 :: x < |height| && height[x] < height[k] && x !in z1
    requires KidsIn(ShapeOf(was), {k} + (p2 - p1), p2)
    ensures RemapState(was, c2, height, vec, c, z, prev, p2, z2, t1 - {k}, all)
  {
    hide RenumberedAll, AllSmall, Layered, ShapeOf;
    KidsMore(ShapeOf(was), {c} + (p1 - prev) - t1, {k} + (p2 - p1), p1, p2);
    hide KidsIn;
    assert p2 - prev == (p1 - prev) + (p2 - p1);
    assert {c} + (p2 - prev) - (t1 - {k}) == {c} + (p1 - prev) - t1 + ({k} + (p2 - p1));
    assert z2 == z + {c} + (p2 - prev - (t1 - {k}));
  }

  lemma RemapEnd(was: seq<Chunk>, chunks: seq<Chunk>, height: seq<nat>, vec: seq<nat>, c: nat, z: set<nat>,
                 prev: set<nat>,
                 prev': set<nat>, z': set<nat>, all: set<nat>)
    requires RemapState(was, chunks, height, vec, c, z, prev, prev', z', {}, all)
    ensures Renumbering(was, chunks, height, z', prev', vec, height[c], all) && prev <= prev' && Sized(was)
    ensures z' == z + {c} + (prev' - prev)
    ensures forall k | k in prev' - prev :: k < |height| && height[k] < height[c] && k !in z
    ensures KidsIn(ShapeOf(was), {c} + (prev' - prev), prev')
  {
    hide RenumberedAll, AllSmall, Layered, ShapeOf, KidsIn;
    assert prev' - prev - {} == prev' - prev;
    assert {c} + (prev' - prev) - {} == {c} + (prev' - prev);
  }

  lemma ClosedKids(s: Shape, all: set<nat>, c: nat)
    requires Closed(s, all) && c in all
    ensures KidsIn(s, {c}, all)
  {
  }

  lemma KidsGrow(s: Shape, z: set<nat>, prev: set<nat>)
    requires KidsIn(s, z, prev) && prev <= z
    ensures KidsIn(s, z, z)
  {
  }

  ghost function ReachSet(chunks: seq<Chunk>, height: seq<nat>, c: nat): set<nat>
    requires WellFormed(chunks, height) && c < |chunks|
  {
    set x: nat | x < |chunks| && Reaches(ShapeOf(chunks), height, c, x)
  }

  /** If the ids of all addresses are below n, so are all ids in the chunks that are reached. */
  lemma RootSmall(chunks: seq<Chunk>, height: seq<nat>, c: nat, h: nat, n: nat)
    requires WellFormed(chunks, height) && c < |chunks| && height[c] == h
    requires forall a: Digits | |a| == h :: Lookup(chunks, height, c, a) < n
    ensures AllSmall(chunks, ReachSet(chunks, height, c), n) && c in ReachSet(chunks, height, c)
  {
    var s, z := ShapeOf(chunks), ReachSet(chunks, height, c);
    assert Reaches(s, height, c, c);
    forall x, d | x in z && Kid(s, x, d) >= 0
      ensures Kid(s, x, d) in z
    {
      assert Reaches(s, height, Kid(s, x, d), Kid(s, x, d));
      assert Reaches(s, height, x, Kid(s, x, d));
      ReachTrans(s, height, c, x, Kid(s, x, d));
    }
    forall x, d: bv8 | x in z && chunks[x].At(d).Group?
      ensures chunks[x].At(d).id < n
    {
      var g := chunks[x].At(d).id;
      assert HoldsAt(chunks, x, d, g);
      HoldsLookup(chunks, height, c, h, g);
    }
  }
}
