/**
  The chunk storage of the address classifier (`acl::compiler::tree_t`).

  A chunk has 256 values; a value is a group id or a reference to another chunk.  Chunks are
  shared: many slots may refer to one chunk, so an address is not a node but a walk.  `Shape`
  keeps only the references, `Walk` follows a path of digits from a root chunk, and `Stop` is the
  slot in which the walk of a full address ends.
*/
module ChunkForest {
  import opened Base

  type Digits = seq<bv8>

  datatype Value = Group(id: nat) | Link(chunk: nat)

  datatype Chunk = Chunk(multirefs: bool, values: seq<Value>) {
    predicate Sized() { |values| == 256 }

    function At(d: bv8): Value
      requires Sized()
    {
      values[d as int]
    }

    function Put(d: bv8, v: Value): (k: Chunk)
      requires Sized()
      ensures k.Sized() && k.multirefs == multirefs
      ensures forall e: bv8 :: k.At(e) == if e == d then v else At(e)
    {
      this.(values := values[d as int := v])
    }
  }

  function Filled(multirefs: bool, v: Value): (k: Chunk)
    ensures k.Sized() && k.multirefs == multirefs
    ensures forall d: bv8 :: k.At(d) == v
  {
    Chunk(multirefs, seq(256, _ => v))
  }

  // ----- shape ------------------------------------------------------------------------------

  /** For every chunk and digit the chunk referred to, or -1 where the value is a group id. */
  type Shape = seq<seq<int>>

  ghost function Kid(s: Shape, c: int, d: bv8): int {
    if 0 <= c < |s| && |s[c]| == 256 then s[c][d as int] else -1
  }

  ghost predicate Sized(chunks: seq<Chunk>) {
    forall c | 0 <= c < |chunks| :: chunks[c].Sized()
  }

  ghost function Links(k: Chunk): (m: seq<int>)
    requires k.Sized()
  {
    seq(256, i requires 0 <= i < 256 => if k.values[i].Link? then k.values[i].chunk else -1)
  }

  ghost function ShapeOf(chunks: seq<Chunk>): (s: Shape)
    requires Sized(chunks)
    ensures |s| == |chunks|
    ensures forall c, d: bv8 | 0 <= c < |chunks| ::
              Kid(s, c, d) == if chunks[c].At(d).Link? then chunks[c].At(d).chunk else -1
  {
    seq(|chunks|, c requires 0 <= c < |chunks| => Links(chunks[c]))
  }

  /** Heights strictly decrease along references, so every walk ends. */
  ghost predicate Layered(s: Shape, height: seq<nat>) {
    && |height| == |s|
    && (forall c | 0 <= c < |s| :: height[c] >= 1)
    && (forall c, d | 0 <= c < |s| && Kid(s, c, d) >= 0 :: Kid(s, c, d) < |s| && height[Kid(s, c, d)] < height[c])
  }

  ghost predicate WellFormed(chunks: seq<Chunk>, height: seq<nat>) {
    |height| == |chunks| && Sized(chunks) && Layered(ShapeOf(chunks), height)
  }

  /** The chunk reached from c by following the digits of p, if every step is a reference. */
  ghost function Walk(s: Shape, c: nat, p: Digits): Option<nat> {
    if p == [] then Some(c)
    else
      var w := Walk(s, c, p[..|p| - 1]);
      if w.Some? && Kid(s, w.value, p[|p| - 1]) >= 0 then Some(Kid(s, w.value, p[|p| - 1])) else None
  }

  /** The slot in which the walk of a full address ends. */
  ghost function Stop(s: Shape, height: seq<nat>, c: nat, a: Digits): (slot: (nat, bv8))
    requires Layered(s, height) && c < |s| && height[c] <= |a|
    ensures slot.0 < |s| && Kid(s, slot.0, slot.1) < 0
    decreases |a|
  {
    if Kid(s, c, a[0]) >= 0 then Stop(s, height, Kid(s, c, a[0]), a[1..]) else (c, a[0])
  }

  /** Chunk x is reachable from chunk c. */
  ghost predicate Reaches(s: Shape, height: seq<nat>, c: nat, x: int)
    requires Layered(s, height) && c < |s|
    decreases height[c]
  {
    x == c || exists d :: Kid(s, c, d) >= 0 && Reaches(s, height, Kid(s, c, d), x)
  }

  // ----- lookup -----------------------------------------------------------------------------

  /** The group id of an address (`lookup_step`). */
  function Lookup(chunks: seq<Chunk>, ghost height: seq<nat>, c: nat, a: Digits): nat
    requires WellFormed(chunks, height) && c < |chunks| && height[c] <= |a|
    decreases |a|
  {
    match chunks[c].At(a[0])
    case Group(g) => g
    case Link(k) => 
      assert Kid(ShapeOf(chunks), c, a[0]) == k;
      Lookup(chunks, height, k, a[1..])
  }

  lemma {:induction false} LookupAtStop(chunks: seq<Chunk>, height: seq<nat>, c: nat, a: Digits)
    requires WellFormed(chunks, height) && c < |chunks| && height[c] <= |a|
    ensures var (x, d) := Stop(ShapeOf(chunks), height, c, a);
            chunks[x].At(d) == Group(Lookup(chunks, height, c, a))
    decreases |a|
  {
    var s := ShapeOf(chunks);
    if Kid(s, c, a[0]) >= 0 {
      LookupAtStop(chunks, height, Kid(s, c, a[0]), a[1..]);
    }
  }

  lemma {:induction false} StopReached(s: Shape, height: seq<nat>, c: nat, a: Digits)
    requires Layered(s, height) && c < |s| && height[c] <= |a|
    ensures Reaches(s, height, c, Stop(s, height, c, a).0)
    decreases |a|
  {
    if Kid(s, c, a[0]) >= 0 {
      StopReached(s, height, Kid(s, c, a[0]), a[1..]);
    }
  }

  /** A walk splits at any point. */
  lemma {:induction false} WalkSplit(s: Shape, c: nat, p: Digits, q: Digits)
    ensures Walk(s, c, p + q) == if Walk(s, c, p).Some? then Walk(s, Walk(s, c, p).value, q) else None
    decreases |q|
  {
    if q == [] {
      assert p + q == p;
    } else {
      WalkSplit(s, c, p, q[..|q| - 1]);
      assert (p + q)[..|p + q| - 1] == p + q[..|q| - 1];
    }
  }

  lemma {:induction false} WalkHeight(s: Shape, height: seq<nat>, c: nat, p: Digits)
    requires Layered(s, height) && c < |s| && Walk(s, c, p).Some?
    ensures Walk(s, c, p).value < |s| && height[Walk(s, c, p).value] + |p| <= height[c]
    decreases |p|
  {
    if p != [] {
      WalkHeight(s, height, c, p[..|p| - 1]);
    }
  }

  /** Following a walk and then looking up is looking up. */
  lemma {:induction false} StopAlongWalk(s: Shape, height: seq<nat>, c: nat, p: Digits, a: Digits)
    requires Layered(s, height) && c < |s| && Walk(s, c, p).Some? && height[c] <= |p| + |a|
    ensures Walk(s, c, p).value < |s| && height[Walk(s, c, p).value] <= |a|
    ensures Stop(s, height, c, p + a) == Stop(s, height, Walk(s, c, p).value, a)
    decreases |p|
  {
    WalkHeight(s, height, c, p);
    if p == [] {
      assert p + a == a;
    } else {
      var p', d := p[..|p| - 1], p[|p| - 1];
      WalkHeight(s, height, c, p');
      StopAlongWalk(s, height, c, p', [d] + a);
      assert p' + ([d] + a) == p + a;
      assert ([d] + a)[1..] == a;
    }
  }

  /** The walk of an address up to the slot where it stops. */
  lemma {:induction false} StopWalk(s: Shape, height: seq<nat>, c: nat, a: Digits) returns (n: nat)
    requires Layered(s, height) && c < |s| && height[c] <= |a|
    ensures n < |a| && n < height[c]
    ensures Walk(s, c, a[..n]) == Some(Stop(s, height, c, a).0) && Stop(s, height, c, a).1 == a[n]
    decreases |a|
  {
    if Kid(s, c, a[0]) >= 0 {
      var k := Kid(s, c, a[0]);
      var m := StopWalk(s, height, k, a[1..]);
      n := m + 1;
      assert a[..n] == [a[0]] + a[1..][..m];
      WalkSplit(s, c, [a[0]], a[1..][..m]);
      assert Walk(s, c, [a[0]][..0]) == Some(c);
    } else {
      n := 0;
    }
  }

  /** A chunk reachable from c is the end of some walk from c. */
  lemma {:induction false} ReachWalk(s: Shape, height: seq<nat>, c: nat, x: int) returns (p: Digits)
    requires Layered(s, height) && c < |s| && Reaches(s, height, c, x)
    ensures 0 <= x && Walk(s, c, p) == Some(x)
    decreases height[c]
  {
    if x == c {
      p := [];
    } else {
      var d :| Kid(s, c, d) >= 0 && Reaches(s, height, Kid(s, c, d), x);
      var q := ReachWalk(s, height, Kid(s, c, d), x);
      p := [d] + q;
      WalkSplit(s, c, [d], q);
      assert Walk(s, c, [d][..0]) == Some(c);
    }
  }
}
