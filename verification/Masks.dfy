/**
  Arithmetic on masks as byte strings: the two steps by which a gapped mask is taken apart
  (`mask | (mask - 1)` and `mask & (mask + 1)`), and the lengths of masks without a gap.
*/
module Masks {
  import opened Nets

  function Fill(b: bv8): bv8 {
    b | (b - 1)
  }

  function Clear(b: bv8): bv8 {
    b & (b + 1)
  }

  predicate Odd(b: bv8) {
    b & 1 == 1
  }

  /** `mask | (mask - 1)`: the zeros after the last one bit become ones. */
  function FillTail(mask: Bytes): (w: Bytes)
    ensures |w| == |mask|
  {
    if mask == [] then []
    else
      var n := |mask| - 1;
      if mask[n] == 0 then FillTail(mask[..n]) + [0xFF] else mask[..n] + [Fill(mask[n])]
  }

  /** `mask & (mask + 1)`: the ones after the last zero bit become zeros. */
  function ClearTail(w: Bytes): (m: Bytes)
    ensures |m| == |w|
  {
    if w == [] then []
    else
      var n := |w| - 1;
      if w[n] == 0xFF then ClearTail(w[..n]) + [0] else w[..n] + [Clear(w[n])]
  }

  // ----- masks as numbers -------------------------------------------------------------------

  /** The number that the bytes stand for. */
  function NumberOf(b: Bytes): nat {
    if b == [] then 0 else 256 * NumberOf(b[..|b| - 1]) + b[|b| - 1] as nat
  }

  function WordSize(n: nat): (r: nat)
    ensures r > 0
  {
    if n == 0 then 1 else 256 * WordSize(n - 1)
  }

  /** One less, in the width of the mask. */
  function MinusOne(b: Bytes): (r: Bytes)
    ensures |r| == |b|
  {
    if b == [] then []
    else
      var n := |b| - 1;
      if b[n] == 0 then MinusOne(b[..n]) + [0xFF] else b[..n] + [b[n] - 1]
  }

  /** One more, in the width of the mask. */
  function PlusOne(b: Bytes): (r: Bytes)
    ensures |r| == |b|
  {
    if b == [] then []
    else
      var n := |b| - 1;
      if b[n] == 0xFF then PlusOne(b[..n]) + [0] else b[..n] + [b[n] + 1]
  }

  lemma NumberMore(b: Bytes, x: bv8)
    ensures NumberOf(b + [x]) == 256 * NumberOf(b) + x as nat
  {
    assert (b + [x])[..|b|] == b;
  }

  lemma MinusDigit(b: Bytes)
    requires b != []
    ensures var front, x := b[..|b| - 1], b[|b| - 1] as nat;
            && x < 256 && NumberOf(b) == 256 * NumberOf(front) + x
            && NumberOf(MinusOne(b)) == if x == 0 then 256 * NumberOf(MinusOne(front)) + 255
                                        else 256 * NumberOf(front) + x - 1
  {
    var front, x := b[..|b| - 1], b[|b| - 1];
    ByteStep(x);
    NumberMore(MinusOne(front), 0xFF);
    NumberMore(front, x - 1);
  }

  lemma PlusDigit(b: Bytes)
    requires b != []
    ensures var front, x := b[..|b| - 1], b[|b| - 1] as nat;
            && x < 256 && NumberOf(b) == 256 * NumberOf(front) + x
            && NumberOf(PlusOne(b)) == if x == 255 then 256 * NumberOf(PlusOne(front))
                                       else 256 * NumberOf(front) + x + 1
  {
    var front, x := b[..|b| - 1], b[|b| - 1];
    ByteStep(x);
    NumberMore(PlusOne(front), 0);
    NumberMore(front, x + 1);
  }

  lemma {:induction false} MinusNumber(b: Bytes)
    ensures NumberOf(b) < WordSize(|b|)
    ensures NumberOf(MinusOne(b)) == if NumberOf(b) == 0 then WordSize(|b|) - 1 else NumberOf(b) - 1
  {
    if b != [] {
      MinusNumber(b[..|b| - 1]);
      MinusDigit(b);
      hide NumberOf, MinusOne;
    }
  }

  lemma {:induction false} PlusNumber(b: Bytes)
    ensures NumberOf(b) < WordSize(|b|)
    ensures NumberOf(PlusOne(b)) == if NumberOf(b) == WordSize(|b|) - 1 then 0 else NumberOf(b) + 1
  {
    if b != [] {
      PlusNumber(b[..|b| - 1]);
      PlusDigit(b);
      hide NumberOf, PlusOne;
    }
  }

  function OrBytes(a: Bytes, m: Bytes): (r: Bytes)
    requires |a| == |m|
    ensures |r| == |a| && forall t | 0 <= t < |a| :: r[t] == a[t] | m[t]
  {
    seq(|a|, t requires 0 <= t < |a| => a[t] | m[t])
  }

  lemma {:induction false} FillTailIs(mask: Bytes)
    ensures FillTail(mask) == OrBytes(mask, MinusOne(mask))
  {
    if mask != [] {
      var n := |mask| - 1;
      FillTailIs(mask[..n]);
      forall t | 0 <= t < |mask|
        ensures mask[t] | mask[t] == mask[t] && 0 | (0xFF as bv8) == 0xFF
      {
        OrSelf(mask[t]);
      }
    }
  }

  lemma OrSelf(b: bv8)
    ensures b | b == b && b & b == b && 0 | (0xFF as bv8) == 0xFF && (0xFF as bv8) & 0 == 0
  {
  }

  lemma {:induction false} ClearTailIs(w: Bytes)
    ensures ClearTail(w) == And(w, PlusOne(w))
  {
    if w != [] {
      var n := |w| - 1;
      ClearTailIs(w[..n]);
      forall t | 0 <= t < |w|
        ensures w[t] & w[t] == w[t] && (0xFF as bv8) & 0 == 0
      {
        OrSelf(w[t]);
      }
    }
  }

  /** The number of bytes before the trailing bytes that are all ones. */
  function TailStart(w: Bytes): (l: nat)
    ensures l <= |w| && (l > 0 ==> w[l - 1] != 0xFF)
    ensures forall t | l <= t < |w| :: w[t] == 0xFF
  {
    if w == [] then 0
    else if w[|w| - 1] == 0xFF then TailStart(w[..|w| - 1]) else |w|
  }

  function And(a: Bytes, m: Bytes): (r: Bytes)
    requires |a| == |m|
    ensures |r| == |a| && forall t | 0 <= t < |a| :: r[t] == a[t] & m[t]
  {
    seq(|a|, t requires 0 <= t < |a| => a[t] & m[t])
  }

  /** The trailing ones start at a byte boundary. */
  predicate ByteAligned(w: Bytes) {
    TailStart(w) > 0 ==> !Odd(w[TailStart(w) - 1])
  }

  ghost predicate ZeroFrom(mask: Bytes, k: nat) {
    forall i | k <= i < |mask| :: mask[i] == 0
  }

  // ----- masks without a gap ----------------------------------------------------------------

  ghost predicate LeadingOnes(mask: Bytes) {
    && (forall t | 0 <= t < |mask| :: Leading(mask[t]))
    && (forall t | 0 <= t < |mask| && mask[t] != 0xFF :: ZeroFrom(mask, t + 1))
  }

  lemma {:induction false} ContiguousLeading(mask: Bytes)
    ensures Contiguous(mask) <==> |mask| > 0 && LeadingOnes(mask)
  {
    hide Leading;
    if |mask| > 0 {
      assert forall t | 0 <= t < |mask[1..]| :: mask[1..][t] == mask[t + 1];
      assert Leading(0) && Leading(0xFF) by { LeadingEnds(); }
      ContiguousLeading(mask[1..]);
      if AllZero(mask[1..]) {
        assert forall t | 0 < t < |mask| :: mask[t] == 0;
        assert mask[1..] == [] || Contiguous(mask[1..]) by { if mask[1..] != [] { ZeroLeading(mask[1..]); } }
      }
      if |mask| > 0 && LeadingOnes(mask) && !AllZero(mask[1..]) {
        assert mask[0] == 0xFF;
        assert LeadingOnes(mask[1..]);
      }
      if Contiguous(mask) && !AllZero(mask[1..]) {
        assert LeadingOnes(mask[1..]);
        forall t | 0 <= t < |mask|
          ensures Leading(mask[t]) && (mask[t] != 0xFF ==> ZeroFrom(mask, t + 1))
        {
          if t > 0 {
            assert mask[t] == mask[1..][t - 1];
            assert mask[t] != 0xFF ==> ZeroFrom(mask[1..], t);
          }
        }
      }
    }
  }

  lemma LeadingEnds()
    ensures Leading(0) && Leading(0xFF)
  {
  }

  lemma ZeroLeading(mask: Bytes)
    requires AllZero(mask) && |mask| > 0
    ensures Contiguous(mask)
  {
    LeadingEnds();
    assert forall i | 0 <= i < |mask[1..]| :: mask[1..][i] == mask[i + 1];
  }

  // ----- taking a gapped mask apart ---------------------------------------------------------

  lemma {:induction false} FillTailAt(mask: Bytes, z: nat)
    requires z < |mask| && mask[z] != 0 && ZeroFrom(mask, z + 1)
    ensures forall t | 0 <= t < |mask| ::
              FillTail(mask)[t] == if t < z then mask[t] else if t == z then Fill(mask[z]) else 0xFF
  {
    hide Fill;
    var n := |mask| - 1;
    if z < n {
      FillTailAt(mask[..n], z);
    }
  }

  lemma {:induction false} ClearTailAt(w: Bytes)
    ensures var l := TailStart(w);
            forall t | 0 <= t < |w| :: ClearTail(w)[t] == if t >= l then 0 else if t == l - 1 then Clear(w[t]) else w[t]
  {
    hide Clear;
    if w != [] && w[|w| - 1] == 0xFF {
      ClearTailAt(w[..|w| - 1]);
    }
  }

  lemma {:induction false} LastByte(mask: Bytes)
    requires |mask| > 0 && !AllZero(mask)
    ensures mask[Level(mask)] != 0
  {
    if !AllZero(mask[1..]) {
      LastByte(mask[1..]);
    }
  }

  lemma LowBit(m: bv8)
    ensures m != 0 ==> Odd(Fill(m))
    ensures !Odd(m) ==> Clear(m) == m
    ensures Fill(m) == 0xFF ==> Leading(m)
  {
  }

  /** The last part of a gapped mask starts at byte l, at or before the last byte that is not zero. */
  lemma GapStart(mask: Bytes) returns (z: nat)
    requires |mask| > 0 && !Contiguous(mask) && ByteAligned(FillTail(mask))
    ensures 0 < TailStart(FillTail(mask)) <= z < |mask| && mask[z] != 0 && ZeroFrom(mask, z + 1)
    ensures Leading(mask[z]) && forall t | TailStart(FillTail(mask)) <= t < z :: mask[t] == 0xFF
    ensures forall t | 0 <= t < TailStart(FillTail(mask)) :: FillTail(mask)[t] == mask[t]
  {
    hide Fill, Clear, Odd, Leading, TailStart, FillTail;
    var w := FillTail(mask);
    var l := TailStart(w);
    if AllZero(mask) {
      ZeroLeading(mask);
    }
    z := Level(mask);
    LastByte(mask);
    FillTailAt(mask, z);
    LowBit(mask[z]);
    hide Contiguous, Level;
    TailBefore(mask, w, l, z);
    assert mask[0..] == mask;
    if l == 0 {
      TailLeading(mask, 0, z);
      ContiguousLeading(mask);
    }
  }

  /**
    A gapped mask whose last part starts at byte l: before l it is the shadow mask, from l on it
    has no gap.
  */
  lemma GapParts(mask: Bytes)
    requires |mask| > 0 && !Contiguous(mask)
    requires ByteAligned(FillTail(mask)) && Contiguous(ClearTail(FillTail(mask)))
    ensures var l, shadow := TailStart(FillTail(mask)), ClearTail(FillTail(mask));
            && 0 < l < |mask| && shadow[l - 1] != 0xFF && LeadingOnes(shadow)
            && (forall t | 0 <= t < l :: shadow[t] == mask[t]) && ZeroFrom(shadow, l)
            && Contiguous(mask[l..]) && !AllZero(mask[l..])
  {
    hide *;
    var z := GapStart(mask);
    ShadowParts(mask, FillTail(mask));
    var l := TailStart(FillTail(mask));
    TailLeading(mask, l, z);
    ContiguousLeading(mask[l..]);
    NotZero(mask[l..], z - l);
  }

  lemma NotZero(mask: Bytes, i: nat)
    requires i < |mask| && mask[i] != 0
    ensures !AllZero(mask)
  {
  }

  lemma ShadowParts(mask: Bytes, w: Bytes)
    requires |w| == |mask| && Contiguous(ClearTail(w)) && 0 < TailStart(w) && ByteAligned(w)
    requires forall t | 0 <= t < TailStart(w) :: w[t] == mask[t]
    ensures var l, shadow := TailStart(w), ClearTail(w);
            && shadow[l - 1] != 0xFF && LeadingOnes(shadow)
            && (forall t | 0 <= t < l :: shadow[t] == mask[t]) && ZeroFrom(shadow, l)
  {
    hide Clear, Odd, Leading, Contiguous, ClearTail, TailStart;
    ClearTailAt(w);
    LowBit(w[TailStart(w) - 1]);
    ContiguousLeading(ClearTail(w));
  }

  lemma TailBefore(mask: Bytes, w: Bytes, l: nat, z: nat)
    requires |w| == |mask| && z < |mask| && l <= |w| && Odd(w[z])
    requires l > 0 ==> w[l - 1] != 0xFF && !Odd(w[l - 1])
    requires forall t | z < t < |w| :: w[t] == 0xFF
    ensures l <= z
  {
  }

  lemma TailLeading(mask: Bytes, l: nat, z: nat)
    requires l <= z < |mask| && Leading(mask[z]) && ZeroFrom(mask, z + 1) && forall t | l <= t < z :: mask[t] == 0xFF
    ensures LeadingOnes(mask[l..])
  {
    hide Leading;
    LeadingEnds();
    forall t | 0 <= t < |mask[l..]|
      ensures Leading(mask[l..][t]) && (mask[l..][t] != 0xFF ==> ZeroFrom(mask[l..], t + 1))
    {
      assert mask[l..][t] == mask[l + t];
    }
  }

  // ----- the lengths of masks ---------------------------------------------------------------

  /** The number of one bits of a byte. */
  function Bits(b: bv8): nat {
    (if b & 0x80 == 0 then 0 else 1) + (if b & 0x40 == 0 then 0 else 1) + (if b & 0x20 == 0 then 0 else 1)
    + (if b & 0x10 == 0 then 0 else 1) + (if b & 0x08 == 0 then 0 else 1) + (if b & 0x04 == 0 then 0 else 1)
    + (if b & 0x02 == 0 then 0 else 1) + (if b & 0x01 == 0 then 0 else 1)
  }

  /** `popcount`: the number of one bits. */
  function Length(mask: Bytes): nat {
    if mask == [] then 0 else Bits(mask[0]) + Length(mask[1..])
  }

  predicate Sub(a: bv8, b: bv8) {
    a & b == a
  }

  /** Every one bit of a is one of b. */
  ghost predicate Submask(a: Bytes, b: Bytes) {
    |a| == |b| && forall t | 0 <= t < |a| :: Sub(a[t], b[t])
  }

  lemma BitsOrder(a: bv8, b: bv8)
    requires Leading(a) && Leading(b)
    ensures Bits(a) <= 8
    ensures Bits(a) == 0 <==> a == 0
    ensures Bits(a) == 8 <==> a == 0xFF
    ensures Bits(a) <= Bits(b) <==> Sub(a, b)
    ensures Bits(a) == Bits(b) ==> a == b
  {
    var bytes: seq<bv8> := [0, 0x80, 0xC0, 0xE0, 0xF0, 0xF8, 0xFC, 0xFE, 0xFF];
    assert a in bytes;
    assert b in bytes;
  }

  lemma LeadingTail(mask: Bytes)
    requires LeadingOnes(mask) && |mask| > 0
    ensures LeadingOnes(mask[1..]) && Leading(mask[0])
    ensures mask[0] != 0xFF ==> ZeroFrom(mask[1..], 0)
  {
    hide Leading;
    forall t | 0 <= t < |mask[1..]|
      ensures Leading(mask[1..][t]) && (mask[1..][t] != 0xFF ==> ZeroFrom(mask[1..], t + 1))
    {
      assert mask[1..][t] == mask[t + 1];
    }
  }

  lemma {:induction false} LengthZero(mask: Bytes)
    requires ZeroFrom(mask, 0)
    ensures Length(mask) == 0
  {
    if mask != [] {
      LengthZero(mask[1..]);
    }
  }

  /** Of two masks without a gap the shorter one is part of the longer one. */
  lemma {:induction false} LengthOrder(a: Bytes, b: Bytes)
    requires LeadingOnes(a) && LeadingOnes(b) && |a| == |b| && Length(a) <= Length(b)
    ensures Submask(a, b)
  {
    hide Leading, Bits;
    if a != [] {
      LeadingTail(a);
      LeadingTail(b);
      BitsOrder(a[0], b[0]);
      BitsOrder(b[0], a[0]);
      if a[0] != 0xFF {
        LengthZero(a[1..]);
        SubZero(a[1..], b[1..]);
        if b[0] != 0xFF {
          LengthZero(b[1..]);
        }
      } else {
        if b[0] != 0xFF {
          LengthZero(b[1..]);
        }
        LengthOrder(a[1..], b[1..]);
      }
      forall t | 0 <= t < |a|
        ensures Sub(a[t], b[t])
      {
        if t > 0 {
          assert Sub(a[1..][t - 1], b[1..][t - 1]);
        }
      }
    }
  }

  lemma SubZero(a: Bytes, b: Bytes)
    requires ZeroFrom(a, 0) && |a| == |b|
    ensures Submask(a, b)
  {
  }

  /** A mask without a gap is longer than l bytes exactly when byte l is not zero. */
  lemma {:induction false} LengthBytes(mask: Bytes, l: nat)
    requires LeadingOnes(mask)
    ensures Length(mask) <= 8 * l ==> ZeroFrom(mask, l)
    ensures Length(mask) > 8 * l ==> l < |mask| && mask[l] != 0
  {
    hide Leading, Bits;
    if mask != [] {
      LeadingTail(mask);
      BitsOrder(mask[0], mask[0]);
      if mask[0] != 0xFF {
        LengthZero(mask[1..]);
      }
      if l > 0 {
        LengthBytes(mask[1..], l - 1);
        assert forall t | 0 < t < |mask| :: mask[t] == mask[1..][t - 1];
      } else {
        if mask[0] == 0 {
          assert forall t | 0 < t < |mask| :: mask[t] == mask[1..][t - 1];
        }
      }
    }
  }

  // ----- the order of prefixes --------------------------------------------------------------

  /** The numeric order of byte strings of one length. */
  ghost predicate Less(a: Bytes, b: Bytes) {
    |a| == |b| && exists k :: 0 <= k < |a| && a[..k] == b[..k] && a[k] < b[k]
  }

  /** The order in which the prefixes without a gap are kept: by address, then by mask. */
  ghost predicate Before(m: Net, n: Net) {
    Less(m.addr, n.addr) || (m.addr == n.addr && Less(m.mask, n.mask))
  }

  /** The address has no bits beyond the mask. */
  ghost predicate Normal(n: Net) {
    |n.addr| == |n.mask| && forall t | 0 <= t < |n.addr| :: Sub(n.addr[t], n.mask[t])
  }

  lemma NotLess(a: Bytes, b: Bytes)
    requires Submask(b, a)
    ensures !Less(a, b)
  {
  }

  lemma SubAgree(x: bv8, a: bv8, m: bv8, b: bv8, k: bv8)
    requires Sub(m, k)
    ensures Agree(x, k, b) && Agree(b, m, a) ==> Agree(x, m, a)
    ensures Agree(x, k, b) && Agree(x, m, a) ==> Agree(b, m, a)
    ensures Sub(a, m) && Agree(b, m, a) ==> Sub(a, b)
  {
  }

  // ----- disjoint and nested networks -------------------------------------------------------

  ghost predicate Disjoint(n: Net, m: Net) {
    forall x: Bytes | |x| >= |n.mask| && |x| >= |m.mask| :: !(Covers(n, x) && Covers(m, x))
  }

  ghost predicate Inside(n: Net, m: Net) {
    forall x: Bytes | |x| >= |n.mask| && |x| >= |m.mask| && Covers(n, x) :: Covers(m, x)
  }

  /** The test of the source: the addresses agree under the smaller mask. */
  predicate Meets(m: Net, addr: Bytes)
    requires |m.addr| == |m.mask| == |addr|
  {
    forall t | 0 <= t < |addr| :: Agree(addr[t], m.mask[t], m.addr[t])
  }

  lemma Nested(n: Net, m: Net)
    requires |n.addr| == |n.mask| == |m.addr| == |m.mask| && Submask(m.mask, n.mask)
    ensures if Meets(m, n.addr) then Inside(n, m) else Disjoint(n, m)
  {
    hide Agree, Sub;
    forall x: Bytes, t | |x| >= |n.mask| && Covers(n, x) && 0 <= t < |n.mask|
      ensures Agree(n.addr[t], m.mask[t], m.addr[t]) <==> Agree(x[t], m.mask[t], m.addr[t])
    {
      SubAgree(x[t], m.addr[t], m.mask[t], n.addr[t], n.mask[t]);
    }
  }

  /** The test of the source for two regions: the addresses agree under both masks. */
  predicate Overlaps(n: Net, m: Net)
    requires |n.addr| == |n.mask| == |m.addr| == |m.mask|
  {
    forall t | 0 <= t < |n.addr| :: Agree(n.addr[t], n.mask[t] & m.mask[t], m.addr[t])
  }

  lemma ApartRegions(n: Net, m: Net)
    requires |n.addr| == |n.mask| == |m.addr| == |m.mask| && !Overlaps(n, m)
    ensures Disjoint(n, m)
  {
    hide Agree;
    var t :| 0 <= t < |n.addr| && !Agree(n.addr[t], n.mask[t] & m.mask[t], m.addr[t]);
    forall x: Bytes | |x| >= |n.mask| && Covers(n, x) && Covers(m, x)
      ensures false
    {
      BothAgree(x[t], n.addr[t], n.mask[t], m.addr[t], m.mask[t]);
    }
  }

  lemma BothAgree(x: bv8, a: bv8, m: bv8, b: bv8, k: bv8)
    requires Agree(x, m, a) && Agree(x, k, b)
    ensures Agree(a, m & k, b)
  {
  }

  /** A prefix is never inside a prefix that comes later in the order. */
  lemma OrderedNested(m: Net, n: Net)
    requires Normal(m) && Normal(n) && LeadingOnes(m.mask) && LeadingOnes(n.mask) && |m.mask| == |n.mask|
             && Before(m, n)
    ensures Disjoint(n, m) || Inside(n, m)
  {
    hide Leading, Agree, Sub, LeadingOnes, Disjoint, Inside;
    if Length(m.mask) <= Length(n.mask) {
      LengthOrder(m.mask, n.mask);
      Nested(n, m);
    } else {
      LengthOrder(n.mask, m.mask);
      Nested(m, n);
      if Meets(n, m.addr) {
        forall t | 0 <= t < |n.addr|
          ensures Sub(n.addr[t], m.addr[t])
        {
          SubAgree(n.addr[t], n.addr[t], n.mask[t], m.addr[t], m.mask[t]);
        }
        NotLess(m.addr, n.addr);
        NotLess(m.mask, n.mask);
        assert false;
      }
      DisjointSym(m, n);
    }
  }

  lemma DisjointSym(m: Net, n: Net)
    requires Disjoint(m, n)
    ensures Disjoint(n, m)
  {
  }
}
