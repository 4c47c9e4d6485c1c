/** Networks as byte strings: an address belongs to a network when it agrees with it under the mask. */
module Nets {
  type Bytes = seq<bv8>

  datatype Net = Net(addr: Bytes, mask: Bytes)

  predicate AllZero(m: Bytes) {
    forall i | 0 <= i < |m| :: m[i] == 0
  }

  /** The one bits of the byte, if any, are its leading bits. */
  predicate Leading(m: bv8) {
    (m | (m - 1)) + 1 == 0
  }

  /** The one bits of the mask are its leading bits (the negation of `is_mask_gapped`). */
  predicate Contiguous(mask: Bytes) {
    |mask| > 0 && if AllZero(mask[1..]) then Leading(mask[0]) else mask[0] == 0xFF && Contiguous(mask[1..])
  }

  /** The index of the last byte that is not zero, 0 for a zero mask. */
  function Level(mask: Bytes): (n: nat)
    requires |mask| > 0
    ensures n < |mask|
    ensures forall i | n < i < |mask| :: mask[i] == 0
  {
    if AllZero(mask[1..]) then
      assert forall i | 0 < i < |mask| :: mask[i] == mask[1..][i - 1];
      0
    else
      assert forall i | 0 < i < |mask| :: mask[i] == mask[1..][i - 1];
      1 + Level(mask[1..])
  }

  /** x and a agree on the bits of the mask. */
  predicate Agree(x: bv8, mask: bv8, a: bv8) {
    x & mask == a & mask
  }

  /** The address (or the leading part of one) agrees with the network. */
  ghost predicate Covers(n: Net, x: Bytes) {
    forall i | 0 <= i < |x| && i < |n.mask| && i < |n.addr| :: Agree(x[i], n.mask[i], n.addr[i])
  }

  lemma AgreeEnds(x: bv8, a: bv8)
    ensures Agree(x, 0xFF, a) <==> x == a
    ensures Agree(x, 0, a)
  {
  }

  /** The least value that agrees with a. */
  function Low(a: bv8, mask: bv8): bv8 {
    a & mask
  }

  /** The greatest value that agrees with a. */
  function High(a: bv8, mask: bv8): bv8 {
    (a & mask) | !mask
  }

  predicate Between(low: bv8, x: bv8, high: bv8) {
    low <= x <= high
  }

  /** Under a mask with leading ones, the values that agree with a are an interval. */
  lemma AgreeInterval(x: bv8, mask: bv8, a: bv8)
    requires Leading(mask)
    ensures Agree(x, mask, a) <==> Between(Low(a, mask), x, High(a, mask))
  {
  }

  // ----- loops over the digits from low to high ---------------------------------------------

  /** The digit e has been passed by a loop from low to high that stands at d while `more`. */
  ghost predicate Passed(low: bv8, high: bv8, d: bv8, more: bool, e: bv8) {
    Between(low, e, high) && (more ==> e < d)
  }

  lemma PassedStart(a: bv8, mask: bv8)
    requires Leading(mask)
    ensures Between(Low(a, mask), Low(a, mask), High(a, mask))
    ensures forall e :: !Passed(Low(a, mask), High(a, mask), Low(a, mask), true, e)
  {
    assert Between(Low(a, mask), Low(a, mask), High(a, mask));
    hide Low, High, Leading;
  }

  /** Digit d has been passed. */
  ghost predicate PassedBoth(low: bv8, high: bv8, d: bv8, d': bv8, more: bool) {
    forall e :: Passed(low, high, d', more, e) <==> Passed(low, high, d, true, e) || e == d
  }

  lemma PassedStep(low: bv8, high: bv8, d: bv8, d': bv8, more: bool)
    requires Between(low, d, high) && more == (d != high) && d' == if more then d + 1 else d
    ensures more ==> Between(low, d', high) && !d' < !d
    ensures PassedBoth(low, high, d, d', more)
  {
    forall e
      ensures Passed(low, high, d', more, e) <==> Passed(low, high, d, true, e) || e == d
    {
      PassedNext(low, high, d, e);
    }
  }

  lemma PassedNext(low: bv8, high: bv8, d: bv8, e: bv8)
    requires Between(low, d, high)
    ensures d == high ==> (Passed(low, high, d, false, e) <==> Passed(low, high, d, true, e) || e == d)
    ensures d != high ==> Between(low, d + 1, high) && !(d + 1) < !d
    ensures d != high ==> (Passed(low, high, d + 1, true, e) <==> Passed(low, high, d, true, e) || e == d)
  {
  }

  lemma PassedAll(low: bv8, high: bv8, d: bv8, e: bv8)
    ensures Passed(low, high, d, false, e) <==> Between(low, e, high)
  {
  }

  lemma EveryDigit(d: bv8, e: bv8)
    ensures Passed(0, 0xFF, d, false, e) && Between(0, 0, 0xFF) && !Passed(0, 0xFF, 0, true, e)
  {
  }

  lemma NotYet(low: bv8, high: bv8, d: bv8)
    ensures !Passed(low, high, d, true, d)
  {
  }

  lemma FullRange(a: bv8, d: bv8)
    ensures Between(Low(a, 0), d, High(a, 0))
  {
  }

  /** A finished loop has passed the digits that agree with a. */
  lemma PassedEnd(a: bv8, mask: bv8, d: bv8)
    requires Leading(mask)
    ensures forall e :: Passed(Low(a, mask), High(a, mask), d, false, e) <==> Agree(e, mask, a)
  {
    forall e
      ensures Passed(Low(a, mask), High(a, mask), d, false, e) <==> Agree(e, mask, a)
    {
      AgreeInterval(e, mask, a);
      hide Agree, Between, Low, High, Leading;
    }
  }

  lemma ByteStep(b: bv8)
    ensures b as nat < 256 && (b == 0xFF <==> b as nat == 255) && (b == 0 <==> b as nat == 0)
    ensures b != 0 ==> (b - 1) as nat == b as nat - 1
    ensures b != 0xFF ==> (b + 1) as nat == b as nat + 1
  {
  }

  /** Every number below 256 is a byte. */
  lemma {:induction false} ByteOf(i: nat) returns (d: bv8)
    requires i < 256
    ensures d as int == i
  {
    if i == 0 {
      d := 0;
    } else {
      var e := ByteOf(i - 1);
      ByteStep(e);
      d := e + 1;
    }
  }
}
