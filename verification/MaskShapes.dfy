/** The shapes of masks, byte by byte: which masks have no gap, and which gapped ones a tree accepts. */
module MaskShapes {
  import opened Nets
  import opened Masks
  import opened TreePrepare

  /** Ones up to byte k, a byte of leading ones, and zeros. */
  ghost predicate EndsAt(mask: Bytes, k: nat) {
    && k < |mask| && (forall t | 0 <= t < k :: mask[t] == 0xFF)
    && mask[k] in {0, 0x80, 0xC0, 0xE0, 0xF0, 0xF8, 0xFC, 0xFE, 0xFF}
    && forall t | k < t < |mask| :: mask[t] == 0
  }

  ghost predicate Plain(mask: Bytes) {
    exists k: nat :: EndsAt(mask, k)
  }

  lemma LeadingBytes(b: bv8)
    ensures Leading(b) <==> b in {0, 0x80, 0xC0, 0xE0, 0xF0, 0xF8, 0xFC, 0xFE, 0xFF}
  {
  }

  lemma EndsLeading(mask: Bytes, k: nat)
    requires EndsAt(mask, k)
    ensures LeadingOnes(mask)
  {
    LeadingEnds();
    LeadingBytes(mask[k]);
    hide Leading;
  }

  lemma {:induction false} LeadingEndsAt(mask: Bytes) returns (k: nat)
    requires LeadingOnes(mask) && |mask| > 0
    ensures EndsAt(mask, k)
  {
    LeadingBytes(mask[0]);
    if mask[0] != 0xFF || |mask| == 1 {
      k := 0;
    } else {
      LeadingTail(mask);
      hide Leading, LeadingOnes;
      var rest := LeadingEndsAt(mask[1..]);
      k := rest + 1;
      forall t | 0 <= t < |mask[1..]|
        ensures mask[1..][t] == mask[t + 1]
      {
      }
      assert forall t | 0 < t < k :: mask[t] == mask[1..][t - 1];
      assert forall t | k < t < |mask| :: mask[t] == mask[1..][t - 1];
    }
  }

  /** A mask without a gap has this shape. */
  lemma ContiguousExact(mask: Bytes)
    ensures Contiguous(mask) <==> Plain(mask)
  {
    ContiguousLeading(mask);
    hide Contiguous, LeadingOnes;
    if Contiguous(mask) {
      var k := LeadingEndsAt(mask);
    }
    if Plain(mask) {
      var k: nat :| EndsAt(mask, k);
      EndsLeading(mask, k);
    }
  }

  /** Before byte l the mask has no gap and does not fill the last byte, and from there on it has no gap either. */
  ghost predicate SplitsAt(mask: Bytes, l: nat) {
    0 < l < |mask| && Plain(mask[..l]) && mask[l - 1] != 0xFF && Plain(mask[l..]) && mask[l] != 0
  }

  /** A gapped network is accepted exactly if its mask has one gap, which ends at a byte boundary. */
  lemma SupportedExact(n: Net)
    requires |n.mask| > 0 && !Plain(n.mask)
    ensures Supported(n) <==> exists l: nat :: SplitsAt(n.mask, l)
  {
    ContiguousExact(n.mask);
    hide *;
    if Supported(n) {
      var l := SupportedSplits(n);
    }
    if l: nat :| SplitsAt(n.mask, l) {
      SplitsSupported(n, l);
    }
  }

  lemma PlainLeading(mask: Bytes)
    ensures Plain(mask) <==> |mask| > 0 && LeadingOnes(mask)
  {
    ContiguousExact(mask);
    ContiguousLeading(mask);
    hide Contiguous, LeadingOnes, Plain;
  }

  lemma SupportedSplits(n: Net) returns (l: nat)
    requires |n.mask| > 0 && !Contiguous(n.mask) && Supported(n)
    ensures SplitsAt(n.mask, l)
  {
    hide Plain, FillTail, ClearTail, TailStart, ByteAligned, Leading, Contiguous, LeadingOnes;
    var mask := n.mask;
    GapParts(mask);
    l := TailStart(FillTail(mask));
    ContiguousLeading(mask[l..]);
    FirstNotZero(mask[l..]);
    LeadingFront(ClearTail(FillTail(mask)), mask, l);
    PlainLeading(mask[..l]);
    PlainLeading(mask[l..]);
  }

  lemma FirstNotZero(tail: Bytes)
    requires |tail| > 0 && LeadingOnes(tail) && !AllZero(tail)
    ensures tail[0] != 0
  {
    hide Leading;
  }

  lemma LeadingFront(shadow: Bytes, mask: Bytes, l: nat)
    requires LeadingOnes(shadow) && |shadow| == |mask| && l <= |mask| && forall t | 0 <= t < l :: shadow[t] == mask[t]
    ensures LeadingOnes(mask[..l])
  {
    hide Leading;
    forall t | 0 <= t < l && mask[..l][t] != 0xFF
      ensures ZeroFrom(mask[..l], t + 1)
    {
      assert ZeroFrom(shadow, t + 1);
      assert forall u | t < u < l :: mask[..l][u] == shadow[u];
    }
  }

  /** The last byte of a mask without a gap that is not zero. */
  lemma LastOnes(tail: Bytes) returns (z: nat)
    requires LeadingOnes(tail) && |tail| > 0 && tail[0] != 0
    ensures z < |tail| && tail[z] != 0 && Leading(tail[z]) && ZeroFrom(tail, z + 1)
    ensures forall t | 0 <= t < z :: tail[t] == 0xFF
  {
    var k := LeadingEndsAt(tail);
    hide Leading;
    z := if tail[k] != 0 then k else k - 1;
  }

  lemma SplitsSupported(n: Net, l: nat)
    requires SplitsAt(n.mask, l)
    ensures Supported(n)
  {
    var mask, w := n.mask, FillTail(n.mask);
    SplitParts(mask, l);
    hide *;
    Filled(mask, l);
    Even(mask[..l]);
    ShadowIs(mask, l, w);
    ShadowLeading(mask, l, ClearTail(w));
    ContiguousLeading(ClearTail(w));
    AlignedAt(w, l);
    SupportedFrom(n);
  }

  lemma SplitParts(mask: Bytes, l: nat)
    requires SplitsAt(mask, l)
    ensures 0 < l < |mask| && LeadingOnes(mask[..l]) && LeadingOnes(mask[l..]) && mask[l - 1] != 0xFF && mask[l] != 0
  {
    PlainLeading(mask[..l]);
    PlainLeading(mask[l..]);
    hide Plain, LeadingOnes;
  }

  lemma AlignedAt(w: Bytes, l: nat)
    requires 0 < l <= |w| && TailStart(w) == l && !Odd(w[l - 1])
    ensures ByteAligned(w)
  {
    hide TailStart, Odd;
  }

  lemma SupportedFrom(n: Net)
    requires Contiguous(ClearTail(FillTail(n.mask))) && ByteAligned(FillTail(n.mask))
    ensures Supported(n)
  {
    hide Contiguous, ByteAligned, ClearTail, FillTail;
  }

  lemma ShadowIs(mask: Bytes, l: nat, w: Bytes)
    requires 0 < l < |mask| == |w| && TailStart(w) == l && !Odd(mask[l - 1])
    requires forall t | 0 <= t < |mask| :: w[t] == if t < l then mask[t] else 0xFF
    ensures forall t | 0 <= t < |mask| :: ClearTail(w)[t] == if t < l then mask[t] else 0
  {
    ClearTailAt(w);
    LowBit(w[l - 1]);
    hide ClearTail, TailStart, Clear, Odd;
  }

  /** Filling the mask behind its last one bit leaves the bytes before l and makes all others ones. */
  lemma Filled(mask: Bytes, l: nat)
    requires 0 < l < |mask| && LeadingOnes(mask[l..]) && mask[l] != 0 && mask[l - 1] != 0xFF
    ensures forall t | 0 <= t < |mask| :: FillTail(mask)[t] == if t < l then mask[t] else 0xFF
    ensures TailStart(FillTail(mask)) == l
  {
    hide Leading, FillTail, TailStart, LeadingOnes;
    var tail := mask[l..];
    var z := LastOnes(tail);
    forall t | l + z < t < |mask|
      ensures mask[t] == 0
    {
      assert mask[t] == tail[t - l];
    }
    FillTailAt(mask, l + z);
    FillLeading(tail[z]);
    hide Fill;
    forall t | l <= t < l + z
      ensures mask[t] == 0xFF
    {
      assert mask[t] == tail[t - l];
    }
  }

  lemma FillLeading(b: bv8)
    requires Leading(b) && b != 0
    ensures Fill(b) == 0xFF
  {
  }

  /** The last byte before the gap is even. */
  lemma Even(front: Bytes)
    requires |front| > 0 && LeadingOnes(front) && front[|front| - 1] != 0xFF
    ensures !Odd(front[|front| - 1])
  {
    EvenByte(front[|front| - 1]);
    hide Leading, Odd;
  }

  lemma EvenByte(b: bv8)
    requires Leading(b) && b != 0xFF
    ensures !Odd(b)
  {
  }

  lemma ShadowLeading(mask: Bytes, l: nat, shadow: Bytes)
    requires 0 < l < |mask| == |shadow| && LeadingOnes(mask[..l]) && mask[l - 1] != 0xFF
    requires forall t | 0 <= t < |mask| :: shadow[t] == if t < l then mask[t] else 0
    ensures LeadingOnes(shadow)
  {
    LeadingEnds();
    hide Leading;
    assert forall t | 0 <= t < l :: mask[..l][t] == shadow[t];
    forall t | 0 <= t < |shadow| && shadow[t] != 0xFF
      ensures ZeroFrom(shadow, t + 1)
    {
      if t < l {
        assert ZeroFrom(mask[..l], t + 1);
      }
    }
  }
}
