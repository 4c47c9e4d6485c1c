/**
  Gapped networks whose regions overlap (`intersection_prefixes`): such a network gets no warp of its
  own.  It is taken for the intersection of its region and of a gapped network of an earlier warp.
*/
module TreeCompose {
  import opened Base
  import opened Nets
  import opened Masks
  import opened NetOrder
  import opened Partition
  import opened ChunkForest
  import opened TreeInsert
  import opened TreeGaps
  import opened TreePrepare

  /** For the key of a composed network the mask of the earlier warp. */
  type Intersections = map<Net, Bytes>

  /** The key of the warps: the address of the region and the mask with its last part filled. */
  function WarpKey(n: Net): Net
    requires |n.addr| == |n.mask|
  {
    Net(RegionOf(n).addr, FillTail(n.mask))
  }

  /** The mask of a warp. */
  function WarpMask(w: Warp, h: nat): (m: Bytes)
    requires w.level <= |w.region.mask| == h
    ensures |m| == h
  {
    w.region.mask[..w.level] + Ones(h - w.level)
  }

  /** The network as seen by the earlier warp. */
  function WideOf(n: Net, mask: Bytes): (r: Net)
    requires |n.addr| == |n.mask| == |mask|
    ensures |r.addr| == |r.mask| == |mask|
  {
    Net(And(n.addr, mask), And(n.mask, mask))
  }

  /** The network can be composed with a gapped network of the warp. */
  ghost predicate ComposedBy(w: Warp, n: Net, h: nat) {
    && |n.addr| == |n.mask| == h && !Contiguous(n.mask) && Supported(n) && IsRegion(w.region, w.level, h)
       && Normal(w.region)
    && GapLevel(n) == w.level && Submask(w.region.mask, RegionOf(n).mask) && Overlaps(RegionOf(n), w.region)
  }

  // ----- the two networks of a composed one -------------------------------------------------

  /**
    What the bytes of the network, its region, the region of the warp and the wide network have to do with
    each other.
  */
  ghost predicate Bytewise(n: Net, region: Net, around: Net, wide: Net, l: nat, h: nat) {
    && |n.addr| == |n.mask| == h && |region.addr| == |region.mask| == h && |around.addr| == |around.mask| == h
    && |wide.addr| == |wide.mask| == h && l <= h
    && (forall t | 0 <= t < h :: BytesFit(n, region, around, wide, l, h, t))
  }

  ghost predicate BytesFit(n: Net, region: Net, around: Net, wide: Net, l: nat, h: nat, t: nat)
    requires |n.addr| == |n.mask| == h && |region.addr| == |region.mask| == h && |around.addr| == |around.mask| == h
    requires |wide.addr| == |wide.mask| == h && t < h
  {
    if t < l then ByteBefore(n.addr[t], n.mask[t], region.addr[t], region.mask[t], around.addr[t], around.mask[t],
                             wide.addr[t], wide.mask[t])
    else ByteBehind(n.addr[t], n.mask[t], region.addr[t], region.mask[t], around.addr[t], around.mask[t],
                    wide.addr[t], wide.mask[t])
  }

  ghost predicate ByteBefore(a: bv8, m: bv8, ra: bv8, rm: bv8, aa: bv8, am: bv8, wa: bv8, wm: bv8) {
    rm == m && ra == a & m && wm == am && wa == a & am && Sub(am, m) && Sub(aa, am) && Agree(ra, m & am, aa)
  }

  ghost predicate ByteBehind(a: bv8, m: bv8, ra: bv8, rm: bv8, aa: bv8, am: bv8, wa: bv8, wm: bv8) {
    rm == 0 && ra == 0 && am == 0 && aa == 0 && wa == a && wm == m
  }

  lemma RegionBytes(n: Net, h: nat)
    requires |n.addr| == |n.mask| == h > 0 && !Contiguous(n.mask) && Supported(n)
    ensures 0 < GapLevel(n) < h && forall t | 0 <= t < h :: RegionOf(n).addr[t] == n.addr[t] & RegionOf(n).mask[t]
    ensures forall t | 0 <= t < h :: RegionOf(n).mask[t] == if t < GapLevel(n) then n.mask[t] else 0
  {
    GapParts(n.mask);
    hide Contiguous, FillTail, ClearTail, TailStart, ByteAligned, LeadingOnes;
  }

  lemma WideBytes(n: Net, w: Warp, h: nat)
    requires |n.addr| == |n.mask| == |w.region.mask| == h && w.level <= h
    ensures forall t | 0 <= t < h ::
              WideOf(n, WarpMask(w, h)).addr[t] == n.addr[t] & if t < w.level then w.region.mask[t] else 0xFF
    ensures forall t | 0 <= t < h ::
              WideOf(n, WarpMask(w, h)).mask[t] == n.mask[t] & if t < w.level then w.region.mask[t] else 0xFF
  {
  }

  lemma AroundBytes(w: Warp, n: Net, h: nat)
    requires ComposedBy(w, n, h)
    ensures |w.region.addr| == |w.region.mask| == h && w.level < h && GapLevel(n) == w.level
    ensures forall t | 0 <= t < h ::
              Sub(w.region.mask[t], RegionOf(n).mask[t]) && Sub(w.region.addr[t], w.region.mask[t])
    ensures forall t | 0 <= t < h ::
              Agree(RegionOf(n).addr[t], RegionOf(n).mask[t] & w.region.mask[t], w.region.addr[t])
    ensures forall t | w.level <= t < h :: w.region.mask[t] == 0
  {
    assert ZeroFrom(w.region.mask, w.level - 1 + 1);
    hide Contiguous, RegionOf, GapLevel, Leading, Supported, Agree, Sub;
  }

  lemma ComposedBytes(w: Warp, n: Net, h: nat)
    requires ComposedBy(w, n, h)
    ensures 0 < w.level < h && |w.region.mask| == h
    ensures Bytewise(n, RegionOf(n), w.region, WideOf(n, WarpMask(w, h)), w.level, h)
  {
    hide *;
    ComposedSizes(w, n, h);
    RegionBytes(n, h);
    AroundBytes(w, n, h);
    WideBytes(n, w, h);
    BytewiseIs(n, RegionOf(n), w.region, WideOf(n, WarpMask(w, h)), w.level, h);
  }

  lemma ComposedSizes(w: Warp, n: Net, h: nat)
    requires ComposedBy(w, n, h)
    ensures |n.addr| == |n.mask| == h > 0 && !Contiguous(n.mask) && Supported(n)
    ensures |w.region.addr| == |w.region.mask| == h && 0 < w.level < h
  {
    hide Contiguous, RegionOf, GapLevel, Leading, Supported, Overlaps, Submask, Normal;
  }

  lemma BytewiseIs(n: Net, region: Net, around: Net, wide: Net, l: nat, h: nat)
    requires |n.addr| == |n.mask| == h && |region.addr| == |region.mask| == h && |around.addr| == |around.mask| == h
    requires |wide.addr| == |wide.mask| == h && l <= h
    requires forall t | 0 <= t < h :: region.addr[t] == n.addr[t] & region.mask[t]
    requires forall t | 0 <= t < h :: region.mask[t] == if t < l then n.mask[t] else 0
    requires forall t | 0 <= t < h :: Sub(around.mask[t], region.mask[t]) && Sub(around.addr[t], around.mask[t])
    requires forall t | 0 <= t < h :: Agree(region.addr[t], region.mask[t] & around.mask[t], around.addr[t])
    requires forall t | l <= t < h :: around.mask[t] == 0
    requires forall t | 0 <= t < h :: wide.addr[t] == n.addr[t] & if t < l then around.mask[t] else 0xFF
    requires forall t | 0 <= t < h :: wide.mask[t] == n.mask[t] & if t < l then around.mask[t] else 0xFF
    ensures Bytewise(n, region, around, wide, l, h)
  {
    hide Agree, Sub, ByteBefore, ByteBehind;
    forall t | 0 <= t < h
      ensures BytesFit(n, region, around, wide, l, h, t)
    {
      if t < l {
        BeforeIs(n.addr[t], n.mask[t], around.addr[t], around.mask[t]);
      } else {
        BehindIs(n.addr[t], n.mask[t], around.addr[t]);
      }
    }
  }

  lemma BeforeIs(a: bv8, m: bv8, aa: bv8, am: bv8)
    requires Sub(am, m) && Sub(aa, am) && Agree(a & m, m & am, aa)
    ensures ByteBefore(a, m, a & m, m, aa, am, a & am, m & am)
  {
  }

  lemma BehindIs(a: bv8, m: bv8, aa: bv8)
    requires Sub(aa, 0)
    ensures ByteBehind(a, m, a & 0, 0, aa, 0, a & 0xFF, m & 0xFF)
  {
  }

  lemma BeforeCovers(x: bv8, a: bv8, m: bv8, ra: bv8, rm: bv8, aa: bv8, am: bv8, wa: bv8, wm: bv8)
    requires ByteBefore(a, m, ra, rm, aa, am, wa, wm)
    ensures Agree(x, m, a) <==> Agree(x, rm, ra) && Agree(x, wm, wa)
    ensures wa & am == aa
  {
  }

  lemma BehindCovers(x: bv8, a: bv8, m: bv8, ra: bv8, rm: bv8, aa: bv8, am: bv8, wa: bv8, wm: bv8)
    requires ByteBehind(a, m, ra, rm, aa, am, wa, wm)
    ensures Agree(x, m, a) <==> Agree(x, rm, ra) && Agree(x, wm, wa)
    ensures wa & am == aa
  {
  }

  /** The network is the intersection of its region and the wide network. */
  lemma BytesCover(n: Net, region: Net, around: Net, wide: Net, l: nat, h: nat, x: Digits)
    requires Bytewise(n, region, around, wide, l, h) && |x| == h
    ensures Covers(n, x) <==> Covers(region, x) && Covers(wide, x)
  {
    hide Agree, ByteBefore, ByteBehind, Covers;
    forall t | 0 <= t < h
      ensures Agree(x[t], n.mask[t], n.addr[t])
              <==> Agree(x[t], region.mask[t], region.addr[t]) && Agree(x[t], wide.mask[t], wide.addr[t])
    {
      BytesAt(n, region, around, wide, l, h, x, t);
    }
    BothCover(n, region, wide, x);
  }

  lemma BothCover(n: Net, m: Net, m': Net, x: Digits)
    requires |n.addr| == |n.mask| == |m.addr| == |m.mask| == |m'.addr| == |m'.mask| == |x|
    requires forall t | 0 <= t < |x| ::
               Agree(x[t], n.mask[t], n.addr[t])
               <==> Agree(x[t], m.mask[t], m.addr[t]) && Agree(x[t], m'.mask[t], m'.addr[t])
    ensures Covers(n, x) <==> Covers(m, x) && Covers(m', x)
  {
    hide Agree;
  }

  lemma BytesAt(n: Net, region: Net, around: Net, wide: Net, l: nat, h: nat, x: Digits, t: nat)
    requires Bytewise(n, region, around, wide, l, h) && |x| == h && t < h
    ensures Agree(x[t], n.mask[t], n.addr[t])
            <==> Agree(x[t], region.mask[t], region.addr[t]) && Agree(x[t], wide.mask[t], wide.addr[t])
    ensures wide.addr[t] & around.mask[t] == around.addr[t]
  {
    assert BytesFit(n, region, around, wide, l, h, t);
    hide Agree, ByteBefore, ByteBehind;
    if t < l {
      BeforeCovers(x[t], n.addr[t], n.mask[t], region.addr[t], region.mask[t], around.addr[t], around.mask[t],
                   wide.addr[t], wide.mask[t]);
    } else {
      BehindCovers(x[t], n.addr[t], n.mask[t], region.addr[t], region.mask[t], around.addr[t], around.mask[t],
                   wide.addr[t], wide.mask[t]);
    }
  }

  /** The wide network lies in the region of the warp. */
  lemma BytesAround(n: Net, region: Net, around: Net, wide: Net, l: nat, h: nat)
    requires Bytewise(n, region, around, wide, l, h)
    ensures And(wide.addr, around.mask) == around.addr
  {
    hide Agree, ByteBefore, ByteBehind;
    forall t | 0 <= t < h
      ensures wide.addr[t] & around.mask[t] == around.addr[t]
    {
      BytesAt(n, region, around, wide, l, h, n.addr, t);
    }
  }

  lemma BytesMask(n: Net, region: Net, around: Net, wide: Net, l: nat, h: nat)
    requires Bytewise(n, region, around, wide, l, h)
    ensures forall t | 0 <= t < h :: wide.mask[t] == if t < l then around.mask[t] else n.mask[t]
  {
    hide Agree, Sub;
    forall t | 0 <= t < h
      ensures wide.mask[t] == if t < l then around.mask[t] else n.mask[t]
    {
      assert BytesFit(n, region, around, wide, l, h, t);
    }
  }

  lemma TailStartIs(w: Bytes, l: nat)
    requires l <= |w| && (l > 0 ==> w[l - 1] != 0xFF) && forall t | l <= t < |w| :: w[t] == 0xFF
    ensures TailStart(w) == l
  {
    hide TailStart;
  }

  /** Filling the wide mask gives the mask of the warp. */
  lemma WideFill(w: Warp, n: Net, h: nat)
    requires ComposedBy(w, n, h)
    ensures w.level <= |w.region.mask| == h && FillTail(WideOf(n, WarpMask(w, h)).mask) == WarpMask(w, h)
    ensures !Contiguous(WideOf(n, WarpMask(w, h)).mask)
  {
    ComposedBytes(w, n, h);
    var wide := WideOf(n, WarpMask(w, h));
    BytesMask(n, RegionOf(n), w.region, wide, w.level, h);
    var z := GapStart(n.mask);
    FillLeading(n.mask[z]);
    FilledMask(w, n.mask, wide.mask, h, z);
  }

  lemma FilledMask(w: Warp, mask: Bytes, wide: Bytes, h: nat, z: nat)
    requires |mask| == |wide| == h && IsRegion(w.region, w.level, h) && w.level <= z < h && mask[z] != 0
             && ZeroFrom(mask, z + 1)
    requires Fill(mask[z]) == 0xFF && forall t | w.level <= t < z :: mask[t] == 0xFF
    requires forall t | 0 <= t < h :: wide[t] == if t < w.level then w.region.mask[t] else mask[t]
    ensures FillTail(wide) == WarpMask(w, h) && !Contiguous(wide)
  {
    hide Contiguous, FillTail, Leading, Fill;
    assert ZeroFrom(wide, z + 1);
    FillTailAt(wide, z);
    assert forall t | 0 <= t < h :: FillTail(wide)[t] == WarpMask(w, h)[t];
    ContiguousLeading(wide);
    assert wide[w.level - 1] != 0xFF && !ZeroFrom(wide, w.level - 1 + 1);
  }

  lemma FillLeading(m: bv8)
    ensures Leading(m) && m != 0 ==> Fill(m) == 0xFF
  {
  }

  lemma ClearEven(m: bv8)
    ensures Leading(m) && m != 0xFF ==> Clear(m) == m && !Odd(m)
  {
  }

  /** Clearing the mask of a warp gives the mask of its region. */
  lemma WarpClear(w: Warp, h: nat)
    requires IsRegion(w.region, w.level, h)
    ensures w.level <= |w.region.mask| == h && TailStart(WarpMask(w, h)) == w.level
            && ClearTail(WarpMask(w, h)) == w.region.mask
    ensures ByteAligned(WarpMask(w, h)) && Contiguous(w.region.mask)
  {
    var m, l := WarpMask(w, h), w.level;
    ClearEven(w.region.mask[l - 1]);
    hide Leading, Clear, Odd, Contiguous, ClearTail, TailStart;
    TailStartIs(m, l);
    ClearTailAt(m);
    assert ZeroFrom(w.region.mask, l - 1 + 1);
    assert forall t | 0 <= t < h :: ClearTail(m)[t] == w.region.mask[t];
    ContiguousLeading(w.region.mask);
  }

  /** The wide network has the warp, and the region has no gap. */
  lemma WideWarp(w: Warp, n: Net, h: nat)
    requires ComposedBy(w, n, h)
    ensures w.level <= |w.region.mask| == h && Supported(WideOf(n, WarpMask(w, h)))
            && WarpOf(w, WideOf(n, WarpMask(w, h)))
    ensures !Contiguous(WideOf(n, WarpMask(w, h)).mask) && Contiguous(RegionOf(n).mask)
  {
    WideFill(w, n, h);
    WarpClear(w, h);
    ComposedBytes(w, n, h);
    var wide := WideOf(n, WarpMask(w, h));
    BytesAround(n, RegionOf(n), w.region, wide, w.level, h);
    hide Contiguous, FillTail, ClearTail, TailStart, ByteAligned, ComposedBy, IsRegion, WideOf, Bytewise, WarpMask, And;
    WideIs(w, wide);
    RegionContiguous(n);
  }

  lemma WideIs(w: Warp, wide: Net)
    requires |wide.addr| == |wide.mask| == |w.region.mask| && And(wide.addr, w.region.mask) == w.region.addr
    requires ClearTail(FillTail(wide.mask)) == w.region.mask && TailStart(FillTail(wide.mask)) == w.level
    requires ByteAligned(FillTail(wide.mask)) && Contiguous(w.region.mask)
    ensures Supported(wide) && WarpOf(w, wide)
  {
    hide Contiguous, FillTail, ClearTail, TailStart, ByteAligned, And;
  }

  lemma RegionContiguous(n: Net)
    requires |n.addr| == |n.mask| && Supported(n)
    ensures Contiguous(RegionOf(n).mask)
  {
    hide Contiguous, FillTail, ClearTail, ByteAligned;
  }

  /** A composed network is the intersection of its region and of the wide network. */
  lemma ComposedCovers(w: Warp, n: Net, h: nat, x: Digits)
    requires ComposedBy(w, n, h) && |x| == h
    ensures w.level <= |w.region.mask| == h
    ensures Covers(n, x) <==> Covers(RegionOf(n), x) && Covers(WideOf(n, WarpMask(w, h)), x)
  {
    ComposedBytes(w, n, h);
    hide ComposedBy, RegionOf, WideOf, Bytewise, Covers;
    BytesCover(n, RegionOf(n), w.region, WideOf(n, WarpMask(w, h)), w.level, h, x);
  }

  // ----- overlapping regions ----------------------------------------------------------------

  lemma {:induction false} LengthJoin(a: Bytes, b: Bytes)
    ensures Length(a + b) == Length(a) + Length(b)
  {
    hide Bits;
    if a == [] {
      assert a + b == b;
    } else {
      assert (a + b)[0] == a[0] && (a + b)[1..] == a[1..] + b;
      LengthJoin(a[1..], b);
    }
  }

  lemma {:induction false} LengthOnes(n: nat)
    ensures Length(Ones(n)) == 8 * n
  {
    if n > 0 {
      assert Ones(n)[1..] == Ones(n - 1);
      LengthOnes(n - 1);
      FullBits();
      hide Bits;
    }
  }

  lemma FullBits()
    ensures Bits(0xFF) == 8
  {
  }

  lemma GapSizeIs(n: Net, h: nat)
    requires |n.addr| == |n.mask| == h > 0 && !Contiguous(n.mask) && Supported(n)
    ensures GapLevel(n) < h && GapSize(n) == Length(RegionOf(n).mask) + 8 * (h - GapLevel(n))
  {
    hide *;
    WarpMaskIs(n, h);
    RegionBytes(n, h);
    SizeFilled(RegionOf(n).mask, GapLevel(n), h);
    GapSizeOf(n);
  }

  lemma GapSizeOf(n: Net)
    requires !Contiguous(n.mask)
    ensures GapSize(n) == Length(FillTail(n.mask))
  {
  }

  lemma SizeFilled(mask: Bytes, l: nat, h: nat)
    requires |mask| == h && l <= h && forall t | l <= t < h :: mask[t] == 0
    ensures Length(mask[..l] + Ones(h - l)) == Length(mask) + 8 * (h - l)
  {
    hide Bits, Length;
    LengthJoin(mask[..l], Ones(h - l));
    LengthOnes(h - l);
    assert mask == mask[..l] + mask[l..];
    LengthJoin(mask[..l], mask[l..]);
    LengthZero(mask[l..]);
  }

  /** Of two gapped networks whose last parts start together, the one with the smaller size has the wider region. */
  lemma WiderRegion(m: Net, n: Net, h: nat)
    requires |m.addr| == |m.mask| == |n.addr| == |n.mask| == h > 0 && !Contiguous(m.mask) && !Contiguous(n.mask)
    requires Supported(m) && Supported(n) && GapLevel(m) == GapLevel(n) && GapSize(m) <= GapSize(n)
    ensures Submask(RegionOf(m).mask, RegionOf(n).mask)
  {
    GapSizeIs(m, h);
    GapSizeIs(n, h);
    RegionLeading(m);
    RegionLeading(n);
    hide *;
    LengthOrder(RegionOf(m).mask, RegionOf(n).mask);
  }

  lemma RegionLeading(n: Net)
    requires |n.addr| == |n.mask| && Supported(n)
    ensures LeadingOnes(RegionOf(n).mask)
  {
    RegionContiguous(n);
    hide Contiguous, Supported, RegionOf, LeadingOnes;
    ContiguousLeading(RegionOf(n).mask);
  }

  lemma RegionNormal(n: Net)
    requires |n.addr| == |n.mask|
    ensures Normal(RegionOf(n))
  {
    var region := RegionOf(n);
    forall t | 0 <= t < |n.addr|
      ensures Sub(region.addr[t], region.mask[t])
    {
      AndSub(n.addr[t], region.mask[t]);
    }
  }

  lemma AndSub(a: bv8, m: bv8)
    ensures Sub(a & m, m)
  {
  }

  lemma SubmaskBoth(a: Bytes, b: Bytes)
    requires Submask(a, b) && Submask(b, a)
    ensures a == b
  {
    forall t | 0 <= t < |a|
      ensures a[t] == b[t]
    {
      SubBoth(a[t], b[t]);
    }
  }

  lemma SubBoth(a: bv8, b: bv8)
    requires Sub(a, b) && Sub(b, a)
    ensures a == b
  {
  }

  /** What overlaps a region overlaps a wider one around it. */
  lemma OverlapsUp(n: Net, r: Net, w: Net)
    requires |n.addr| == |n.mask| == |r.addr| == |r.mask| == |w.addr| == |w.mask|
    requires Overlaps(n, r) && Overlaps(r, w) && Submask(w.mask, r.mask)
    ensures Overlaps(n, w)
  {
    hide Agree, Sub;
    forall t | 0 <= t < |n.addr|
      ensures Agree(n.addr[t], n.mask[t] & w.mask[t], w.addr[t])
    {
      UpByte(n.addr[t], n.mask[t], r.addr[t], r.mask[t], w.addr[t], w.mask[t]);
    }
  }

  lemma UpByte(a: bv8, m: bv8, b: bv8, k: bv8, c: bv8, l: bv8)
    requires Agree(a, m & k, b) && Agree(b, k & l, c) && Sub(l, k)
    ensures Agree(a, m & l, c)
  {
  }

  /** Overlapping regions have an address in common. */
  lemma OverlapsCommon(n: Net, m: Net)
    requires |n.addr| == |n.mask| == |m.addr| == |m.mask| && Overlaps(n, m)
    ensures !Disjoint(n, m)
  {
    var x := seq(|n.addr|, t requires 0 <= t < |n.addr| => Mix(n.addr[t], n.mask[t], m.addr[t], m.mask[t]));
    hide Agree, Mix;
    forall t | 0 <= t < |n.addr|
      ensures Agree(x[t], n.mask[t], n.addr[t]) && Agree(x[t], m.mask[t], m.addr[t])
    {
      MixAgrees(n.addr[t], n.mask[t], m.addr[t], m.mask[t]);
    }
    assert Covers(n, x) && Covers(m, x);
  }

  function Mix(a: bv8, m: bv8, b: bv8, k: bv8): bv8 {
    (a & m) | (b & k)
  }

  lemma MixAgrees(a: bv8, m: bv8, b: bv8, k: bv8)
    requires Agree(a, m & k, b)
    ensures Agree(Mix(a, m, b, k), m, a) && Agree(Mix(a, m, b, k), k, b)
  {
  }

  // ----- the list of gapped networks --------------------------------------------------------

  ghost predicate AllGapped(list: seq<Net>, h: nat) {
    h > 0 && forall i | 0 <= i < |list| :: |list[i].addr| == |list[i].mask| == h && !Contiguous(list[i].mask)
  }

  /** The wider gaps come first. */
  ghost predicate WideFirst(list: seq<Net>) {
    forall i, j | 0 <= i < j < |list| :: GapSize(list[i]) <= GapSize(list[j])
  }

  /** The first k gapped networks are supported, and if their regions overlap, their last parts start together. */
  ghost predicate NoClash(list: seq<Net>, k: nat, h: nat)
    requires AllGapped(list, h)
  {
    && (forall i | 0 <= i < k && i < |list| :: Supported(list[i]))
    && (forall i, j | 0 <= i < k && i < |list| && 0 <= j < k && j < |list| :: Together(list[i], list[j]))
  }

  ghost predicate Together(m: Net, n: Net)
    requires |m.addr| == |m.mask| == |n.addr| == |n.mask|
  {
    Overlaps(RegionOf(m), RegionOf(n)) ==> GapLevel(m) == GapLevel(n)
  }

  /** The mask of the warp, and the network composed by it. */
  ghost predicate ComposedAs(w: Warp, mask: Bytes, n: Net, h: nat) {
    ComposedBy(w, n, h) && mask == WarpMask(w, h)
  }

  /** The network is recorded as composed with one of the warps. */
  ghost predicate ComposedIn(warps: seq<Warp>, inter: Intersections, n: Net, h: nat)
    requires |n.addr| == |n.mask| == h
  {
    WarpKey(n) in inter && exists j :: 0 <= j < |warps| && ComposedAs(warps[j], inter[WarpKey(n)], n, h)
  }

  ghost predicate Placed(warps: seq<Warp>, inter: Intersections, n: Net, h: nat)
    requires |n.addr| == |n.mask| == h
  {
    Supported(n) && (HasWarp(warps, n) || ComposedIn(warps, inter, n, h))
  }

  /** Every recorded key stands for networks that the recorded warp composes. */
  ghost predicate InterFits(warps: seq<Warp>, inter: Intersections, h: nat) {
    forall n: Net | |n.addr| == |n.mask| == h && !Contiguous(n.mask)
    && WarpKey(n) in inter :: ComposedIn(warps, inter, n, h)
  }

  ghost predicate WarpsNormal(warps: seq<Warp>, h: nat) {
    forall j | 0 <= j < |warps| :: IsRegion(warps[j].region, warps[j].level, h) && Normal(warps[j].region)
  }

  ghost predicate AllPlaced(warps: seq<Warp>, inter: Intersections, list: seq<Net>, k: nat, h: nat)
    requires AllGapped(list, h)
  {
    forall i | 0 <= i < k && i < |list| :: Placed(warps, inter, list[i], h)
  }

  /** The regions of composed networks are among the simple ones. */
  ghost predicate RegionsIn(warps: seq<Warp>, simple: seq<Net>, list: seq<Net>, k: nat, h: nat)
    requires AllGapped(list, h)
  {
    forall i | 0 <= i < k && i < |list| && !HasWarp(warps, list[i]) :: RegionOf(list[i]) in simple
  }

  ghost predicate WarpsFrom(warps: seq<Warp>, list: seq<Net>, k: nat, h: nat)
    requires AllGapped(list, h)
  {
    forall j | 0 <= j < |warps| :: OneFrom(warps[j], list, k, h)
  }

  ghost predicate OneFrom(w: Warp, list: seq<Net>, k: nat, h: nat)
    requires AllGapped(list, h)
  {
    exists i :: 0 <= i < k && i < |list| && WarpOf(w, list[i])
  }

  /** The first k gapped networks have a warp or are composed; every warp belongs to one of them. */
  ghost predicate PlacedTo(warps: seq<Warp>, inter: Intersections, simple: seq<Net>, list: seq<Net>, k: nat, h: nat)
    requires AllGapped(list, h)
  {
    && WarpsNormal(warps, h) && InterFits(warps, inter, h)
    && AllPlaced(warps, inter, list, k, h) && RegionsIn(warps, simple, list, k, h) && WarpsFrom(warps, list, k, h)
  }

  /** The network can be placed beside the warps. */
  ghost predicate Agreeable(warps: seq<Warp>, n: Net, h: nat)
    requires |n.addr| == |n.mask| == h && forall j | 0 <= j < |warps| ::
               |warps[j].region.addr| == |warps[j].region.mask| == h
  {
    Supported(n)
    && (HasWarp(warps, n) || forall j | 0 <= j < |warps|
        && Overlaps(RegionOf(n), warps[j].region) :: warps[j].level == GapLevel(n))
  }

  /** One key, one region. */
  lemma SameKey(n: Net, m: Net)
    requires |n.addr| == |n.mask| == |m.addr| == |m.mask| && WarpKey(n) == WarpKey(m)
    ensures RegionOf(n) == RegionOf(m) && GapLevel(n) == GapLevel(m) && (Supported(n) <==> Supported(m))
  {
    hide FillTail, ClearTail, TailStart, Contiguous, ByteAligned;
  }

  lemma ComposedSame(w: Warp, n: Net, m: Net, h: nat)
    requires ComposedBy(w, n, h) && |m.addr| == |m.mask| == h && !Contiguous(m.mask) && WarpKey(n) == WarpKey(m)
    ensures ComposedBy(w, m, h)
  {
    SameKey(n, m);
    hide RegionOf, GapLevel, Supported, Contiguous, Overlaps, Submask, Normal, IsRegion;
  }

  // ----- one more gapped network ------------------------------------------------------------

  lemma OverlapsOne(warps: seq<Warp>, i: nat, j: nat)
    requires i < |warps| && j < |warps| && RegionsApart(warps)
    requires |warps[i].region.addr| == |warps[i].region.mask| == |warps[j].region.addr| == |warps[j].region.mask|
    requires Overlaps(warps[i].region, warps[j].region)
    ensures i == j
  {
    hide Overlaps, Disjoint;
    OverlapsCommon(warps[i].region, warps[j].region);
  }

  lemma WarpSizes(warps: seq<Warp>, h: nat)
    requires WarpsNormal(warps, h)
    ensures forall j | 0 <= j < |warps| ::
              |warps[j].region.addr| == |warps[j].region.mask| == h && 0 < warps[j].level < h
  {
    hide Normal;
  }

  lemma OwnWarp(w: Warp, n: Net)
    requires |n.addr| == |n.mask| && WarpOf(w, n)
    ensures RegionOf(n) == w.region && GapLevel(n) == w.level
  {
  }

  /** The warp that a placed network lies in: its own, or the one that composes it. */
  lemma PlaceOf(warps: seq<Warp>, inter: Intersections, n: Net, h: nat) returns (j: nat)
    requires |n.addr| == |n.mask| == h && Placed(warps, inter, n, h) && WarpsNormal(warps, h)
    ensures j < |warps| && |warps[j].region.addr| == |warps[j].region.mask| == h
    ensures GapLevel(n) == warps[j].level && Overlaps(RegionOf(n), warps[j].region)
            && Submask(warps[j].region.mask, RegionOf(n).mask)
  {
    WarpSizes(warps, h);
    hide Supported, WarpOf, RegionOf, GapLevel, Overlaps, Submask, Normal, IsRegion, Contiguous;
    if HasWarp(warps, n) {
      j := OneWarp(warps, n);
      OwnWarp(warps[j], n);
      OverlapsSelf(warps[j].region);
    } else {
      j :| 0 <= j < |warps| && ComposedAs(warps[j], inter[WarpKey(n)], n, h);
      ByParts(warps[j], n, h);
    }
  }

  lemma ByParts(w: Warp, n: Net, h: nat)
    requires ComposedBy(w, n, h)
    ensures |w.region.addr| == |w.region.mask| == h && 0 < w.level <= h && |n.addr| == |n.mask| == h
    ensures GapLevel(n) == w.level && Overlaps(RegionOf(n), w.region) && Submask(w.region.mask, RegionOf(n).mask)
  {
    hide Supported, RegionOf, GapLevel, Overlaps, Submask, Normal, Contiguous;
  }

  lemma OverlapsSelf(n: Net)
    requires |n.addr| == |n.mask|
    ensures Overlaps(n, n) && Submask(n.mask, n.mask)
  {
    forall t | 0 <= t < |n.addr|
      ensures Agree(n.addr[t], n.mask[t] & n.mask[t], n.addr[t]) && Sub(n.mask[t], n.mask[t])
    {
    }
    hide Agree, Sub;
  }

  /** A network that can be placed agrees with every placed one. */
  lemma AgreeableTogether(warps: seq<Warp>, inter: Intersections, m: Net, n: Net, h: nat)
    requires |m.addr| == |m.mask| == |n.addr| == |n.mask| == h && Placed(warps, inter, m, h) && WarpsNormal(warps, h)
             && RegionsApart(warps)
    requires (forall j | 0 <= j < |warps| :: |warps[j].region.addr| == |warps[j].region.mask| == h)
             && Agreeable(warps, n, h)
    ensures Together(m, n) && Together(n, m)
  {
    var j := PlaceOf(warps, inter, m, h);
    hide Supported, WarpOf, RegionOf, GapLevel, Overlaps, Submask, WarpsNormal, RegionsApart, Placed;
    OverlapsSym(RegionOf(m), RegionOf(n));
    if Overlaps(RegionOf(n), RegionOf(m)) {
      OverlapsUp(RegionOf(n), RegionOf(m), warps[j].region);
      if HasWarp(warps, n) {
        var i := OneWarp(warps, n);
        OwnWarp(warps[i], n);
        OverlapsOne(warps, i, j);
      }
    }
  }

  /** The gapped networks go on without a clash exactly when the next one can be placed. */
  lemma ClashStep(warps: seq<Warp>, inter: Intersections, list: seq<Net>, k: nat, h: nat)
    requires AllGapped(list, h) && k < |list| && NoClash(list, k, h) && RegionsApart(warps)
    requires WarpsNormal(warps, h) && AllPlaced(warps, inter, list, k, h) && WarpsFrom(warps, list, k, h)
    ensures (forall j | 0 <= j < |warps| :: |warps[j].region.addr| == |warps[j].region.mask| == h)
    ensures NoClash(list, k + 1, h) <==> Agreeable(warps, list[k], h)
  {
    hide *;
    WarpSizes(warps, h);
    GappedAt(list, h, k);
    if Agreeable(warps, list[k], h) {
      ClashMore(warps, inter, list, k, h);
    }
    if NoClash(list, k + 1, h) {
      ClashAgreeable(warps, list, k, h);
    }
  }

  lemma GappedAt(list: seq<Net>, h: nat, k: nat)
    requires AllGapped(list, h) && k < |list|
    ensures |list[k].addr| == |list[k].mask| == h > 0 && !Contiguous(list[k].mask)
  {
  }

  lemma ClashMore(warps: seq<Warp>, inter: Intersections, list: seq<Net>, k: nat, h: nat)
    requires AllGapped(list, h) && k < |list| && NoClash(list, k, h) && RegionsApart(warps)
    requires WarpsNormal(warps, h) && AllPlaced(warps, inter, list, k, h)
    requires (forall j | 0 <= j < |warps| :: |warps[j].region.addr| == |warps[j].region.mask| == h)
             && Agreeable(warps, list[k], h)
    ensures NoClash(list, k + 1, h)
  {
    hide Supported, WarpOf, RegionOf, GapLevel, Overlaps, Placed, WarpsNormal, RegionsApart, Contiguous, HasWarp;
    forall i | 0 <= i < k
      ensures Together(list[i], list[k]) && Together(list[k], list[i])
    {
      AgreeableTogether(warps, inter, list[i], list[k], h);
    }
    hide Agreeable;
  }

  lemma ClashAgreeable(warps: seq<Warp>, list: seq<Net>, k: nat, h: nat)
    requires AllGapped(list, h) && k < |list| && NoClash(list, k + 1, h) && WarpsFrom(warps, list, k, h)
    requires (forall j | 0 <= j < |warps| :: |warps[j].region.addr| == |warps[j].region.mask| == h)
    ensures Agreeable(warps, list[k], h)
  {
    var n := list[k];
    hide Supported, WarpOf, RegionOf, GapLevel, Overlaps, Contiguous, HasWarp;
    forall j | 0 <= j < |warps| && Overlaps(RegionOf(n), warps[j].region)
      ensures warps[j].level == GapLevel(n)
    {
      assert OneFrom(warps[j], list, k, h);
      var i :| 0 <= i < k && i < |list| && WarpOf(warps[j], list[i]);
      OwnWarp(warps[j], list[i]);
      assert Together(n, list[i]);
    }
  }

  /** The warps of earlier networks at the level of the next one are at least as wide. */
  lemma WideBefore(warps: seq<Warp>, list: seq<Net>, k: nat, h: nat)
    requires AllGapped(list, h) && WideFirst(list) && k < |list| && NoClash(list, k, h) && WarpsFrom(warps, list, k, h)
    ensures Supported(list[k]) ==> WiderAll(warps, list[k])
  {
    hide Supported, WarpOf, RegionOf, GapLevel, Overlaps, Contiguous, Submask, GapSize;
    var n := list[k];
    if Supported(n) {
      forall j | 0 <= j < |warps| && warps[j].level == GapLevel(n)
        ensures Submask(warps[j].region.mask, RegionOf(n).mask)
      {
        assert OneFrom(warps[j], list, k, h);
        var i :| 0 <= i < k && i < |list| && WarpOf(warps[j], list[i]);
        OwnWarp(warps[j], list[i]);
        WiderRegion(list[i], n, h);
      }
    }
  }

  ghost predicate WiderAll(warps: seq<Warp>, n: Net)
    requires |n.addr| == |n.mask|
  {
    forall j | 0 <= j < |warps| && warps[j].level == GapLevel(n) :: Submask(warps[j].region.mask, RegionOf(n).mask)
  }

  /** Nothing recorded is lost. */
  ghost predicate Keeps(inter: Intersections, inter': Intersections) {
    forall key | key in inter :: key in inter' && inter'[key] == inter[key]
  }

  lemma PlacedMore(warps: seq<Warp>, warps': seq<Warp>, inter: Intersections, inter': Intersections, n: Net, h: nat)
    requires |n.addr| == |n.mask| == h && Placed(warps, inter, n, h) && warps <= warps' && Keeps(inter, inter')
    ensures Placed(warps', inter', n, h) && (HasWarp(warps, n) ==> HasWarp(warps', n))
  {
    hide Supported, WarpOf, WarpKey, ComposedAs;
    if HasWarp(warps, n) {
      var j := OneWarp(warps, n);
      HasWarpAt(warps', n, j);
    } else {
      var j :| 0 <= j < |warps| && ComposedAs(warps[j], inter[WarpKey(n)], n, h);
      assert warps'[j] == warps[j];
    }
  }

  /** What has been placed stays placed. */
  lemma PlacedStep(warps: seq<Warp>, warps': seq<Warp>, inter: Intersections, inter': Intersections,
                   simple: seq<Net>, simple': seq<Net>, list: seq<Net>, k: nat, h: nat)
    requires AllGapped(list, h) && k < |list| && PlacedTo(warps, inter, simple, list, k, h)
    requires WarpsNormal(warps', h) && InterFits(warps', inter', h) && Placed(warps', inter', list[k], h)
    requires !HasWarp(warps', list[k]) ==> RegionOf(list[k]) in simple'
    requires Keeps(inter, inter') && forall m | m in simple :: m in simple'
    requires warps' == warps || (|warps'| == |warps| + 1 && warps <= warps' && WarpOf(warps'[|warps|], list[k]))
    ensures PlacedTo(warps', inter', simple', list, k + 1, h)
  {
    hide WarpOf, HasWarp, Placed, WarpsNormal, InterFits, Contiguous, RegionOf, Keeps, WarpsFrom;
    forall i | 0 <= i < k
      ensures Placed(warps', inter', list[i], h) && (HasWarp(warps, list[i]) ==> HasWarp(warps', list[i]))
    {
      PlacedMore(warps, warps', inter, inter', list[i], h);
    }
    FromStep(warps, warps', list, k, h);
  }

  lemma FromStep(warps: seq<Warp>, warps': seq<Warp>, list: seq<Net>, k: nat, h: nat)
    requires AllGapped(list, h) && k < |list| && WarpsFrom(warps, list, k, h)
    requires warps' == warps || (|warps'| == |warps| + 1 && warps <= warps' && WarpOf(warps'[|warps|], list[k]))
    ensures WarpsFrom(warps', list, k + 1, h)
  {
    hide WarpOf, Contiguous;
    forall j | 0 <= j < |warps'|
      ensures OneFrom(warps'[j], list, k + 1, h)
    {
      if j < |warps| {
        assert OneFrom(warps[j], list, k, h) && warps'[j] == warps[j];
      } else {
        assert WarpOf(warps'[j], list[k]);
      }
    }
  }

  lemma InterMore(warps: seq<Warp>, warps': seq<Warp>, inter: Intersections, h: nat)
    requires InterFits(warps, inter, h) && warps <= warps'
    ensures InterFits(warps', inter, h)
  {
    hide WarpKey, ComposedAs, Contiguous;
    forall n: Net | |n.addr| == |n.mask| == h && !Contiguous(n.mask) && WarpKey(n) in inter
      ensures ComposedIn(warps', inter, n, h)
    {
      assert ComposedIn(warps, inter, n, h);
      var j :| 0 <= j < |warps| && ComposedAs(warps[j], inter[WarpKey(n)], n, h);
      assert warps'[j] == warps[j];
    }
  }

  /** A new key. */
  lemma InterAdd(warps: seq<Warp>, inter: Intersections, n: Net, j: nat, h: nat)
    requires InterFits(warps, inter, h) && |n.addr| == |n.mask| == h && j < |warps| && ComposedBy(warps[j], n, h)
             && WarpKey(n) !in inter
    ensures |warps[j].region.mask| == h && warps[j].level <= h
    ensures InterFits(warps, inter[WarpKey(n) := WarpMask(warps[j], h)], h)
  {
    ByParts(warps[j], n, h);
    hide WarpKey, ComposedBy, WarpMask, Contiguous;
    var inter' := inter[WarpKey(n) := WarpMask(warps[j], h)];
    forall m: Net | |m.addr| == |m.mask| == h && !Contiguous(m.mask) && WarpKey(m) in inter'
      ensures ComposedIn(warps, inter', m, h)
    {
      if WarpKey(m) == WarpKey(n) {
        ComposedSame(warps[j], n, m, h);
        assert ComposedAs(warps[j], inter'[WarpKey(m)], m, h);
      } else {
        assert ComposedIn(warps, inter, m, h);
      }
    }
  }

  lemma ClashNone(list: seq<Net>, simple: seq<Net>, h: nat)
    requires AllGapped(list, h)
    ensures NoClash(list, 0, h) && PlacedTo([], map[], simple, list, 0, h)
  {
  }

  lemma ClashLess(list: seq<Net>, k: nat, k': nat, h: nat)
    requires AllGapped(list, h) && k <= k' && NoClash(list, k', h)
    ensures NoClash(list, k, h)
  {
    hide Supported, Together;
  }

  /** Where a warp at least as wide overlaps the region of the network, no other one does. */
  lemma OnlyOverlap(warps: seq<Warp>, n: Net, i: nat, j: nat, h: nat)
    requires |n.addr| == |n.mask| == h && i < |warps| && j < |warps| && RegionsApart(warps)
    requires forall j | 0 <= j < |warps| :: |warps[j].region.addr| == |warps[j].region.mask| == h
    requires Overlaps(RegionOf(n), warps[i].region) && Overlaps(RegionOf(n), warps[j].region)
    requires Submask(warps[i].region.mask, RegionOf(n).mask)
    ensures i == j
  {
    hide Overlaps, RegionOf, Submask, RegionsApart;
    OverlapsSym(RegionOf(n), warps[j].region);
    OverlapsUp(warps[j].region, RegionOf(n), warps[i].region);
    OverlapsOne(warps, j, i);
  }

  /** The first warp found around the region decides. */
  lemma AgreeComposed(warps: seq<Warp>, n: Net, i: nat, h: nat)
    requires |n.addr| == |n.mask| == h && i < |warps| && RegionsApart(warps) && WarpsNormal(warps, h)
    requires forall j | 0 <= j < |warps| :: |warps[j].region.addr| == |warps[j].region.mask| == h
    requires !Contiguous(n.mask) && Supported(n) && WiderAll(warps, n) && !HasWarp(warps, n)
    requires Overlaps(RegionOf(n), warps[i].region)
    ensures Agreeable(warps, n, h) <==> warps[i].level == GapLevel(n)
    ensures Agreeable(warps, n, h) ==> ComposedBy(warps[i], n, h)
  {
    hide Overlaps, RegionOf, GapLevel, Submask, RegionsApart, HasWarp, Supported, Contiguous, Normal, IsRegion;
    if warps[i].level == GapLevel(n) {
      forall j | 0 <= j < |warps| && Overlaps(RegionOf(n), warps[j].region)
        ensures j == i
      {
        OnlyOverlap(warps, n, i, j, h);
      }
    }
  }

  lemma AgreeableIs(warps: seq<Warp>, n: Net, h: nat)
    requires |n.addr| == |n.mask| == h && forall j | 0 <= j < |warps| ::
               |warps[j].region.addr| == |warps[j].region.mask| == h
    ensures !Supported(n) ==> !Agreeable(warps, n, h)
    ensures Supported(n) && HasWarp(warps, n) ==> Agreeable(warps, n, h)
    ensures Supported(n) && (forall j | 0 <= j < |warps| :: !Overlaps(RegionOf(n), warps[j].region)) ==>
              Agreeable(warps, n, h)
  {
    hide Overlaps, RegionOf, GapLevel, HasWarp, Supported;
  }

  /** The regions of recorded networks are among the prefixes. */
  ghost predicate InterListed(inter: Intersections, prefixes: seq<Net>, h: nat) {
    forall n: Net | |n.addr| == |n.mask| == h && WarpKey(n) in inter :: RegionOf(n) in prefixes
  }

  lemma ListedAdd(inter: Intersections, prefixes: seq<Net>, prefixes': seq<Net>, n: Net, mask: Bytes, h: nat)
    requires InterListed(inter, prefixes, h) && |n.addr| == |n.mask| == h
    requires forall m :: m in prefixes' <==> m in prefixes || m == RegionOf(n)
    ensures InterListed(inter[WarpKey(n) := mask], prefixes', h)
  {
    hide WarpKey, RegionOf;
    forall m: Net | |m.addr| == |m.mask| == h && WarpKey(m) in inter[WarpKey(n) := mask]
      ensures RegionOf(m) in prefixes'
    {
      if WarpKey(m) == WarpKey(n) {
        SameKey(n, m);
      }
    }
  }

  lemma ListedAt(inter: Intersections, prefixes: seq<Net>, n: Net, h: nat)
    requires InterListed(inter, prefixes, h) && |n.addr| == |n.mask| == h && WarpKey(n) in inter
    ensures RegionOf(n) in prefixes
  {
    hide WarpKey, RegionOf;
  }

  /** A network with its own warp, and a composed one, are placed. */
  lemma PlacedOwn(warps: seq<Warp>, inter: Intersections, n: Net, h: nat)
    requires |n.addr| == |n.mask| == h && Supported(n) && HasWarp(warps, n)
    ensures Placed(warps, inter, n, h)
  {
    hide Supported, HasWarp;
  }

  lemma PlacedComposed(warps: seq<Warp>, inter: Intersections, n: Net, h: nat)
    requires |n.addr| == |n.mask| == h && !Contiguous(n.mask) && Supported(n) && WarpKey(n) in inter
             && InterFits(warps, inter, h)
    ensures Placed(warps, inter, n, h)
  {
    hide Supported, HasWarp, WarpKey, Contiguous, ComposedIn;
  }

  lemma NormalMore(warps: seq<Warp>, w: Warp, n: Net, h: nat)
    requires WarpsNormal(warps, h) && |n.addr| == |n.mask| == h && w.region == RegionOf(n)
             && IsRegion(w.region, w.level, h)
    ensures WarpsNormal(warps + [w], h)
  {
    RegionNormal(n);
    hide Normal, IsRegion, RegionOf;
  }

  // ----- the pieces of a network ------------------------------------------------------------

  /** The network has no warp of its own, but a recorded mask. */
  ghost predicate IsComposed(warps: seq<Warp>, inter: Intersections, n: Net): (b: bool)
    requires |n.addr| == |n.mask|
    ensures b ==> WarpKey(n) in inter && |inter[WarpKey(n)]| == |n.addr|
  {
    !Contiguous(n.mask) && !HasWarp(warps, n) && WarpKey(n) in inter && |inter[WarpKey(n)]| == |n.addr|
  }

  ghost function WideIn(warps: seq<Warp>, inter: Intersections, n: Net): (r: Net)
    requires |n.addr| == |n.mask| && IsComposed(warps, inter, n)
    ensures |r.addr| == |r.mask| == |n.addr|
  {
    WideOf(n, inter[WarpKey(n)])
  }

  /** The cells that inserting the network visits: those of its region and of the wide network, if it is composed. */
  ghost function PieceCells(warps: seq<Warp>, inter: Intersections, n: Net): iset<Cell>
    requires |n.addr| == |n.mask|
  {
    if IsComposed(warps, inter, n) then CellsOf(warps, RegionOf(n)) + CellsOf(warps, WideIn(warps, inter, n))
    else CellsOf(warps, n)
  }

  /** The network has no gap, or it has a warp, or it is composed. */
  ghost predicate Readied(warps: seq<Warp>, inter: Intersections, n: Net, h: nat) {
    |n.addr| == |n.mask| == h && (Contiguous(n.mask) || Placed(warps, inter, n, h))
  }

  /** The network has been prepared. */
  ghost predicate Known(warps: seq<Warp>, inter: Intersections, simple: iset<Net>, n: Net, h: nat) {
    && |n.addr| == |n.mask| == h
    && if Contiguous(n.mask) then n in simple
       else Placed(warps, inter, n, h) && (!HasWarp(warps, n) ==> RegionOf(n) in simple)
  }

  lemma PlacedSupported(warps: seq<Warp>, inter: Intersections, n: Net, h: nat)
    requires |n.addr| == |n.mask| == h && Placed(warps, inter, n, h)
    ensures Supported(n)
  {
  }

  lemma PlacedParts(warps: seq<Warp>, inter: Intersections, simple: seq<Net>, list: seq<Net>, k: nat, h: nat)
    requires AllGapped(list, h) && PlacedTo(warps, inter, simple, list, k, h)
    ensures WarpsNormal(warps, h) && InterFits(warps, inter, h)
    ensures AllPlaced(warps, inter, list, k, h) && RegionsIn(warps, simple, list, k, h) && WarpsFrom(warps, list, k, h)
  {
  }

  lemma GapsFirst(list: seq<Net>, h: nat)
    requires NetOrder.Sized(list, h) && GapSorted(list, h) && h > 0 && forall n | n in list :: !Contiguous(n.mask)
    ensures AllGapped(list, h) && WideFirst(list)
  {
    hide GapSize, Sooner, Contiguous;
  }

  /** The simple prefixes are kept in the order of their addresses. */
  lemma KeptInOrder(list: seq<Net>, h: nat)
    requires NetOrder.Sized(list, h) && GapSorted(list, h) && h > 0 && forall n | n in list :: Normal(n)
    ensures Sizes(list, h) && InOrder(list)
  {
    hide Sooner, Before, Normal, Contiguous, FillTail;
    forall i, j | 0 <= i < j < |list| && Contiguous(list[i].mask) && Contiguous(list[j].mask)
      ensures Before(list[i], list[j])
    {
      assert Earlier(list[i], list[j]);
      SoonerBefore(list[i], list[j]);
    }
  }

  /** A prepared network without a warp: its region is simple, the wide network has a warp. */
  lemma ReadiedComposed(warps: seq<Warp>, inter: Intersections, n: Net, h: nat)
    requires Readied(warps, inter, n, h) && !Contiguous(n.mask) && !HasWarp(warps, n)
    ensures IsComposed(warps, inter, n) && Contiguous(RegionOf(n).mask)
    ensures var wide := WideIn(warps, inter, n); !Contiguous(wide.mask) && Supported(wide) && HasWarp(warps, wide)
    ensures Readied(warps, inter, RegionOf(n), h) && Readied(warps, inter, WideIn(warps, inter, n), h)
  {
    hide Contiguous, Supported, WarpOf, RegionOf, WarpKey, WideOf, ComposedBy, WarpMask;
    var j :| 0 <= j < |warps| && ComposedAs(warps[j], inter[WarpKey(n)], n, h);
    WideWarp(warps[j], n, h);
    HasWarpAt(warps, WideOf(n, WarpMask(warps[j], h)), j);
  }

  /** A composed network is the intersection of its pieces. */
  lemma ReadiedCovers(warps: seq<Warp>, inter: Intersections, n: Net, h: nat, x: Digits)
    requires Readied(warps, inter, n, h) && IsComposed(warps, inter, n) && |x| == h
    ensures Covers(n, x) <==> Covers(RegionOf(n), x) && Covers(WideIn(warps, inter, n), x)
  {
    hide Contiguous, Supported, WarpOf, RegionOf, WarpKey, WideOf, ComposedBy, WarpMask, Covers, HasWarp;
    var j :| 0 <= j < |warps| && ComposedAs(warps[j], inter[WarpKey(n)], n, h);
    ComposedCovers(warps[j], n, h, x);
  }

  lemma KnownReadied(warps: seq<Warp>, inter: Intersections, simple: iset<Net>, n: Net, h: nat)
    requires Known(warps, inter, simple, n, h)
    ensures Readied(warps, inter, n, h)
  {
    hide Contiguous, Placed, HasWarp, RegionOf;
  }

  lemma KnownComposed(warps: seq<Warp>, inter: Intersections, simple: iset<Net>, n: Net, h: nat)
    requires Known(warps, inter, simple, n, h) && !Contiguous(n.mask) && !HasWarp(warps, n)
    ensures IsComposed(warps, inter, n) && Contiguous(RegionOf(n).mask) && HasWarp(warps, WideIn(warps, inter, n))
    ensures Known(warps, inter, simple, RegionOf(n), h) && Known(warps, inter, simple, WideIn(warps, inter, n), h)
  {
    hide Contiguous, Placed, HasWarp, RegionOf, WideIn, IsComposed;
    ReadiedComposed(warps, inter, n, h);
  }

  lemma PiecesOwn(warps: seq<Warp>, inter: Intersections, n: Net)
    requires |n.addr| == |n.mask| && (Contiguous(n.mask) || HasWarp(warps, n))
    ensures !IsComposed(warps, inter, n) && PieceCells(warps, inter, n) == CellsOf(warps, n)
  {
  }
}
