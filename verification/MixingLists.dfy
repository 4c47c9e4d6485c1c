/** A filter is read right in every list that composes its networks in one way, exactly if it has no mixtures. */
module MixingLists {
  import opened Base
  import opened Nets
  import opened Masks
  import opened TreeInsert
  import opened TreeGaps
  import opened TreePrepare
  import opened TreeCompose
  import opened Composition
  import opened Mixing

  // ----- regions ----------------------------------------------------------------------------

  lemma SubmaskTrans(a: Bytes, b: Bytes, c: Bytes)
    requires Submask(a, b) && Submask(b, c)
    ensures Submask(a, c)
  {
    forall t | 0 <= t < |a|
      ensures Sub(a[t], c[t])
    {
      SubTrans(a[t], b[t], c[t]);
    }
  }

  lemma SubTrans(a: bv8, b: bv8, c: bv8)
    requires Sub(a, b) && Sub(b, c)
    ensures Sub(a, c)
  {
  }

  /** The region of r is around that of p. */
  ghost predicate Above(r: Net, p: Net) {
    && |r.addr| == |r.mask| == |p.addr| == |p.mask| && Overlaps(RegionOf(p), RegionOf(r))
    && Submask(RegionOf(r).mask, RegionOf(p).mask)
  }

  lemma AboveTrans(r: Net, p: Net, q: Net)
    requires Above(r, p) && Above(p, q)
    ensures Above(r, q)
  {
    hide Overlaps, Submask, RegionOf;
    OverlapsUp(RegionOf(q), RegionOf(p), RegionOf(r));
    SubmaskTrans(RegionOf(r).mask, RegionOf(p).mask, RegionOf(q).mask);
  }

  lemma AboveSelf(p: Net)
    requires |p.addr| == |p.mask|
    ensures Above(p, p)
  {
    hide Overlaps, Submask, RegionOf;
    OverlapsSelf(RegionOf(p));
  }

  lemma WiderAbove(p: Net, n: Net)
    requires |p.addr| == |p.mask| == |n.addr| == |n.mask|
    ensures Wider(p, n) <==> Above(p, n) && RegionOf(p).mask != RegionOf(n).mask
  {
    hide Overlaps, Submask, RegionOf;
    OverlapsSym(RegionOf(p), RegionOf(n));
  }

  lemma WiderShorter(p: Net, n: Net)
    requires Wider(p, n) && Supported(p) && Supported(n)
    ensures Length(RegionOf(p).mask) < Length(RegionOf(n).mask)
  {
    hide Overlaps, Submask, RegionOf, Supported, Length;
    RegionLeading(p);
    RegionLeading(n);
    if Length(RegionOf(n).mask) <= Length(RegionOf(p).mask) {
      LengthOrder(RegionOf(n).mask, RegionOf(p).mask);
      SubmaskBoth(RegionOf(p).mask, RegionOf(n).mask);
    }
  }

  /** Every gapped network is in the region of one that is not composed. */
  lemma {:induction false} RootAbove(gapped: NetSet, h: nat, q: Net) returns (r: Net)
    requires Clashless(gapped, h) && q in gapped
    ensures r in gapped && !Composed(gapped, r) && Above(r, q)
    decreases Length(RegionOf(q).mask)
  {
    hide Overlaps, Submask, RegionOf, Supported, Length, Contiguous, Together;
    if Composed(gapped, q) {
      var p :| p in gapped && Wider(p, q);
      WiderShorter(p, q);
      WiderAbove(p, q);
      r := RootAbove(gapped, h, p);
      AboveTrans(r, p, q);
    } else {
      r := q;
      AboveSelf(q);
    }
  }

  // ----- a network with a given region ------------------------------------------------------

  ghost function Twin(q: Net, v: bv8, h: nat): (p: Net)
    requires |q.addr| == |q.mask| == h && GapLevel(q) < h
    ensures |p.addr| == |p.mask| == h
  {
    var l := GapLevel(q);
    Net(RegionOf(q).addr[..l] + seq(h - 1 - l, _ => 0) + [v], WarpMask(Warp(RegionOf(q), l, 0), h))
  }

  /** The network has the region of q, and its addresses end with byte v. */
  lemma TwinIs(q: Net, v: bv8, h: nat)
    requires |q.addr| == |q.mask| == h > 0 && !Contiguous(q.mask) && Supported(q)
    ensures GapLevel(q) < h
    ensures var p := Twin(q, v, h);
            !Contiguous(p.mask) && Supported(p) && RegionOf(p) == RegionOf(q)
            && GapLevel(p) == GapLevel(q)
  {
    hide *;
    WarpMaskIs(q, h);
    RegionNormal(q);
    RegionBytes(q, h);
    var w, p := Warp(RegionOf(q), GapLevel(q), 0), Twin(q, v, h);
    TwinParts(q, v, h);
    WarpClear(w, h);
    TwinFill(w, h);
    TwinAddress(RegionOf(q), p.addr, GapLevel(q), h);
    WideIs(w, p);
    OwnWarp(w, p);
  }

  lemma TwinParts(q: Net, v: bv8, h: nat)
    requires |q.addr| == |q.mask| == h && GapLevel(q) < h
    ensures Twin(q, v, h).mask == WarpMask(Warp(RegionOf(q), GapLevel(q), 0), h)
    ensures Twin(q, v, h).addr[..GapLevel(q)] == RegionOf(q).addr[..GapLevel(q)] && Twin(q, v, h).addr[h - 1] == v
  {
    hide RegionOf, GapLevel, WarpMask;
  }

  lemma TwinFill(w: Warp, h: nat)
    requires IsRegion(w.region, w.level, h)
    ensures w.level <= |w.region.mask| == h && FillTail(WarpMask(w, h)) == WarpMask(w, h) && !Contiguous(WarpMask(w, h))
  {
    RegionSizes(w.region, w.level, h);
    hide IsRegion, Contiguous, FillTail, Fill;
    FillLeading(0xFF);
    FilledMask(w, WarpMask(w, h), WarpMask(w, h), h, h - 1);
  }

  lemma TwinAddress(r: Net, addr: Bytes, l: nat, h: nat)
    requires |addr| == |r.addr| == |r.mask| == h && l <= h && Normal(r) && addr[..l] == r.addr[..l]
    requires forall t | l <= t < h :: r.mask[t] == 0
    ensures And(addr, r.mask) == r.addr
  {
    forall t | 0 <= t < h
      ensures addr[t] & r.mask[t] == r.addr[t]
    {
      if t < l {
        assert addr[t] == addr[..l][t] == r.addr[t];
      }
      MaskedByte(addr[t], r.addr[t], r.mask[t]);
    }
  }

  lemma MaskedByte(x: bv8, a: bv8, m: bv8)
    requires Sub(a, m) && (x == a || m == 0)
    ensures x & m == a
  {
  }

  lemma TwinEnds(q: Net, v: bv8, h: nat, x: Bytes)
    requires |q.addr| == |q.mask| == |x| == h > 0 && !Contiguous(q.mask) && Supported(q) && GapLevel(q) < h
    requires Covers(TailOf(Twin(q, v, h), GapLevel(q)), x[GapLevel(q)..])
    ensures x[h - 1] == v
  {
    hide RegionOf, Supported, Contiguous, Covers;
    WarpMaskIs(q, h);
    TwinParts(q, v, h);
    var l, p := GapLevel(q), Twin(q, v, h);
    TailEnds(p, l, h, x);
  }

  lemma TailEnds(p: Net, l: nat, h: nat, x: Bytes)
    requires |p.addr| == |p.mask| == |x| == h && l < h && p.mask[h - 1] == 0xFF && Covers(TailOf(p, l), x[l..])
    ensures x[h - 1] == p.addr[h - 1]
  {
    hide Agree;
    assert Agree(x[l..][h - 1 - l], TailOf(p, l).mask[h - 1 - l], TailOf(p, l).addr[h - 1 - l]);
    AgreeEnds(x[h - 1], p.addr[h - 1]);
  }

  // ----- the list ---------------------------------------------------------------------------

  /** For every gapped network that is not composed one with its region, with addresses that end with byte v. */
  ghost function Twins(gapped: NetSet, v: bv8, h: nat): NetSet {
    iset p | SomeTwin(gapped, v, h, p)
  }

  ghost predicate SomeTwin(gapped: NetSet, v: bv8, h: nat, p: Net) {
    exists q :: IsTwin(gapped, v, h, q, p)
  }

  ghost predicate IsTwin(gapped: NetSet, v: bv8, h: nat, q: Net, p: Net) {
    q in gapped && !Composed(gapped, q) && |q.addr| == |q.mask| == h && GapLevel(q) < h && p == Twin(q, v, h)
  }

  /** The network has the region of one of the given gapped networks. */
  ghost predicate Stems(gapped: NetSet, p: Net, q: Net, h: nat) {
    && q in gapped && |p.addr| == |p.mask| == |q.addr| == |q.mask| == h
    && !Contiguous(p.mask) && Supported(p) && RegionOf(p) == RegionOf(q) && GapLevel(p) == GapLevel(q)
  }

  ghost function Host(gapped: NetSet, f: NetSet, v: bv8, h: nat): seq<NetSet> {
    [f, Twins(gapped, v, h)]
  }

  lemma TwinStems(gapped: NetSet, v: bv8, h: nat, q: Net, p: Net)
    requires h > 0 && Clashless(gapped, h) && IsTwin(gapped, v, h, q, p)
    ensures Stems(gapped, p, q, h)
  {
    hide Contiguous, Supported, RegionOf, GapLevel, Together, Composed, Twin;
    TwinIs(q, v, h);
  }

  lemma RootTwin(gapped: NetSet, f: NetSet, v: bv8, h: nat, q: Net) returns (p: Net)
    requires Fitting(gapped, f, h) && q in gapped && !Composed(gapped, q)
    ensures p in GappedOf(Host(gapped, f, v, h)) && Stems(gapped, p, q, h)
  {
    hide Contiguous, Supported, RegionOf, GapLevel, Together, Composed, Twin;
    TwinIs(q, v, h);
    p := Twin(q, v, h);
    assert IsTwin(gapped, v, h, q, p);
    var sets := Host(gapped, f, v, h);
    assert p in sets[1];
  }

  /** Every gapped network of the list has the region of one of the given ones. */
  lemma HostStems(gapped: NetSet, f: NetSet, v: bv8, h: nat, p: Net) returns (q: Net)
    requires Fitting(gapped, f, h) && p in GappedOf(Host(gapped, f, v, h))
    ensures Stems(gapped, p, q, h)
  {
    hide Contiguous, Supported, RegionOf, GapLevel, Together, Composed, Twin;
    if p in f {
      q := p;
    } else {
      q :| IsTwin(gapped, v, h, q, p);
      TwinStems(gapped, v, h, q, p);
    }
  }

  lemma HostUsable(gapped: NetSet, f: NetSet, v: bv8, h: nat)
    requires Fitting(gapped, f, h)
    ensures SetsUsable(Host(gapped, f, v, h), h)
  {
    hide Contiguous, Supported, RegionOf, GapLevel, Twin, Overlaps;
    var sets := Host(gapped, f, v, h);
    forall n | OneOf(sets, n)
      ensures |n.addr| == |n.mask| == h
    {
      if n !in f {
        assert n in sets[1];
      }
    }
    forall n | n in GappedOf(sets)
      ensures |n.addr| == |n.mask| == h && !Contiguous(n.mask) && Supported(n)
    {
      var q := HostStems(gapped, f, v, h, n);
    }
    hide GappedOf;
    forall n, m | n in GappedOf(sets) && m in GappedOf(sets) && |n.addr| == |n.mask| == |m.addr| == |m.mask|
      ensures Together(n, m)
    {
      var q := HostStems(gapped, f, v, h, n);
      var q' := HostStems(gapped, f, v, h, m);
      assert Together(q, q');
    }
  }

  // ----- the list composes the filter in the same way ---------------------------------------

  ghost predicate SameNet(gapped: NetSet, gapped': NetSet, n: Net, h: nat) {
    && (Composed(gapped, n) <==> Composed(gapped', n))
    && (forall a: Bytes | |a| == h :: InReach(gapped, n, a) <==> InReach(gapped', n, a))
  }

  /** The networks of the filter are composed in the same way. */
  ghost predicate SameComposition(gapped: NetSet, gapped': NetSet, f: NetSet, h: nat) {
    forall n | n in f && !Contiguous(n.mask) :: SameNet(gapped, gapped', n, h)
  }

  lemma StemWider(gapped: NetSet, p: Net, q: Net, n: Net, h: nat)
    requires Stems(gapped, p, q, h) && |n.addr| == |n.mask| == h
    ensures Wider(p, n) <==> Wider(q, n)
    ensures forall a: Bytes :: Spans(p, n, a) <==> Spans(q, n, a)
  {
    hide RegionOf, GapLevel, Overlaps, Submask, Covers;
  }

  lemma HostSame(gapped: NetSet, f: NetSet, v: bv8, h: nat, n: Net)
    requires Fitting(gapped, f, h) && n in gapped
    ensures SameNet(gapped, GappedOf(Host(gapped, f, v, h)), n, h)
  {
    hide Fitting, Contiguous, Wider, Stems, GappedOf, Host, Spans, Composed;
    var gapped' := GappedOf(Host(gapped, f, v, h));
    GappedSized(gapped, f, h, n);
    assert Composed(gapped, n) <==> Composed(gapped', n) by { HostComposed(gapped, f, v, h, n); }
    forall a: Bytes | |a| == h
      ensures InReach(gapped, n, a) <==> InReach(gapped', n, a)
    {
      if q :| q in gapped && Spans(q, n, a) {
        SpanUp(gapped, f, v, h, n, q, a);
      }
      if p :| p in gapped' && Spans(p, n, a) {
        var q := HostStems(gapped, f, v, h, p);
        StemWider(gapped, p, q, n, h);
        StemIn(gapped, p, q, h);
      }
    }
  }

  lemma StemIn(gapped: NetSet, p: Net, q: Net, h: nat)
    requires Stems(gapped, p, q, h)
    ensures q in gapped
  {
  }

  lemma GappedSized(gapped: NetSet, f: NetSet, h: nat, n: Net)
    requires Fitting(gapped, f, h) && n in gapped
    ensures |n.addr| == |n.mask| == h > 0 && !Contiguous(n.mask) && Supported(n) && Clashless(gapped, h)
  {
    hide Contiguous, Supported, Together;
  }

  lemma HostComposed(gapped: NetSet, f: NetSet, v: bv8, h: nat, n: Net)
    requires Fitting(gapped, f, h) && n in gapped
    ensures Composed(gapped, n) <==> Composed(GappedOf(Host(gapped, f, v, h)), n)
  {
    hide Fitting, Contiguous, Wider, Stems, GappedOf, Host;
    var gapped' := GappedOf(Host(gapped, f, v, h));
    GappedSized(gapped, f, h, n);
    if q :| q in gapped && Wider(q, n) {
      WiderUp(gapped, f, v, h, n, q);
    }
    if p :| p in gapped' && Wider(p, n) {
      var q := HostStems(gapped, f, v, h, p);
      StemWider(gapped, p, q, n, h);
      StemIn(gapped, p, q, h);
    }
  }

  lemma WiderUp(gapped: NetSet, f: NetSet, v: bv8, h: nat, n: Net, q: Net)
    requires Fitting(gapped, f, h) && n in gapped && q in gapped && Wider(q, n)
    ensures exists p :: p in GappedOf(Host(gapped, f, v, h)) && Wider(p, n)
  {
    hide *;
    GappedSized(gapped, f, h, n);
    GappedSized(gapped, f, h, q);
    var r := RootAbove(gapped, h, q);
    GappedSized(gapped, f, h, r);
    WiderAbove(q, n);
    AboveTrans(r, q, n);
    if RegionOf(r).mask == RegionOf(n).mask {
      AboveMasks(r, q);
      AboveMasks(q, n);
      SubmaskBoth(RegionOf(q).mask, RegionOf(n).mask);
    }
    WiderAbove(r, n);
    var p := RootTwin(gapped, f, v, h, r);
    StemWider(gapped, p, r, n, h);
  }

  lemma AboveMasks(r: Net, p: Net)
    requires Above(r, p)
    ensures |r.addr| == |r.mask| == |p.addr| == |p.mask| && Submask(RegionOf(r).mask, RegionOf(p).mask)
    ensures Overlaps(RegionOf(p), RegionOf(r))
  {
  }

  lemma SpanUp(gapped: NetSet, f: NetSet, v: bv8, h: nat, n: Net, q: Net, a: Bytes)
    requires Fitting(gapped, f, h) && n in gapped && q in gapped && Spans(q, n, a) && |a| == h
    ensures exists p :: p in GappedOf(Host(gapped, f, v, h)) && Spans(p, n, a)
  {
    hide *;
    GappedSized(gapped, f, h, n);
    GappedSized(gapped, f, h, q);
    var r := RootAbove(gapped, h, q);
    GappedSized(gapped, f, h, r);
    AboveMasks(r, q);
    SpanParts(q, n, a);
    OverlapsSym(RegionOf(q), RegionOf(n));
    OverlapsUp(RegionOf(n), RegionOf(q), RegionOf(r));
    OverlapsSym(RegionOf(n), RegionOf(r));
    InnerCovers(RegionOf(q), RegionOf(r), a);
    SpanFrom(r, n, a);
    var p := RootTwin(gapped, f, v, h, r);
    StemWider(gapped, p, r, n, h);
  }

  lemma SpanParts(p: Net, n: Net, a: Bytes)
    requires Spans(p, n, a)
    ensures |p.addr| == |p.mask| == |n.addr| == |n.mask| && Overlaps(RegionOf(p), RegionOf(n)) && Covers(RegionOf(p), a)
  {
  }

  lemma SpanFrom(p: Net, n: Net, a: Bytes)
    requires |p.addr| == |p.mask| == |n.addr| == |n.mask| && Overlaps(RegionOf(p), RegionOf(n))
             && Covers(RegionOf(p), a)
    ensures Spans(p, n, a)
  {
  }

  /** Filters that are composed in the same way have the same parts. */
  lemma PartsKept(gapped: NetSet, gapped': NetSet, f: NetSet, h: nat, a: Bytes)
    requires SameComposition(gapped, gapped', f, h) && |a| == h
    ensures Prefixed(gapped, f, a) <==> Prefixed(gapped', f, a)
    ensures Widened(gapped, f, a) <==> Widened(gapped', f, a)
  {
    hide Contiguous, Composed, InReach, Covers, RegionOf, TailOf, GapLevel;
    forall n | n in f
      ensures RootPart(gapped, n, a) <==> RootPart(gapped', n, a)
      ensures WidePart(gapped, n, a) <==> WidePart(gapped', n, a)
    {
      assert Contiguous(n.mask) || SameNet(gapped, gapped', n, h);
    }
    hide RootPart, WidePart;
  }

  lemma NetKept(gapped: NetSet, gapped': NetSet, f: NetSet, h: nat, n: Net, a: Bytes)
    requires SameComposition(gapped, gapped', f, h) && |a| == h && n in f
    ensures HasRoot(gapped, n) <==> HasRoot(gapped', n)
    ensures RootPart(gapped, n, a) <==> RootPart(gapped', n, a)
    ensures WidePart(gapped, n, a) <==> WidePart(gapped', n, a)
  {
    hide Contiguous, InReach, Covers, RegionOf, TailOf, GapLevel, Wider;
    assert Contiguous(n.mask) || SameNet(gapped, gapped', n, h);
    assert Composed(gapped, n) ==> !Contiguous(n.mask);
    assert Composed(gapped', n) ==> !Contiguous(n.mask);
    hide Composed;
  }

  /** The mixtures are those of the composition. */
  lemma MixtureKept(gapped: NetSet, gapped': NetSet, f: NetSet, h: nat)
    requires SameComposition(gapped, gapped', f, h) && Unmixed(gapped, f, h)
    ensures Unmixed(gapped', f, h)
  {
    hide Prefixed, Widened, InSet, Covers, Contiguous, SameComposition, HasRoot;
    forall a: Bytes | |a| == h
      ensures !Mixture(gapped', f, h, a)
    {
      assert !Mixture(gapped, f, h, a);
      PartsKept(gapped, gapped', f, h, a);
      forall n, b: Bytes
        ensures BesidePrefix(gapped', f, h, a, n, b) ==> BesidePrefix(gapped, f, h, a, n, b)
        ensures BesideGap(gapped', f, h, a, n, b) ==> BesideGap(gapped, f, h, a, n, b)
      {
        if n in f && |b| == h {
          PartsKept(gapped, gapped', f, h, b);
          NetKept(gapped, gapped', f, h, n, b);
        }
      }
    }
  }

  lemma HostComposition(gapped: NetSet, f: NetSet, v: bv8, h: nat)
    requires Fitting(gapped, f, h)
    ensures SameComposition(gapped, GappedOf(Host(gapped, f, v, h)), f, h)
  {
    hide SameNet, Contiguous, Clashless, GappedOf, Host;
    forall n | n in f && !Contiguous(n.mask)
      ensures SameNet(gapped, GappedOf(Host(gapped, f, v, h)), n, h)
    {
      HostSame(gapped, f, v, h, n);
    }
  }

  /** Addresses that do not end with byte v are in no part of the other filter of the list. */
  lemma TwinsApart(gapped: NetSet, f: NetSet, v: bv8, h: nat, x: Bytes)
    requires Fitting(gapped, f, h) && |x| == h && x[h - 1] != v
    ensures !Prefixed(GappedOf(Host(gapped, f, v, h)), Twins(gapped, v, h), x)
    ensures !Widened(GappedOf(Host(gapped, f, v, h)), Twins(gapped, v, h), x)
  {
    hide Fitting, GappedOf, Host;
    forall p | p in Twins(gapped, v, h)
      ensures !RootPart(GappedOf(Host(gapped, f, v, h)), p, x) && !WidePart(GappedOf(Host(gapped, f, v, h)), p, x)
    {
      hide RootPart, WidePart, IsTwin;
      var q :| IsTwin(gapped, v, h, q, p);
      TwinApart(gapped, f, v, h, q, p, x);
    }
    hide RootPart, WidePart;
  }

  lemma TwinApart(gapped: NetSet, f: NetSet, v: bv8, h: nat, q: Net, p: Net, x: Bytes)
    requires Fitting(gapped, f, h) && IsTwin(gapped, v, h, q, p) && |x| == h && x[h - 1] != v
    ensures !RootPart(GappedOf(Host(gapped, f, v, h)), p, x) && !WidePart(GappedOf(Host(gapped, f, v, h)), p, x)
  {
    hide Fitting, GappedOf, Host, Contiguous, Supported, RegionOf, GapLevel, Wider, InReach, Covers, TailOf, Twin;
    GappedSized(gapped, f, h, q);
    TwinStems(gapped, v, h, q, p);
    var gapped' := GappedOf(Host(gapped, f, v, h));
    if r :| r in gapped' && Wider(r, p) {
      var s := HostStems(gapped, f, v, h, r);
      StemWider(gapped, r, s, p, h);
      StemWiderTo(gapped, p, q, s, h);
    }
    if WidePart(gapped', p, x) {
      TwinEnds(q, v, h, x);
    }
  }

  lemma StemWiderTo(gapped: NetSet, p: Net, q: Net, r: Net, h: nat)
    requires Stems(gapped, p, q, h) && |r.addr| == |r.mask| == h
    ensures Wider(r, p) <==> Wider(r, q)
  {
    hide RegionOf, GapLevel, Overlaps, Submask, Supported, Contiguous;
  }

  lemma HostParts(gapped: NetSet, f: NetSet, v: bv8, h: nat, a: Bytes, b: Bytes)
    requires Fitting(gapped, f, h) && |a| == |b| == h && a[h - 1] != v && b[h - 1] != v && SameParts(gapped, [f], a, b)
    ensures SameParts(GappedOf(Host(gapped, f, v, h)), Host(gapped, f, v, h), a, b)
  {
    hide Fitting, Prefixed, Widened, GappedOf, Twins, SameComposition;
    var gapped' := GappedOf(Host(gapped, f, v, h));
    AloneParts(gapped, f, a, b);
    HostComposition(gapped, f, v, h);
    PartsKept(gapped, gapped', f, h, a);
    PartsKept(gapped, gapped', f, h, b);
    TwinsApart(gapped, f, v, h, a);
    TwinsApart(gapped, f, v, h, b);
  }

  /** What the filter takes alone it takes in the list, if no witness ends with byte v. */
  lemma HostTakes(gapped: NetSet, f: NetSet, v: bv8, h: nat, a: Bytes, n: Net, b: Bytes, c: Bytes)
    requires Fitting(gapped, f, h) && |a| == |b| == |c| == h && n in f && a[h - 1] != v && b[h - 1] != v
             && c[h - 1] != v
    requires HasRoot(gapped, n) ==> RootPart(gapped, n, b) && SameParts(gapped, [f], a, b)
    requires !Contiguous(n.mask) ==> WidePart(gapped, n, c) && SameParts(gapped, [f], a, c)
    ensures Takes(Host(gapped, f, v, h), 0, a)
  {
    hide Fitting, RootPart, WidePart, HasRoot, Contiguous, SameParts, GappedOf, SameComposition;
    var sets := Host(gapped, f, v, h);
    HostComposition(gapped, f, v, h);
    NetKept(gapped, GappedOf(sets), f, h, n, b);
    NetKept(gapped, GappedOf(sets), f, h, n, c);
    if HasRoot(gapped, n) {
      HostParts(gapped, f, v, h, a, b);
    }
    if !Contiguous(n.mask) {
      HostParts(gapped, f, v, h, a, c);
    }
    hide Host;
    assert TakesNet(GappedOf(sets), sets, n, a);
  }

  lemma OtherByte(x: bv8, y: bv8, z: bv8) returns (v: bv8)
    ensures v != x && v != y && v != z
  {
    v := if 0 != x && 0 != y && 0 != z then 0
         else if 1 != x && 1 != y && 1 != z then 1
         else if 2 != x && 2 != y && 2 != z then 2 else 3;
  }

  /** A mixture is taken in some list. */
  lemma MixtureHost(gapped: NetSet, f: NetSet, h: nat, a: Bytes) returns (v: bv8)
    requires Fitting(gapped, f, h) && |a| == h && TakesSet(gapped, [f], f, a)
    ensures Takes(Host(gapped, f, v, h), 0, a)
  {
    hide Clashless, RootPart, WidePart, HasRoot, Contiguous, SameParts, Host, Takes;
    var n :| n in f && TakesNet(gapped, [f], n, a);
    var b, c := a, a;
    if HasRoot(gapped, n) {
      b :| |b| == |a| && RootPart(gapped, n, b) && SameParts(gapped, [f], a, b);
    }
    if !Contiguous(n.mask) {
      c :| |c| == |a| && WidePart(gapped, n, c) && SameParts(gapped, [f], a, c);
    }
    v := OtherByte(a[h - 1], b[h - 1], c[h - 1]);
    HostTakes(gapped, f, v, h, a, n, b, c);
  }

  // ----- finite filters ---------------------------------------------------------------------

  ghost predicate ListOf(list: seq<Net>, f: NetSet) {
    forall n :: n in f <==> n in list
  }

  ghost predicate Finite(f: NetSet) {
    exists list: seq<Net> :: ListOf(list, f)
  }

  lemma TwinsFinite(gapped: NetSet, v: bv8, h: nat)
    requires Finite(gapped)
    ensures Finite(Twins(gapped, v, h))
  {
    hide IsTwin;
    var list: seq<Net> :| ListOf(list, gapped);
    var twins: seq<Net> := [];
    for i := 0 to |list|
      invariant forall p :: p in twins <==> exists q :: q in list[..i] && IsTwin(gapped, v, h, q, p)
    {
      ghost var was := twins;
      if p :| IsTwin(gapped, v, h, list[i], p) {
        twins := twins + [p];
        OneTwin(gapped, v, h, list[i]);
      }
      assert list[..i + 1] == list[..i] + [list[i]];
    }
    assert list[..|list|] == list;
    forall p
      ensures SomeTwin(gapped, v, h, p) <==> p in twins
    {
      if q :| IsTwin(gapped, v, h, q, p) {
        TwinOf(gapped, v, h, q, p);
        assert q in list;
      }
    }
    assert ListOf(twins, Twins(gapped, v, h));
  }

  lemma OneTwin(gapped: NetSet, v: bv8, h: nat, q: Net)
    ensures forall p, p' :: IsTwin(gapped, v, h, q, p) && IsTwin(gapped, v, h, q, p') ==> p == p'
  {
  }

  lemma TwinOf(gapped: NetSet, v: bv8, h: nat, q: Net, p: Net)
    requires IsTwin(gapped, v, h, q, p)
    ensures q in gapped
  {
  }

  // ----- the theorem ------------------------------------------------------------------------

  /** Filter k of the list of finite filters is f, composed as by the given gapped networks. */
  ghost predicate Hosts(sets: seq<NetSet>, k: nat, f: NetSet, gapped: NetSet, h: nat): (b: bool)
    ensures b ==> k < |sets|
  {
    && k < |sets| && sets[k] == f && (forall j | 0 <= j < |sets| :: Finite(sets[j]))
    && SetsUsable(sets, h) && SameComposition(gapped, GappedOf(sets), f, h)
  }

  /**
    A filter is read right in every list that composes its networks in one way, exactly if no address
    mixes parts of its networks.
  */
  lemma RightExact(gapped: NetSet, f: NetSet, h: nat)
    requires Fitting(gapped, f, h) && Finite(gapped) && Finite(f)
    ensures Unmixed(gapped, f, h)
            <==> forall sets: seq<NetSet>, k: nat | Hosts(sets, k, f, gapped, h) :: Right(sets, k, h)
  {
    hide Fitting, Mixture, SetsUsable, SameComposition, GappedOf, Takes, InSet, TakesSet, Host, Finite;
    if Unmixed(gapped, f, h) {
      forall sets: seq<NetSet>, k: nat | Hosts(sets, k, f, gapped, h)
        ensures Right(sets, k, h)
      {
        MixtureKept(gapped, GappedOf(sets), f, h);
        RightIf(sets, k, h);
      }
    } else {
      var a: Bytes :| |a| == h && Mixture(gapped, f, h, a);
      MixtureExact(gapped, f, h, a);
      var v := MixtureHost(gapped, f, h, a);
      HostIs(gapped, f, v, h);
      assert !Right(Host(gapped, f, v, h), 0, h);
    }
  }

  lemma HostIs(gapped: NetSet, f: NetSet, v: bv8, h: nat)
    requires Fitting(gapped, f, h) && Finite(gapped) && Finite(f)
    ensures |Host(gapped, f, v, h)| == 2 && Host(gapped, f, v, h)[0] == f
            && Hosts(Host(gapped, f, v, h), 0, f, gapped, h)
  {
    hide Fitting, SetsUsable, SameComposition, GappedOf, Finite;
    TwinsFinite(gapped, v, h);
    HostUsable(gapped, f, v, h);
    HostComposition(gapped, f, v, h);
  }
}
