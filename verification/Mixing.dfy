/**
  When composed networks are read right: a filter takes an address that is in none of its networks
  exactly when the address mixes parts of different networks of the filter.
*/
module Mixing {
  import opened Base
  import opened Nets
  import opened Masks
  import opened TreeInsert
  import opened TreeGaps
  import opened TreePrepare
  import opened TreeCompose
  import opened Composition

  /** The filter f is one of sized networks, and its gapped networks are among the given ones. */
  ghost predicate Fitting(gapped: NetSet, f: NetSet, h: nat) {
    h > 0 && Clashless(gapped, h) && forall n | n in f ::
      |n.addr| == |n.mask| == h && (Contiguous(n.mask) || n in gapped)
  }

  // ----- mixtures ---------------------------------------------------------------------------

  /** The address is in a prefix or the region of one network, and behind the gap in the tail of another. */
  ghost predicate Crosses(gapped: NetSet, f: NetSet, h: nat, a: Bytes) {
    |a| == h && !InSet(f, a) && Prefixed(gapped, f, a) && Widened(gapped, f, a)
  }

  /**
    The address is in the region of a composed network only, and address b of a prefix of the filter is in no
    tail either.
  */
  ghost predicate BesidePrefix(gapped: NetSet, f: NetSet, h: nat, a: Bytes, n: Net, b: Bytes) {
    && |a| == |b| == h && !InSet(f, a) && Prefixed(gapped, f, a) && !Widened(gapped, f, a)
    && n in f && Contiguous(n.mask) && Covers(n, b) && !Widened(gapped, f, b)
  }

  /**
    The address is in the tail of a composed network only, and address b of a gapped network with a warp is
    in no prefix either.
  */
  ghost predicate BesideGap(gapped: NetSet, f: NetSet, h: nat, a: Bytes, n: Net, b: Bytes) {
    && |a| == |b| == h && !InSet(f, a) && Widened(gapped, f, a) && !Prefixed(gapped, f, a)
    && n in f && !HasRoot(gapped, n) && Covers(n, b) && !Prefixed(gapped, f, b)
  }

  ghost predicate Mixture(gapped: NetSet, f: NetSet, h: nat, a: Bytes) {
    || Crosses(gapped, f, h, a)
    || (exists n, b: Bytes :: BesidePrefix(gapped, f, h, a, n, b))
    || (exists n, b: Bytes :: BesideGap(gapped, f, h, a, n, b))
  }

  lemma AloneParts(gapped: NetSet, f: NetSet, a: Bytes, b: Bytes)
    ensures SameParts(gapped, [f], a, b)
            <==> (Prefixed(gapped, f, a) <==> Prefixed(gapped, f, b))
                 && (Widened(gapped, f, a) <==> Widened(gapped, f, b))
  {
    hide Prefixed, Widened;
    assert [f][0] == f;
  }

  /** Alone, a filter takes an address of none of its networks exactly if the address is a mixture. */
  lemma MixtureExact(gapped: NetSet, f: NetSet, h: nat, a: Bytes)
    requires Fitting(gapped, f, h) && |a| == h
    ensures TakesSet(gapped, [f], f, a) && !InSet(f, a) <==> Mixture(gapped, f, h, a)
  {
    hide TakesSet, InSet, Crosses, BesidePrefix, BesideGap, Fitting;
    if TakesSet(gapped, [f], f, a) && !InSet(f, a) {
      TakenMixes(gapped, f, h, a);
    }
    if Crosses(gapped, f, h, a) {
      CrossTaken(gapped, f, h, a);
    }
    if n, b: Bytes :| BesidePrefix(gapped, f, h, a, n, b) {
      PrefixTaken(gapped, f, h, a, n, b);
    }
    if n, b: Bytes :| BesideGap(gapped, f, h, a, n, b) {
      GapTaken(gapped, f, h, a, n, b);
    }
  }

  lemma TakenMixes(gapped: NetSet, f: NetSet, h: nat, a: Bytes)
    requires Fitting(gapped, f, h) && |a| == h && TakesSet(gapped, [f], f, a) && !InSet(f, a)
    ensures Mixture(gapped, f, h, a)
  {
    hide Contiguous, Clashless, Composed, Covers, InSet, SameParts, RootPart, WidePart;
    var n :| n in f && TakesNet(gapped, [f], n, a);
    if Contiguous(n.mask) {
      var b: Bytes :| |b| == |a| && RootPart(gapped, n, b) && SameParts(gapped, [f], a, b);
      AloneParts(gapped, f, a, b);
      assert Prefixed(gapped, f, b);
      RootCovers(gapped, n, b);
      hide Prefixed, Widened;
      assert Crosses(gapped, f, h, a) || BesidePrefix(gapped, f, h, a, n, b);
    } else {
      var b: Bytes :| |b| == |a| && WidePart(gapped, n, b) && SameParts(gapped, [f], a, b);
      AloneParts(gapped, f, a, b);
      assert Widened(gapped, f, b);
      if HasRoot(gapped, n) {
        var c: Bytes :| |c| == |a| && RootPart(gapped, n, c) && SameParts(gapped, [f], a, c);
        AloneParts(gapped, f, a, c);
        assert Prefixed(gapped, f, c);
        hide Prefixed, Widened;
      } else {
        NetParts(gapped, n, h, b);
        hide Prefixed, Widened;
        assert Crosses(gapped, f, h, a) || BesideGap(gapped, f, h, a, n, b);
      }
    }
  }

  lemma RootCovers(gapped: NetSet, n: Net, b: Bytes)
    requires Contiguous(n.mask) && RootPart(gapped, n, b)
    ensures Covers(n, b)
  {
  }

  lemma CrossTaken(gapped: NetSet, f: NetSet, h: nat, a: Bytes)
    requires Fitting(gapped, f, h) && Crosses(gapped, f, h, a)
    ensures TakesSet(gapped, [f], f, a) && !InSet(f, a)
  {
    hide Contiguous, Clashless, Composed, Covers, SameParts;
    var n :| n in f && RootPart(gapped, n, a);
    assert !Contiguous(n.mask);
    CoversItself(n);
    NetParts(gapped, n, h, n.addr);
    hide RootPart, WidePart, InSet;
    assert Prefixed(gapped, f, n.addr) && Widened(gapped, f, n.addr);
    AloneParts(gapped, f, a, n.addr);
    hide Prefixed, Widened;
    assert TakesNet(gapped, [f], n, a);
  }

  lemma PrefixTaken(gapped: NetSet, f: NetSet, h: nat, a: Bytes, n: Net, b: Bytes)
    requires Fitting(gapped, f, h) && BesidePrefix(gapped, f, h, a, n, b)
    ensures TakesSet(gapped, [f], f, a) && !InSet(f, a)
  {
    hide Contiguous, Clashless, Composed, Covers, SameParts, WidePart;
    assert RootPart(gapped, n, b);
    assert Prefixed(gapped, f, b);
    AloneParts(gapped, f, a, b);
    hide Prefixed, Widened, InSet, RootPart;
    assert TakesNet(gapped, [f], n, a);
  }

  lemma GapTaken(gapped: NetSet, f: NetSet, h: nat, a: Bytes, n: Net, b: Bytes)
    requires Fitting(gapped, f, h) && BesideGap(gapped, f, h, a, n, b)
    ensures TakesSet(gapped, [f], f, a) && !InSet(f, a)
  {
    hide Clashless, Composed, Covers, SameParts;
    assert !Contiguous(n.mask);
    hide Contiguous;
    NetParts(gapped, n, h, b);
    hide RootPart, WidePart, InSet;
    assert Widened(gapped, f, b);
    AloneParts(gapped, f, a, b);
    hide Prefixed, Widened;
    assert TakesNet(gapped, [f], n, a);
  }

  // ----- the filter in a list ---------------------------------------------------------------

  ghost predicate SetsUsable(sets: seq<NetSet>, h: nat) {
    h > 0 && SetsSized(sets, h) && Clashless(GappedOf(sets), h)
  }

  /** Filter k takes exactly the addresses of its networks. */
  ghost predicate Right(sets: seq<NetSet>, k: nat, h: nat)
    requires k < |sets|
  {
    forall a: Bytes | |a| == h :: Takes(sets, k, a) <==> InSet(sets[k], a)
  }

  ghost predicate Unmixed(gapped: NetSet, f: NetSet, h: nat) {
    forall a: Bytes | |a| == h :: !Mixture(gapped, f, h, a)
  }

  lemma UsableFits(sets: seq<NetSet>, k: nat, h: nat)
    requires SetsUsable(sets, h) && k < |sets|
    ensures Fitting(GappedOf(sets), sets[k], h)
  {
    hide Clashless, Contiguous;
    forall n | n in sets[k]
      ensures |n.addr| == |n.mask| == h && (Contiguous(n.mask) || n in GappedOf(sets))
    {
      assert OneOf(sets, n);
    }
  }

  /** Other filters in the list only tell more addresses apart. */
  lemma TakesAlone(gapped: NetSet, sets: seq<NetSet>, k: nat, a: Bytes)
    requires k < |sets| && TakesSet(gapped, sets, sets[k], a)
    ensures TakesSet(gapped, [sets[k]], sets[k], a)
  {
    hide RootPart, WidePart, HasRoot, Contiguous, Prefixed, Widened, SameParts;
    var f := sets[k];
    forall b: Bytes | SameParts(gapped, sets, a, b)
      ensures SameParts(gapped, [f], a, b)
    {
      PartsAlone(gapped, sets, k, a, b);
    }
    var n :| n in f && TakesNet(gapped, sets, n, a);
    assert TakesNet(gapped, [f], n, a);
  }

  lemma PartsAlone(gapped: NetSet, sets: seq<NetSet>, k: nat, a: Bytes, b: Bytes)
    requires k < |sets| && SameParts(gapped, sets, a, b)
    ensures SameParts(gapped, [sets[k]], a, b)
  {
    hide Prefixed, Widened;
  }

  /** Filters without mixtures are read right in every list. */
  lemma RightIf(sets: seq<NetSet>, k: nat, h: nat)
    requires SetsUsable(sets, h) && k < |sets| && Unmixed(GappedOf(sets), sets[k], h)
    ensures Right(sets, k, h)
  {
    hide Mixture, GappedOf, TakesSet, InSet, SetsSized, Clashless, Fitting;
    UsableFits(sets, k, h);
    forall a: Bytes | |a| == h
      ensures Takes(sets, k, a) <==> InSet(sets[k], a)
    {
      if Takes(sets, k, a) {
        TakesAlone(GappedOf(sets), sets, k, a);
        MixtureExact(GappedOf(sets), sets[k], h, a);
      }
      if InSet(sets[k], a) {
        Complete(sets, k, h, a);
      }
    }
  }

  /** One network alone, or networks without a composed one, have no mixtures. */
  lemma NothingComposed(gapped: NetSet, f: NetSet, h: nat)
    requires Fitting(gapped, f, h)
    requires (exists n :: f == iset{n}) || forall n | n in f :: !Composed(gapped, n)
    ensures Unmixed(gapped, f, h)
  {
    hide Fitting, Mixture, InSet, Composed, Prefixed, Widened, TakesSet;
    forall a: Bytes | |a| == h
      ensures !Mixture(gapped, f, h, a)
    {
      MixtureExact(gapped, f, h, a);
      if TakesSet(gapped, [f], f, a) {
        if n :| f == iset{n} {
          SingleTaken(gapped, f, n, h, a);
        } else {
          PlainTaken(gapped, f, h, a);
        }
      }
    }
  }

  lemma SingleTaken(gapped: NetSet, f: NetSet, n: Net, h: nat, a: Bytes)
    requires Fitting(gapped, f, h) && |a| == h && TakesSet(gapped, [f], f, a) && f == iset{n}
    ensures InSet(f, a)
  {
    hide Contiguous, Clashless, Composed, Covers, SameParts, RootPart, WidePart;
    assert TakesNet(gapped, [f], n, a);
    if HasRoot(gapped, n) {
      var b: Bytes :| |b| == |a| && RootPart(gapped, n, b) && SameParts(gapped, [f], a, b);
      AloneParts(gapped, f, a, b);
      assert Prefixed(gapped, f, b);
    }
    if !Contiguous(n.mask) {
      var c: Bytes :| |c| == |a| && WidePart(gapped, n, c) && SameParts(gapped, [f], a, c);
      AloneParts(gapped, f, a, c);
      assert Widened(gapped, f, c);
    }
    NetParts(gapped, n, h, a);
  }

  lemma PlainTaken(gapped: NetSet, f: NetSet, h: nat, a: Bytes)
    requires Fitting(gapped, f, h) && |a| == h && TakesSet(gapped, [f], f, a)
             && forall n | n in f :: !Composed(gapped, n)
    ensures InSet(f, a)
  {
    hide Contiguous, Clashless, Composed, Covers, SameParts, RootPart, WidePart;
    var n :| n in f && TakesNet(gapped, [f], n, a);
    if Contiguous(n.mask) {
      var b: Bytes :| |b| == |a| && RootPart(gapped, n, b) && SameParts(gapped, [f], a, b);
      AloneParts(gapped, f, a, b);
      assert Prefixed(gapped, f, b);
      var m :| m in f && RootPart(gapped, m, a);
      RootOnly(gapped, m, a);
    } else {
      var c: Bytes :| |c| == |a| && WidePart(gapped, n, c) && SameParts(gapped, [f], a, c);
      AloneParts(gapped, f, a, c);
      assert Widened(gapped, f, c);
      var m :| m in f && WidePart(gapped, m, a);
      assert !Contiguous(m.mask) by { WideGapped(gapped, m, a); }
      NetParts(gapped, m, h, a);
    }
  }

  lemma WideGapped(gapped: NetSet, m: Net, a: Bytes)
    requires WidePart(gapped, m, a)
    ensures !Contiguous(m.mask)
  {
  }

  lemma RootOnly(gapped: NetSet, m: Net, a: Bytes)
    requires RootPart(gapped, m, a) && !Composed(gapped, m)
    ensures Covers(m, a) && Contiguous(m.mask)
  {
  }
}
