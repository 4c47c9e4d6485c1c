/**
  Sets of networks, and what the address tree makes of them: every network is inserted as one or
  two parts, a prefix under the root and a part behind a gap, and read back as the groups that its
  parts have in common.
*/
module Composition {
  import opened Base
  import opened Nets
  import opened Masks
  import opened TreeInsert
  import opened TreeGaps
  import opened TreePrepare
  import opened TreeCompose

  /** A filter as a set of networks. */
  type NetSet = iset<Net>

  ghost predicate InSet(f: NetSet, a: Bytes) {
    exists n :: n in f && Covers(n, a)
  }

  ghost predicate OneOf(sets: seq<NetSet>, n: Net) {
    exists k :: 0 <= k < |sets| && n in sets[k]
  }

  /** The networks of the filters whose masks have gaps. */
  ghost function GappedOf(sets: seq<NetSet>): NetSet {
    iset n | OneOf(sets, n) && !Contiguous(n.mask)
  }

  // ----- the parts of a network -------------------------------------------------------------

  /** The gapped network p has a wider region around that of n. */
  ghost predicate Wider(p: Net, n: Net) {
    && |p.addr| == |p.mask| == |n.addr| == |n.mask| && Overlaps(RegionOf(p), RegionOf(n))
    && Submask(RegionOf(p).mask, RegionOf(n).mask) && RegionOf(p).mask != RegionOf(n).mask
  }

  /** The network has no warp of its own. */
  ghost predicate Composed(gapped: NetSet, n: Net) {
    !Contiguous(n.mask) && exists p :: p in gapped && Wider(p, n)
  }

  ghost predicate HasRoot(gapped: NetSet, n: Net) {
    Contiguous(n.mask) || Composed(gapped, n)
  }

  /** The region of p overlaps that of n and contains the address. */
  ghost predicate Spans(p: Net, n: Net, a: Bytes) {
    |p.addr| == |p.mask| == |n.addr| == |n.mask| && Overlaps(RegionOf(p), RegionOf(n)) && Covers(RegionOf(p), a)
  }

  /** The address is in the widest region around the network. */
  ghost predicate InReach(gapped: NetSet, n: Net, a: Bytes) {
    exists p :: p in gapped && Spans(p, n, a)
  }

  /** The part under the root: the network itself, or its region if it is composed. */
  ghost predicate RootPart(gapped: NetSet, n: Net, a: Bytes) {
    |n.addr| == |n.mask| && if Contiguous(n.mask) then Covers(n, a) else Composed(gapped, n) && Covers(RegionOf(n), a)
  }

  /** The part behind the gap: the last part of the network, in the widest region around it. */
  ghost predicate WidePart(gapped: NetSet, n: Net, a: Bytes) {
    && |n.addr| == |n.mask| == |a| && !Contiguous(n.mask) && GapLevel(n) <= |a|
    && InReach(gapped, n, a) && Covers(TailOf(n, GapLevel(n)), a[GapLevel(n)..])
  }

  ghost predicate Prefixed(gapped: NetSet, f: NetSet, a: Bytes) {
    exists n :: n in f && RootPart(gapped, n, a)
  }

  ghost predicate Widened(gapped: NetSet, f: NetSet, a: Bytes) {
    exists n :: n in f && WidePart(gapped, n, a)
  }

  // ----- what the groups tell ---------------------------------------------------------------

  /** The addresses are in the same parts of the filters. */
  ghost predicate SameParts(gapped: NetSet, sets: seq<NetSet>, a: Bytes, b: Bytes) {
    forall k | 0 <= k < |sets| ::
      (Prefixed(gapped, sets[k], a) <==> Prefixed(gapped, sets[k], b))
      && (Widened(gapped, sets[k], a) <==> Widened(gapped, sets[k], b))
  }

  ghost predicate RootTaken(gapped: NetSet, sets: seq<NetSet>, n: Net, a: Bytes) {
    exists b: Bytes :: |b| == |a| && RootPart(gapped, n, b) && SameParts(gapped, sets, a, b)
  }

  ghost predicate WideTaken(gapped: NetSet, sets: seq<NetSet>, n: Net, a: Bytes) {
    exists b: Bytes :: |b| == |a| && WidePart(gapped, n, b) && SameParts(gapped, sets, a, b)
  }

  /** Every part of the network has an address in the same parts of the filters as address a. */
  ghost predicate TakesNet(gapped: NetSet, sets: seq<NetSet>, n: Net, a: Bytes) {
    && (HasRoot(gapped, n) ==> RootTaken(gapped, sets, n, a))
    && (!Contiguous(n.mask) ==> WideTaken(gapped, sets, n, a))
  }

  ghost predicate TakesSet(gapped: NetSet, sets: seq<NetSet>, f: NetSet, a: Bytes) {
    exists n :: n in f && TakesNet(gapped, sets, n, a)
  }

  /** Filter k takes address a for one of its own. */
  ghost predicate Takes(sets: seq<NetSet>, k: nat, a: Bytes)
    requires k < |sets|
  {
    TakesSet(GappedOf(sets), sets, sets[k], a)
  }

  // ----- a network is its parts -------------------------------------------------------------

  /** The gapped networks are supported, and the last parts of overlapping ones start together. */
  ghost predicate Clashless(gapped: NetSet, h: nat) {
    && (forall n | n in gapped :: |n.addr| == |n.mask| == h && !Contiguous(n.mask) && Supported(n))
    && (forall n, m | n in gapped && m in gapped && |n.addr| == |n.mask| == |m.addr| == |m.mask| :: Together(n, m))
  }

  lemma GappedCovers(n: Net, h: nat, a: Bytes)
    requires |n.addr| == |n.mask| == |a| == h > 0 && !Contiguous(n.mask) && Supported(n)
    ensures 0 < GapLevel(n) < h
            && (Covers(n, a) <==> Covers(RegionOf(n), a) && Covers(TailOf(n, GapLevel(n)), a[GapLevel(n)..]))
  {
    hide Contiguous, Supported, RegionOf, GapLevel, Covers;
    RegionBytes(n, h);
    var w := Warp(RegionOf(n), GapLevel(n), 0);
    WarpIs(n, w);
    TailCovers(n, w, h);
    RegionShort(w.region, w.level, a);
  }

  lemma RegionShort(r: Net, l: nat, a: Bytes)
    requires |r.addr| == |r.mask| == |a| && l <= |a| && forall t | l <= t < |a| :: r.mask[t] == 0
    ensures Covers(r, a) <==> Covers(r, a[..l])
  {
    hide Agree;
    if Covers(r, a[..l]) {
      forall t | 0 <= t < |a|
        ensures Agree(a[t], r.mask[t], r.addr[t])
      {
        if t < l {
          assert Agree(a[..l][t], r.mask[t], r.addr[t]);
        } else {
          AgreeEnds(a[t], r.addr[t]);
        }
      }
    }
  }

  lemma InnerByte(x: bv8, a: bv8, m: bv8, b: bv8, k: bv8)
    requires Agree(a, m & k, b) && Sub(k, m) && Agree(x, m, a)
    ensures Agree(x, k, b)
  {
  }

  /** Of overlapping regions the one with the longer mask lies in the other. */
  lemma InnerCovers(p: Net, n: Net, a: Bytes)
    requires |p.addr| == |p.mask| == |n.addr| == |n.mask| == |a| && Overlaps(p, n) && Submask(n.mask, p.mask)
             && Covers(p, a)
    ensures Covers(n, a)
  {
    hide Agree, Sub;
    forall t | 0 <= t < |a|
      ensures Agree(a[t], n.mask[t], n.addr[t])
    {
      InnerByte(a[t], p.addr[t], p.mask[t], n.addr[t], n.mask[t]);
    }
  }

  lemma WiderComposed(gapped: NetSet, p: Net, n: Net)
    requires p in gapped && Wider(p, n) && !Contiguous(n.mask)
    ensures Composed(gapped, n)
  {
  }

  /** A network with a warp of its own has the widest region around it. */
  lemma ReachOwn(gapped: NetSet, n: Net, h: nat, a: Bytes)
    requires Clashless(gapped, h) && n in gapped && |a| == h && !Composed(gapped, n)
    ensures InReach(gapped, n, a) <==> Covers(RegionOf(n), a)
  {
    hide Contiguous, Supported, RegionOf, Covers, Overlaps, Submask, Together, Composed;
    if Covers(RegionOf(n), a) {
      OverlapsSelf(RegionOf(n));
      assert Spans(n, n, a);
    }
    if p :| p in gapped && Spans(p, n, a) {
      RegionLeading(p);
      RegionLeading(n);
      if Length(RegionOf(n).mask) <= Length(RegionOf(p).mask) {
        LengthOrder(RegionOf(n).mask, RegionOf(p).mask);
        InnerCovers(RegionOf(p), RegionOf(n), a);
      } else {
        LengthOrder(RegionOf(p).mask, RegionOf(n).mask);
        WiderComposed(gapped, p, n);
      }
    }
  }

  /** A composed network lies in the widest region around it. */
  lemma ReachComposed(gapped: NetSet, n: Net, h: nat, a: Bytes)
    requires Clashless(gapped, h) && n in gapped && |a| == h && Covers(RegionOf(n), a)
    ensures InReach(gapped, n, a)
  {
    hide Contiguous, Supported, RegionOf, Covers, Overlaps, Together;
    OverlapsSelf(RegionOf(n));
    assert Spans(n, n, a);
  }

  /** An address is in a network exactly when it is in all its parts. */
  lemma NetParts(gapped: NetSet, n: Net, h: nat, a: Bytes)
    requires Clashless(gapped, h) && |n.addr| == |n.mask| == |a| == h > 0 && (Contiguous(n.mask) || n in gapped)
    ensures Covers(n, a)
            <==> (HasRoot(gapped, n) ==> RootPart(gapped, n, a)) && (!Contiguous(n.mask) ==> WidePart(gapped, n, a))
  {
    hide Contiguous, Supported, RegionOf, GapLevel, Covers, InReach, Composed, Together, TailOf;
    if !Contiguous(n.mask) {
      GappedCovers(n, h, a);
      if Composed(gapped, n) {
        if Covers(RegionOf(n), a) {
          ReachComposed(gapped, n, h, a);
        }
      } else {
        ReachOwn(gapped, n, h, a);
      }
    }
  }

  ghost predicate SetsSized(sets: seq<NetSet>, h: nat) {
    forall n | OneOf(sets, n) :: |n.addr| == |n.mask| == h
  }

  /** A filter takes all addresses of its networks. */
  lemma Complete(sets: seq<NetSet>, k: nat, h: nat, a: Bytes)
    requires Clashless(GappedOf(sets), h) && SetsSized(sets, h) && k < |sets| && |a| == h > 0 && InSet(sets[k], a)
    ensures Takes(sets, k, a)
  {
    hide Contiguous, Covers, Composed, Clashless;
    var gapped := GappedOf(sets);
    var n :| n in sets[k] && Covers(n, a);
    assert OneOf(sets, n);
    NetParts(gapped, n, h, a);
    hide RootPart, WidePart, HasRoot, GappedOf;
    assert SameParts(gapped, sets, a, a);
    assert TakesNet(gapped, sets, n, a);
  }
}
