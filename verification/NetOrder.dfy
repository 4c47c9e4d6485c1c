/** Ordered sets of networks: by address, then by mask, without repetition. */
module NetOrder {
  import opened Nets
  import opened Masks

  predicate Lower(a: Bytes, b: Bytes)
    requires |a| == |b|
  {
    a != [] && (a[0] < b[0] || (a[0] == b[0] && Lower(a[1..], b[1..])))
  }

  predicate Sooner(m: Net, n: Net)
    requires |m.addr| == |n.addr| && |m.mask| == |n.mask|
  {
    Lower(m.addr, n.addr) || (m.addr == n.addr && Lower(m.mask, n.mask))
  }

  lemma {:induction false} LowerLess(a: Bytes, b: Bytes)
    requires |a| == |b| && Lower(a, b)
    ensures Less(a, b)
  {
    if a[0] < b[0] {
      assert a[..0] == b[..0];
    } else {
      LowerLess(a[1..], b[1..]);
      var k :| 0 <= k < |a[1..]| && a[1..][..k] == b[1..][..k] && a[1..][k] < b[1..][k];
      assert a[..k + 1] == [a[0]] + a[1..][..k] && b[..k + 1] == [b[0]] + b[1..][..k];
    }
  }

  lemma {:induction false} LowerTotal(a: Bytes, b: Bytes)
    requires |a| == |b|
    ensures Lower(a, b) || Lower(b, a) || a == b
  {
    if a != [] {
      LowerTotal(a[1..], b[1..]);
    }
  }

  lemma {:induction false} LowerTransitive(a: Bytes, b: Bytes, c: Bytes)
    requires |a| == |b| == |c| && Lower(a, b) && Lower(b, c)
    ensures Lower(a, c)
  {
    if a[0] == b[0] == c[0] {
      LowerTransitive(a[1..], b[1..], c[1..]);
    }
  }

  ghost predicate Sized(list: seq<Net>, h: nat) {
    forall i | 0 <= i < |list| :: |list[i].addr| == |list[i].mask| == h
  }

  ghost predicate Sorted(list: seq<Net>, h: nat)
    requires Sized(list, h)
  {
    forall i, j | 0 <= i < j < |list| :: Sooner(list[i], list[j])
  }

  lemma SoonerTotal(m: Net, n: Net)
    requires |m.addr| == |n.addr| && |m.mask| == |n.mask|
    ensures Sooner(m, n) || Sooner(n, m) || m == n
  {
    LowerTotal(m.addr, n.addr);
    LowerTotal(m.mask, n.mask);
  }

  lemma SoonerTransitive(m: Net, n: Net, o: Net)
    requires |m.addr| == |n.addr| == |o.addr| && |m.mask| == |n.mask| == |o.mask| && Sooner(m, n) && Sooner(n, o)
    ensures Sooner(m, o)
  {
    if Lower(m.addr, n.addr) && Lower(n.addr, o.addr) {
      LowerTransitive(m.addr, n.addr, o.addr);
    } else if m.addr == n.addr == o.addr {
      LowerTransitive(m.mask, n.mask, o.mask);
    }
  }

  lemma SoonerBefore(m: Net, n: Net)
    requires |m.addr| == |n.addr| && |m.mask| == |n.mask| && Sooner(m, n)
    ensures Before(m, n)
  {
    if Lower(m.addr, n.addr) {
      LowerLess(m.addr, n.addr);
    } else {
      LowerLess(m.mask, n.mask);
    }
  }

  /** Inserting into an ordered set. */
  method Insert(list: seq<Net>, n: Net, ghost h: nat) returns (r: seq<Net>)
    requires Sized(list, h) && Sorted(list, h) && |n.addr| == |n.mask| == h
    ensures Sized(r, h) && Sorted(r, h) && forall m :: m in r <==> m in list || m == n
    ensures forall i, j | 0 <= i < j < |r| :: Before(r[i], r[j])
  {
    SortedBefore(list, h);
    hide Sooner, Before;
    var k := 0;
    while k < |list| && Sooner(list[k], n)
      invariant k <= |list| && forall i | 0 <= i < k :: Sooner(list[i], n)
    {
      k := k + 1;
    }
    if k < |list| && list[k] == n {
      return list;
    }
    r := list[..k] + [n] + list[k..];
    Inserted(list, n, k, r, h);
    SortedBefore(r, h);
  }

  /** By address, then by mask, both as numbers. */
  lemma SortedBefore(list: seq<Net>, h: nat)
    requires Sized(list, h) && Sorted(list, h)
    ensures forall i, j | 0 <= i < j < |list| :: Before(list[i], list[j])
  {
    hide Sooner, Before;
    forall i, j | 0 <= i < j < |list|
      ensures Before(list[i], list[j])
    {
      SoonerBefore(list[i], list[j]);
    }
  }

  lemma Inserted(list: seq<Net>, n: Net, k: nat, r: seq<Net>, h: nat)
    requires Sized(list, h) && Sorted(list, h) && |n.addr| == |n.mask| == h && k <= |list|
             && r == list[..k] + [n] + list[k..]
    requires (forall i | 0 <= i < k :: Sooner(list[i], n)) && (k < |list| ==> !Sooner(list[k], n) && list[k] != n)
    ensures Sized(r, h) && Sorted(r, h) && forall m :: m in r <==> m in list || m == n
  {
    hide Sooner;
    forall i | k <= i < |list|
      ensures Sooner(n, list[i])
    {
      SoonerTotal(list[k], n);
      if k < i {
        SoonerTransitive(n, list[k], list[i]);
      }
    }
    assert list == list[..k] + list[k..];
  }

  // ----- the order of the prefixes of a tree ------------------------------------------------

  /** The number of one bits by which gapped networks are ordered (`gap_size`): 0 without a gap. */
  function GapSize(n: Net): nat {
    if Contiguous(n.mask) then 0 else Length(FillTail(n.mask))
  }

  predicate Earlier(m: Net, n: Net)
    requires |m.addr| == |n.addr| && |m.mask| == |n.mask|
  {
    GapSize(m) < GapSize(n) || (GapSize(m) == GapSize(n) && Sooner(m, n))
  }

  ghost predicate GapSorted(list: seq<Net>, h: nat)
    requires Sized(list, h)
  {
    forall i, j | 0 <= i < j < |list| :: Earlier(list[i], list[j])
  }

  lemma EarlierTotal(m: Net, n: Net)
    requires |m.addr| == |n.addr| && |m.mask| == |n.mask|
    ensures Earlier(m, n) || Earlier(n, m) || m == n
  {
    hide Sooner, GapSize;
    SoonerTotal(m, n);
  }

  lemma EarlierTransitive(m: Net, n: Net, o: Net)
    requires |m.addr| == |n.addr| == |o.addr| && |m.mask| == |n.mask| == |o.mask| && Earlier(m, n) && Earlier(n, o)
    ensures Earlier(m, o)
  {
    hide Sooner, GapSize;
    if Sooner(m, n) && Sooner(n, o) {
      SoonerTransitive(m, n, o);
    }
  }

  /** Inserting into the prefixes of a tree. */
  method InsertByGap(list: seq<Net>, n: Net, ghost h: nat) returns (r: seq<Net>)
    requires Sized(list, h) && GapSorted(list, h) && |n.addr| == |n.mask| == h
    ensures Sized(r, h) && GapSorted(r, h) && forall m :: m in r <==> m in list || m == n
    ensures forall i, j | 0 <= i < j < |r| ::
              GapSize(r[i]) < GapSize(r[j]) || (GapSize(r[i]) == GapSize(r[j]) && Before(r[i], r[j]))
  {
    GapSortedBefore(list, h);
    hide Earlier, GapSize, Before;
    var k := 0;
    while k < |list| && Earlier(list[k], n)
      invariant k <= |list| && forall i | 0 <= i < k :: Earlier(list[i], n)
    {
      k := k + 1;
    }
    if k < |list| && list[k] == n {
      return list;
    }
    r := list[..k] + [n] + list[k..];
    InsertedByGap(list, n, k, r, h);
    GapSortedBefore(r, h);
  }

  /** By the one bits of the filled masks of gapped networks, then by address and mask. */
  lemma GapSortedBefore(list: seq<Net>, h: nat)
    requires Sized(list, h) && GapSorted(list, h)
    ensures forall i, j | 0 <= i < j < |list| ::
              GapSize(list[i]) < GapSize(list[j])
              || (GapSize(list[i]) == GapSize(list[j]) && Before(list[i], list[j]))
  {
    hide Sooner, GapSize, Before;
    forall i, j | 0 <= i < j < |list|
      ensures GapSize(list[i]) < GapSize(list[j])
              || (GapSize(list[i]) == GapSize(list[j]) && Before(list[i], list[j]))
    {
      if Sooner(list[i], list[j]) {
        SoonerBefore(list[i], list[j]);
      }
    }
  }

  lemma InsertedByGap(list: seq<Net>, n: Net, k: nat, r: seq<Net>, h: nat)
    requires Sized(list, h) && GapSorted(list, h) && |n.addr| == |n.mask| == h && k <= |list|
             && r == list[..k] + [n] + list[k..]
    requires (forall i | 0 <= i < k :: Earlier(list[i], n)) && (k < |list| ==> !Earlier(list[k], n) && list[k] != n)
    ensures Sized(r, h) && GapSorted(r, h) && forall m :: m in r <==> m in list || m == n
  {
    hide Earlier;
    forall i | k <= i < |list|
      ensures Earlier(n, list[i])
    {
      EarlierTotal(list[k], n);
      if k < i {
        EarlierTransitive(n, list[k], list[i]);
      }
    }
    assert list == list[..k] + list[k..];
  }

  /** The gapped networks of the list, in its order. */
  function GapsOf(list: seq<Net>): seq<Net> {
    if list == [] then []
    else if Contiguous(list[|list| - 1].mask) then GapsOf(list[..|list| - 1])
    else GapsOf(list[..|list| - 1]) + [list[|list| - 1]]
  }

  lemma {:induction false} GapsAre(list: seq<Net>, h: nat)
    requires Sized(list, h) && GapSorted(list, h)
    ensures forall n :: n in GapsOf(list) <==> n in list && !Contiguous(n.mask)
    ensures Sized(GapsOf(list), h) && GapSorted(GapsOf(list), h)
  {
    hide Earlier, Contiguous;
    if list != [] {
      var rest, n := list[..|list| - 1], list[|list| - 1];
      GapsAre(rest, h);
      assert list == rest + [n];
      forall m | m in rest
        ensures Earlier(m, n)
      {
      }
    }
  }
}
