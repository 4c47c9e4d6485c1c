/** Small datatypes shared by the models. */
module Base {
  datatype Option<+T> = None | Some(value: T)

  /** The elements of the set below n, in ascending order. */
  method Ascending(bits: set<nat>, n: nat) returns (list: seq<nat>)
    requires forall g | g in bits :: g < n
    ensures forall g: nat :: g in list <==> g in bits
    ensures forall i, j | 0 <= i < j < |list| :: list[i] < list[j]
  {
    list := [];
    for g := 0 to n
      invariant forall x: nat :: x in list <==> x in bits && x < g
      invariant forall i, j | 0 <= i < j < |list| :: list[i] < list[j]
    {
      if g in bits {
        assert forall i | 0 <= i < |list| :: list[i] in list;
        list := list + [g];
      }
    }
  }

  ghost predicate Increasing(list: seq<nat>) {
    forall i, j | 0 <= i < j < |list| :: list[i] < list[j]
  }

  /** A list in increasing order is determined by its elements. */
  lemma {:induction false} SameIncreasing(a: seq<nat>, b: seq<nat>)
    requires Increasing(a) && Increasing(b) && forall r: nat :: r in a <==> r in b
    ensures a == b
    decreases |a|
  {
    assert b != [] ==> b[0] in b && b[|b| - 1] in b;
    if a != [] {
      var x := a[|a| - 1];
      assert x in a && x in b;
      var front, front' := a[..|a| - 1], b[..|b| - 1];
      AtMostLast(a, b[|b| - 1]);
      AtMostLast(b, x);
      forall r: nat
        ensures r in front <==> r in front'
      {
        FrontHas(a, r);
        FrontHas(b, r);
      }
      SameIncreasing(front, front');
      assert a == front + [x] && b == front' + [x];
    }
  }

  lemma AtMostLast(a: seq<nat>, r: nat)
    requires Increasing(a) && r in a
    ensures a != [] && r <= a[|a| - 1] && a[|a| - 1] in a
  {
  }

  lemma FrontHas(a: seq<nat>, r: nat)
    requires a != [] && Increasing(a)
    ensures r in a[..|a| - 1] <==> r in a && r != a[|a| - 1]
    ensures Increasing(a[..|a| - 1])
  {
    assert a == a[..|a| - 1] + [a[|a| - 1]];
  }

  /** The number of every item, equal items getting one number. */
  ghost predicate NumbersOf<T>(items: seq<T>, distinct: seq<T>, ids: seq<nat>) {
    && |ids| == |items| && (forall k | 0 <= k < |items| :: ids[k] < |distinct| && distinct[ids[k]] == items[k])
    && (forall f | 0 <= f < |distinct| :: distinct[f] in items)
    && (forall f, g | 0 <= f < |distinct| && 0 <= g < |distinct| && distinct[f] == distinct[g] :: f == g)
  }

  /** The distinct items in the order in which they first occur. */
  ghost function DistinctOf<T>(items: seq<T>): seq<T> {
    if items == [] then []
    else
      var was, x := DistinctOf(items[..|items| - 1]), items[|items| - 1];
      if x in was then was else was + [x]
  }

  /** The numbers of items in a list of distinct items are fixed by the list. */
  lemma NumbersUnique<T>(items: seq<T>, distinct: seq<T>, ids: seq<nat>, ids': seq<nat>)
    requires NumbersOf(items, distinct, ids) && NumbersOf(items, distinct, ids')
    ensures ids == ids'
  {
    forall k | 0 <= k < |items|
      ensures ids[k] == ids'[k]
    {
      assert distinct[ids[k]] == distinct[ids'[k]];
    }
  }

  /** One more item: a new one is appended, a known one keeps its number. */
  lemma NumbersMore<T>(items: seq<T>, k: nat, distinct: seq<T>, ids: seq<nat>, id: nat)
    requires k < |items| && NumbersOf(items[..k], distinct, ids) && distinct == DistinctOf(items[..k])
    requires id <= |distinct| && items[k] !in distinct[..id] && (id < |distinct| ==> distinct[id] == items[k])
    ensures var now := if id == |distinct| then distinct + [items[k]] else distinct;
            NumbersOf(items[..k + 1], now, ids + [id]) && now == DistinctOf(items[..k + 1])
  {
    hide NumbersOf, DistinctOf;
    var all := items[..k + 1];
    assert all == items[..k] + [items[k]];
    if id == |distinct| {
      assert distinct[..id] == distinct;
    }
    DistinctMore(items[..k], items[k]);
    NumberAdded(items[..k], items[k], distinct, ids, id);
  }

  lemma DistinctMore<T>(items: seq<T>, x: T)
    ensures DistinctOf(items + [x]) == if x in DistinctOf(items) then DistinctOf(items) else DistinctOf(items) + [x]
  {
    assert (items + [x])[..|items|] == items;
  }

  lemma NumberAdded<T>(items: seq<T>, x: T, distinct: seq<T>, ids: seq<nat>, id: nat)
    requires NumbersOf(items, distinct, ids) && id <= |distinct|
    requires if id < |distinct| then distinct[id] == x else x !in distinct
    ensures NumbersOf(items + [x], if id == |distinct| then distinct + [x] else distinct, ids + [id])
  {
  }

  /** The first position of the item, or the length of the list. */
  method Position<T(==)>(list: seq<T>, x: T) returns (id: nat)
    ensures id <= |list| && x !in list[..id] && (id < |list| ==> list[id] == x)
  {
    id := 0;
    while id < |list| && list[id] != x
      invariant id <= |list| && x !in list[..id]
    {
      id := id + 1;
    }
  }

  /** The `collect` methods: a new item is appended, a known one keeps its number. */
  method CollectAll<T(==)>(items: seq<T>) returns (distinct: seq<T>, ids: seq<nat>)
    ensures NumbersOf(items, distinct, ids) && distinct == DistinctOf(items)
  {
    distinct, ids := [], [];
    NumbersNone(items);
    hide NumbersOf, DistinctOf;
    var k := 0;
    while k < |items|
      invariant k <= |items| && NumbersOf(items[..k], distinct, ids) && distinct == DistinctOf(items[..k])
    {
      var id := Position(distinct, items[k]);
      NumbersMore(items, k, distinct, ids, id);
      distinct, ids := if id == |distinct| then distinct + [items[k]] else distinct, ids + [id];
      k := k + 1;
    }
    assert items[..k] == items;
  }

  lemma NumbersNone<T>(items: seq<T>)
    ensures NumbersOf(items[..0], [], []) && DistinctOf(items[..0]) == []
  {
  }

  /** The elements of the set, in some order. */
  method ListOf(s: set<nat>) returns (list: seq<nat>)
    ensures forall n: nat :: n in list <==> n in s
  {
    list := [];
    var todo := s;
    while todo != {}
      invariant todo <= s && forall n: nat :: n in list <==> n in s && n !in todo
    {
      var n :| n in todo;
      list, todo := list + [n], todo - {n};
    }
  }
}
