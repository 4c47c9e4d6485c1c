/** Two generations of a value and a queue of updates (`generation_manager`). */
module Generation {
  import opened Base

  /** The value after the updates, in order. */
  ghost function Fold<T>(x: T, updates: seq<T -> T>): T {
    if updates == [] then x else Fold(updates[0](x), updates[1..])
  }

  lemma {:induction false} FoldJoin<T>(x: T, a: seq<T -> T>, b: seq<T -> T>)
    ensures Fold(x, a + b) == Fold(Fold(x, a), b)
  {
    if a == [] {
      assert a + b == b;
    } else {
      assert (a + b)[0] == a[0] && (a + b)[1..] == a[1..] + b;
      FoldJoin(a[0](x), a[1..], b);
    }
  }

  lemma FoldOne<T>(x: T, a: seq<T -> T>, f: T -> T)
    ensures Fold(x, a + [f]) == f(Fold(x, a))
  {
    FoldJoin(x, a, [f]);
    assert [f][1..] == [];
  }

  class Manager<T(!new)> {
    var id: nat
    var generations: seq<T>
    var requests: seq<T -> T>
    ghost const start: T
    /** All updates so far, and the number of them before the last switch. */
    ghost var updates: seq<T -> T>
    ghost var switched: nat

    ghost predicate Shape()
      reads this
    {
      id < 2 && |generations| == 2
    }

    function Current(): T
      requires Shape()
      reads this
    {
      generations[id]
    }

    function Next(): T
      requires Shape()
      reads this
    {
      generations[1 - id]
    }

    /**
      The next generation has seen all updates, the current one those before the last switch; the others are
      queued.
    */
    ghost predicate Valid()
      reads this
    {
      && Shape() && switched <= |updates| && requests == updates[switched..]
      && Next() == Fold(start, updates) && Current() == Fold(start, updates[..switched])
    }

    /** `fill` with equal copies. */
    constructor (value: T)
      ensures Valid() && start == value && updates == [] && switched == 0
    {
      id, generations, requests := 0, [value, value], [];
      start, updates, switched := value, [], 0;
    }

    /** `update`: the next generation changes at once, and the update is queued for the other one. */
    method Update(f: T -> T)
      requires Valid()
      modifies this
      ensures Valid() && updates == old(updates) + [f] && switched == old(switched) && Current() == old(Current())
    {
      FoldOne(start, updates, f);
      generations := generations[1 - id := f(generations[1 - id])];
      requests := requests + [f];
      updates := updates + [f];
      assert updates[..switched] == old(updates)[..switched];
    }

    /** `switch_generation_with_update`: afterwards both generations have seen all updates. */
    method Switch()
      requires Valid()
      modifies this
      ensures Valid() && updates == old(updates) && switched == |updates| && requests == []
      ensures Current() == Next() == old(Next())
    {
      if requests == [] {
        assert updates[..switched] == updates && switched == |updates|;
        return;
      }
      id := 1 - id;
      assert updates[..switched] + updates[switched..] == updates;
      ghost var base := Fold(start, updates[..switched]);
      FoldJoin(start, updates[..switched], requests);
      for k := 0 to |requests|
        invariant Shape() && id == 1 - old(id) && generations[id] == old(generations)[id]
        invariant requests == old(requests) && updates == old(updates)
        invariant generations[1 - id] == Fold(base, requests[..k])
      {
        FoldOne(base, requests[..k], requests[k]);
        assert requests[..k] + [requests[k]] == requests[..k + 1];
        generations := generations[1 - id := requests[k](generations[1 - id])];
      }
      assert requests[..|requests|] == requests;
      requests := [];
      switched := |updates|;
      assert updates[..switched] == updates;
    }
  }
}
