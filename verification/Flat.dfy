/**
  Classification of small numbers by range filters (`acl::compiler::flat_t`): an array holds the
  group id of every value.
*/
module Flat {
  import opened Base
  import opened Partition

  type Ranges = seq<(nat, nat)>

  predicate InRange(r: (nat, nat), v: nat) {
    r.0 <= v <= r.1
  }

  /** Value v is in the filter. */
  ghost predicate InRanges(rs: Ranges, v: nat) {
    exists i :: 0 <= i < |rs| && InRange(rs[i], v)
  }

  predicate Full(r: (nat, nat), size: nat) {
    r.0 == 0 && r.1 + 1 == size
  }

  /** The ranges fit the size; a full range is recognised by its ends. */
  ghost predicate Within(rs: Ranges, size: nat) {
    forall i | 0 <= i < |rs| :: rs[i].1 < size
  }

  /** The group ids of a finished classification. */
  ghost predicate FlatFits(values: seq<nat>, filters: seq<Ranges>, groups: seq<seq<nat>>, next: nat, size: nat) {
    && |values| == size && next <= size
    && (forall v | 0 <= v < size :: 1 <= values[v] < next)
    && (forall g | 1 <= g < next :: Occurs(values, size, g))
    && InFirstOrder(values, size)
    && |groups| == |filters|
    && (forall k, v | 0 <= k < |filters| && 0 <= v < size :: InRanges(filters[k], v) <==> values[v] in groups[k])
    && (forall k, g | 0 <= k < |groups| && g in groups[k] :: 1 <= g < next)
  }

  /** A finished classifier. */
  datatype FlatTable = FlatTable(values: seq<nat>, filters: seq<Ranges>, groups: seq<seq<nat>>, next: nat) {
    ghost predicate Fits(size: nat) {
      FlatFits(values, filters, groups, next, size)
    }
  }

  /** Id g is among the ids of the first k values. */
  ghost predicate Occurs(values: seq<nat>, k: int, g: int) {
    exists v :: 0 <= v < k && v < |values| && values[v] == g
  }

  /** Before a group id occurs, all smaller ones have occurred. */
  ghost predicate InFirstOrder(values: seq<nat>, k: nat)
    requires k <= |values|
  {
    forall v, g | 0 <= v < k && 1 <= g < values[v] :: Occurs(values, v, g)
  }

  // ----- compile ----------------------------------------------------------------------------

  ghost function Ids(values: seq<nat>): imap<nat, nat> {
    imap v: nat | v < |values| :: values[v]
  }

  /** The values that the first k ranges of the filter visit: full ranges are skipped. */
  ghost predicate Visits(rs: Ranges, k: nat, size: nat, v: nat) {
    exists i :: 0 <= i < k && i < |rs| && !Full(rs[i], size) && InRange(rs[i], v)
  }

  ghost function VisitSet(rs: Ranges, k: nat, size: nat): iset<nat> {
    iset v: nat | Visits(rs, k, size, v)
  }

  /** The values of the range below v. */
  ghost function RangeBelow(r: (nat, nat), v: nat): iset<nat> {
    iset u: nat | InRange(r, u) && u < v
  }

  ghost function VisitSets(filters: seq<Ranges>, size: nat): (sets: seq<iset<nat>>)
    ensures |sets| == |filters|
  {
    seq(|filters|, k requires 0 <= k < |filters| => VisitSet(filters[k], |filters[k]|, size))
  }

  lemma VisitStep(rs: Ranges, k: nat, size: nat)
    requires k < |rs|
    ensures VisitSet(rs, k + 1, size)
         == VisitSet(rs, k, size) + if Full(rs[k], size) then iset{} else RangeBelow(rs[k], rs[k].1 + 1)
  {
    forall v: nat
      ensures Visits(rs, k + 1, size, v) <==> Visits(rs, k, size, v) || (!Full(rs[k], size) && InRange(rs[k], v))
    {
    }
  }

  lemma SetsMore(filters: seq<Ranges>, size: nat, k: nat)
    requires k < |filters|
    ensures VisitSets(filters[..k + 1], size) == VisitSets(filters[..k],
                                                           size) + [VisitSet(filters[k], |filters[k]|, size)]
  {
    assert filters[..k + 1] == filters[..k] + [filters[k]];
  }

  /** After renumbering: ids from 1 on in the order of their first occurrence. */
  ghost predicate Numbered(was: seq<nat>, values: seq<nat>, k: nat, vec: seq<nat>, next: nat) {
    && |values| == |was| && k <= |was|
    && (forall v | 0 <= v < k :: was[v] < |vec| && values[v] == vec[was[v]] != 0)
    && (forall v | k <= v < |was| :: values[v] == was[v])
    && (forall l | 0 <= l < |vec| && vec[l] != 0 :: 1 <= vec[l] < next && Occurs(was, k, l))
    && (forall l, m | 0 <= l < |vec| && 0 <= m < |vec| && vec[l] == vec[m] != 0 :: l == m)
    && (forall g | 1 <= g < next :: Occurs(values, k, g))
    && next >= 1
    && InFirstOrder(values, k)
  }

  lemma NumberedStep(was: seq<nat>, values: seq<nat>, values': seq<nat>, k: nat, vec: seq<nat>, vec': seq<nat>,
                     next: nat, next': nat)
    requires Numbered(was, values, k, vec, next) && k < |was| && was[k] < |vec|
    requires if vec[was[k]] == 0 then vec' == vec[was[k] := next] && next' == next + 1 else vec' == vec && next' == next
    requires values' == values[k := vec'[was[k]]]
    ensures Numbered(was, values', k + 1, vec', next')
  {
    var k' := k + 1;
    OccursKept(values, values', k);
    OrderStep(was, values, values', k, vec, vec', next, next');
    assert forall l | Occurs(was, k, l) :: Occurs(was, k', l);
    assert values'[k] == vec'[was[k]] && Occurs(values', k', values'[k]) && Occurs(was, k', was[k]);
    forall g | 1 <= g < next'
      ensures Occurs(values', k', g)
    {
      if g < next {
        assert Occurs(values, k, g) && Occurs(values', k, g);
      }
    }
    hide Occurs, InFirstOrder;
  }

  lemma OccursKept(values: seq<nat>, values': seq<nat>, k: nat)
    requires k < |values| == |values'| && forall u | 0 <= u < |values| && u != k :: values'[u] == values[u]
    ensures forall v: int, g: int | v <= k && Occurs(values, v, g) :: Occurs(values', v, g)
  {
    forall v: int, g: int | v <= k && Occurs(values, v, g)
      ensures Occurs(values', v, g)
    {
      var u :| 0 <= u < v && u < |values| && values[u] == g;
      assert values'[u] == g;
    }
  }

  lemma OrderStep(was: seq<nat>, values: seq<nat>, values': seq<nat>, k: nat, vec: seq<nat>, vec': seq<nat>, next: nat,
                  next': nat)
    requires Numbered(was, values, k, vec, next) && k < |was| && was[k] < |vec|
    requires if vec[was[k]] == 0 then vec' == vec[was[k] := next] && next' == next + 1 else vec' == vec && next' == next
    requires values' == values[k := vec'[was[k]]]
    ensures InFirstOrder(values', k + 1)
  {
    OccursKept(values, values', k);
    hide Occurs;
    forall v, g | 0 <= v < k + 1 && 1 <= g < values'[v]
      ensures Occurs(values', v, g)
    {
      if v == k {
        assert 1 <= g < next;
      }
      assert Occurs(values, v, g);
    }
  }

  // ----- overflow ---------------------------------------------------------------------------

  /** Some filter tells the two values apart by its ranges that are not full. */
  ghost predicate TellsApart(filters: seq<Ranges>, size: nat, u: nat, v: nat) {
    exists k :: 0 <= k < |filters| && Tells(filters[k], size, u, v)
  }

  ghost predicate Tells(rs: Ranges, size: nat, u: nat, v: nat) {
    !(Visits(rs, |rs|, size, u) <==> Visits(rs, |rs|, size, v))
  }

  /** Every value is in a group of its own. */
  ghost predicate AllApart(filters: seq<Ranges>, size: nat) {
    size == 0 || forall u: nat, v: nat | u < v < size :: TellsApart(filters, size, u, v)
  }

  lemma {:induction false} FirstBound(values: seq<nat>, size: nat, v: nat)
    requires size <= |values| && InFirstOrder(values, size) && v < size
    ensures values[v] <= v + 1
  {
    if values[v] >= 2 {
      assert Occurs(values, v, values[v] - 1);
      var u :| 0 <= u < v && u < |values| && values[u] == values[v] - 1;
      FirstBound(values, size, u);
    }
  }

  /** If value m has the id m + 1, the ids up to there are 1, 2, 3, ... */
  lemma {:induction false} Stair(values: seq<nat>, size: nat, m: nat, v: nat)
    requires size <= |values| && InFirstOrder(values, size) && v <= m < size && values[m] == m + 1
    ensures values[v] == v + 1
    decreases m
  {
    if v < m {
      assert Occurs(values, m, m);
      var u :| 0 <= u < m && u < |values| && values[u] == m;
      FirstBound(values, size, u);
      Stair(values, size, m - 1, v);
    }
  }

  /** Ids that are all different and appear in order are 1, 2, 3, ... */
  lemma {:induction false} Climb(values: seq<nat>, size: nat, v: nat)
    requires size <= |values| && InFirstOrder(values, size) && v < size && forall u | 0 <= u < size :: values[u] >= 1
    requires forall u, w | 0 <= u < w < size :: values[u] != values[w]
    ensures values[v] == v + 1
  {
    FirstBound(values, size, v);
    if values[v] <= v {
      Climb(values, size, values[v] - 1);
    }
  }

  /** The overflow error is raised exactly when every value is in a group of its own. */
  lemma OverflowExact(values: seq<nat>, filters: seq<Ranges>, size: nat, next: nat)
    requires |values| == size && next >= 1 && InFirstOrder(values, size)
             && forall v | 0 <= v < size :: 1 <= values[v] < next
    requires forall g | 1 <= g < next :: Occurs(values, size, g)
    requires forall u: nat, v: nat | u < size && v < size ::
               values[u] == values[v] <==> Alike(VisitSets(filters, size), u, v)
    ensures next > size <==> AllApart(filters, size)
  {
    forall u: nat, v: nat | u < size && v < size
      ensures values[u] != values[v] <==> TellsApart(filters, size, u, v)
    {
      hide Visits, InFirstOrder, Occurs;
      assert forall k, x: nat | 0 <= k < |filters| ::
               x in VisitSets(filters, size)[k] <==> Visits(filters[k], |filters[k]|, size, x);
    }
    hide Visits, TellsApart, VisitSets;
    if next > size > 0 {
      assert Occurs(values, size, size);
      var m :| 0 <= m < size && m < |values| && values[m] == size;
      FirstBound(values, size, m);
      forall v: nat | v < size
        ensures values[v] == v + 1
      {
        Stair(values, size, m, v);
      }
    }
    if AllApart(filters, size) && size > 0 {
      Climb(values, size, size - 1);
    }
  }

  class FlatClassifier {
    const size: nat
    const values: array<nat>
    var groupId: nat
    var filters: seq<Ranges>
    var groups: seq<seq<nat>>

    ghost predicate Valid()
      reads this, values
    {
      values.Length == size && forall k | 0 <= k < |filters| :: Within(filters[k], size)
    }

    constructor (size: nat)
      ensures Valid() && fresh(values) && this.size == size && filters == [] && groupId == 1
      ensures forall v | 0 <= v < size :: values[v] == 0
    {
      this.size := size;
      values := new nat[size](_ => 0);
      groupId, filters, groups := 1, [], [];
    }

    /** `collect`: the number of the filter; equal filters get one number. */
    method Collect(rs: Ranges) returns (id: nat)
      requires Valid() && Within(rs, size)
      modifies this`filters
      ensures Valid() && id < |filters| && filters[id] == rs
      ensures filters == if rs in old(filters) then old(filters) else old(filters) + [rs]
    {
      id := 0;
      while id < |filters|
        invariant id <= |filters| && rs !in filters[..id]
      {
        if filters[id] == rs {
          return;
        }
        id := id + 1;
      }
      assert filters[..id] == filters;
      filters := filters + [rs];
    }

    /** One range of a filter: values whose group predates the filter move to the remapped group. */
    method CompileRange(r: (nat, nat), remap: seq<nat>, ghost before: imap<nat, nat>,
                        ghost done: iset<nat>) returns (remap': seq<nat>)
      requires values.Length == size && r.1 < size && |remap| >= 1
      requires Splitting(before, Ids(values[..]), done, Assigned(remap), |remap|, groupId)
      modifies values, this`groupId
      ensures |remap'| == |remap|
      ensures Splitting(before, Ids(values[..]), done + RangeBelow(r, r.1 + 1), Assigned(remap'), |remap|, groupId)
    {
      hide Splitting;
      remap' := remap;
      var i := r.0;
      assert done + RangeBelow(r, i) == done;
      while i <= r.1
        invariant r.0 <= i && |remap'| == |remap|
        invariant i > r.1 + 1 ==> i == r.0
        invariant Splitting(before, Ids(values[..]), done + RangeBelow(r, i), Assigned(remap'), |remap|, groupId)
      {
        remap' := Move(i, remap', before, done + RangeBelow(r, i));
        assert done + RangeBelow(r, i) + iset{i} == done + RangeBelow(r, i + 1);
        i := i + 1;
      }
      assert RangeBelow(r, i) == RangeBelow(r, r.1 + 1);
    }

    method Move(i: nat, remap: seq<nat>, ghost before: imap<nat, nat>, ghost done: iset<nat>) returns (remap': seq<nat>)
      requires values.Length == size && i < size && |remap| >= 1
      requires Splitting(before, Ids(values[..]), done, Assigned(remap), |remap|, groupId)
      modifies values, this`groupId
      ensures |remap'| == |remap|
      ensures Splitting(before, Ids(values[..]), done + iset{i}, Assigned(remap'), |remap|, groupId)
    {
      remap' := remap;
      ghost var ids, next := Ids(values[..]), groupId;
      var g := values[i];
      if g < |remap| {
        if remap[g] == 0 {
          AssignedMore(remap, g, groupId);
          remap', groupId := remap[g := groupId], groupId + 1;
        }
        values[i] := remap'[g];
        SplitMove(before, ids, Ids(values[..]), done, iset{i}, Assigned(remap), Assigned(remap'), |remap|, next,
                  groupId, g);
      } else {
        SplitSeen(before, ids, done, iset{i}, Assigned(remap), |remap|, next);
      }
    }

    /** One filter of `compile`. */
    method CompileFilter(k: nat)
      requires Valid() && k < |filters| && groupId >= 1
      requires Classifies(Ids(values[..]), VisitSets(filters[..k], size), groupId)
      modifies values, this`groupId
      ensures Valid() && groupId >= 1
      ensures Classifies(Ids(values[..]), VisitSets(filters[..k + 1], size), groupId)
    {
      hide Splitting, Classifies, VisitSets;
      var rs := filters[k];
      assert Within(rs, size);
      ghost var before, lo := Ids(values[..]), groupId;
      var remap: seq<nat> := seq(groupId, _ => 0);
      assert Assigned(remap) == map[];
      IdsBelow(before, VisitSets(filters[..k], size), lo);
      SplitStart(before, lo);
      assert VisitSet(rs, 0, size) == iset{};
      for i := 0 to |rs|
        invariant |remap| == lo
                  && Splitting(before, Ids(values[..]), VisitSet(rs, i, size), Assigned(remap), lo, groupId)
      {
        VisitStep(rs, i, size);
        if !Full(rs[i], size) {
          remap := CompileRange(rs[i], remap, before, VisitSet(rs, i, size));
        } else {
          assert VisitSet(rs, i + 1, size) == VisitSet(rs, i, size);
        }
      }
      SplitNext(before, Ids(values[..]), VisitSets(filters[..k], size), VisitSet(rs, |rs|, size), Assigned(remap), lo,
                groupId);
      SetsMore(filters, size, k);
    }

    /**
      `remap`: the groups are numbered from 1 on in the order of their first value; false stands for the
      overflow error.
    */
    method Renumber() returns (ok: bool)
      requires values.Length == size && forall v | 0 <= v < size :: values[v] < groupId
      modifies values, this`groupId
      ensures values.Length == size && groupId >= 1 && ok == (groupId <= size)
      ensures forall u, v | 0 <= u < size && 0 <= v < size ::
                values[u] == values[v] <==> old(values[u]) == old(values[v])
      ensures forall v | 0 <= v < size :: 1 <= values[v] < groupId
      ensures forall g | 1 <= g < groupId :: Occurs(values[..], size, g)
      ensures InFirstOrder(values[..], size)
    {
      hide Numbered;
      ghost var was := values[..];
      var vec: seq<nat> := seq(groupId, _ => 0);
      groupId := 1;
      NumberedStart(was, vec);
      for i := 0 to size
        invariant Numbered(was, values[..], i, vec, groupId) && |vec| == old(groupId)
      {
        ghost var values0, vec0, next0 := values[..], vec, groupId;
        NumberedAt(was, values0, i, vec, groupId);
        var g := values[i];
        if vec[g] == 0 {
          vec, groupId := vec[g := groupId], groupId + 1;
        }
        values[i] := vec[g];
        NumberedStep(was, values0, values[..], i, vec0, vec, next0, groupId);
      }
      NumberedEnd(was, values[..], vec, groupId);
      ok := groupId <= size;
    }

    /** `compile`: splits the groups by every filter, then renumbers them. */
    method Compile() returns (ok: bool)
      requires Valid() && groupId == 1 && forall v | 0 <= v < size :: values[v] == 0
      modifies values, this`groupId
      ensures Valid() && groupId >= 1 && ok == (groupId <= size)
      ensures forall u: nat, v: nat | u < size && v < size ::
                values[u] == values[v] <==> Alike(VisitSets(filters, size), u, v)
      ensures forall v | 0 <= v < size :: 1 <= values[v] < groupId
      ensures forall g | 1 <= g < groupId :: Occurs(values[..], size, g)
      ensures InFirstOrder(values[..], size)
    {
      hide VisitSets, Alike;
      ZeroIds(values[..], filters, size);
      for k := 0 to |filters|
        invariant Valid() && groupId >= 1 && Classifies(Ids(values[..]), VisitSets(filters[..k], size), groupId)
      {
        CompileFilter(k);
      }
      assert filters[..|filters|] == filters;
      IdsAlike(values[..], VisitSets(filters, size), groupId);
      ok := Renumber();
    }

    // ----- populate -------------------------------------------------------------------------

    /** One filter of `populate`: a full range lists every group, any other range the groups of its values. */
    method FilterGroups(rs: Ranges) returns (bits: set<nat>)
      requires values.Length == size && Within(rs, size) && groupId >= 1
               && forall v | 0 <= v < size :: 1 <= values[v] < groupId
      ensures forall g | g in bits :: 1 <= g < groupId
      ensures HasFull(rs, size) ==> forall g | 1 <= g < groupId :: g in bits
      ensures !HasFull(rs, size) ==> forall g: nat :: g in bits <==> VisitedId(values[..], rs, |rs|, size, g)
    {
      bits := {};
      for k := 0 to |rs|
        invariant forall g | g in bits :: 1 <= g < groupId
        invariant forall i | 0 <= i < k :: !Full(rs[i], size)
        invariant forall g: nat :: g in bits <==> VisitedId(values[..], rs, k, size, g)
      {
        if Full(rs[k], size) {
          for g := 1 to groupId
            invariant forall x | x in bits :: 1 <= x < groupId
            invariant forall x | 1 <= x < g :: x in bits
          {
            bits := bits + {g};
          }
          return;
        }
        var was := bits;
        var i := rs[k].0;
        while i <= rs[k].1
          invariant rs[k].0 <= i
          invariant forall g | g in bits :: 1 <= g < groupId
          invariant forall g: nat :: g in bits <==> g in was || RangeId(values[..], rs[k], i, g)
        {
          bits := bits + {values[i]};
          i := i + 1;
        }
        forall g: nat { VisitedIdStep(values[..], rs, k, size, i, g); }
      }
    }

    /** `populate`: for every filter, the ascending list of its groups. */
    method Populate()
      requires Valid() && 1 <= groupId <= size
      requires forall u: nat, v: nat | u < size && v < size ::
                 values[u] == values[v] <==> Alike(VisitSets(filters, size), u, v)
      requires forall v | 0 <= v < size :: 1 <= values[v] < groupId
      requires forall g | 1 <= g < groupId :: Occurs(values[..], size, g)
      requires InFirstOrder(values[..], size)
      modifies this`groups
      ensures FlatFits(values[..], filters, groups, groupId, size)
    {
      hide Occurs, InFirstOrder, Alike, VisitSets, InRanges;
      var lists: seq<seq<nat>> := [];
      while |lists| < |filters|
        invariant |lists| <= |filters|
        invariant forall k, v | 0 <= k < |lists| && 0 <= v < size :: InRanges(filters[k], v) <==> values[v] in lists[k]
        invariant forall k, g | 0 <= k < |lists| && g in lists[k] :: 1 <= g < groupId
      {
        var bits := FilterGroups(filters[|lists|]);
        forall v: nat | v < size
          ensures InRanges(filters[|lists|], v) <==> values[v] in bits
        {
          ListedValue(values[..], filters, |lists|, size, groupId, bits, v);
        }
        var list := Ascending(bits, groupId);
        lists := lists + [list];
      }
      groups := lists;
    }

    /** `prepare`, `compile` and `populate`; None stands for the overflow error. */
    method Finish() returns (r: Option<FlatTable>)
      requires Valid() && groupId == 1 && forall v | 0 <= v < size :: values[v] == 0
      modifies values, this`groupId, this`groups
      ensures r.Some? ==> r.value.Fits(size) && r.value.filters == filters
      ensures r.None? <==> AllApart(filters, size)
    {
      var ok := Compile();
      OverflowExact(values[..], filters, size, groupId);
      if !ok {
        return None;
      }
      Populate();
      return Some(FlatTable(values[..], filters, groups, groupId));
    }
  }

  ghost predicate HasFull(rs: Ranges, size: nat) {
    exists i :: 0 <= i < |rs| && Full(rs[i], size)
  }

  /** Id g belongs to a value that the first k ranges visit. */
  ghost predicate VisitedId(values: seq<nat>, rs: Ranges, k: nat, size: nat, g: nat) {
    exists v: nat :: v < |values| && values[v] == g && Visits(rs, k, size, v)
  }

  ghost predicate RangeId(values: seq<nat>, r: (nat, nat), i: nat, g: nat) {
    exists v: nat :: v < |values| && values[v] == g && InRange(r, v) && v < i
  }

  lemma VisitedIdStep(values: seq<nat>, rs: Ranges, k: nat, size: nat, i: nat, g: nat)
    requires k < |rs| && !Full(rs[k], size) && i > rs[k].1
    ensures VisitedId(values, rs, k + 1, size, g) <==> VisitedId(values, rs, k, size, g) || RangeId(values, rs[k], i, g)
  {
    forall v: nat
      ensures Visits(rs, k + 1, size, v) <==> Visits(rs, k, size, v) || InRange(rs[k], v)
    {
    }
    hide Visits;
  }

  lemma ListedValue(values: seq<nat>, filters: seq<Ranges>, k: nat, size: nat, next: nat, bits: set<nat>, v: nat)
    requires |values| == size && k < |filters| && v < size && Within(filters[k], size) && 1 <= values[v] < next
    requires forall u: nat, v: nat | u < size && v < size ::
               values[u] == values[v] <==> Alike(VisitSets(filters, size), u, v)
    requires HasFull(filters[k], size) ==> forall g | 1 <= g < next :: g in bits
    requires !HasFull(filters[k], size) ==>
               forall g: nat :: g in bits <==> VisitedId(values, filters[k], |filters[k]|, size, g)
    ensures InRanges(filters[k], v) <==> values[v] in bits
  {
    var rs := filters[k];
    if HasFull(rs, size) {
      var i :| 0 <= i < |rs| && Full(rs[i], size);
      assert InRange(rs[i], v);
    } else {
      assert InRanges(rs, v) <==> Visits(rs, |rs|, size, v);
      if values[v] in bits {
        var u: nat :| u < |values| && values[u] == values[v] && Visits(rs, |rs|, size, u);
        assert Alike(VisitSets(filters, size), u, v);
        assert u in VisitSets(filters, size)[k];
      }
    }
  }

  lemma IdsAlike(values: seq<nat>, sets: seq<iset<nat>>, next: nat)
    requires Classifies(Ids(values), sets, next)
    ensures forall u: nat, v: nat | u < |values| && v < |values| :: values[u] == values[v] <==> Alike(sets, u, v)
    ensures forall v | 0 <= v < |values| :: values[v] < next
  {
    hide Alike;
    var ids := Ids(values);
    forall u: nat, v: nat | u < |values| && v < |values|
      ensures values[u] == values[v] <==> Alike(sets, u, v)
    {
      assert u in ids && v in ids;
      assert ids[u] == ids[v] <==> Alike(sets, u, v);
    }
    forall v | 0 <= v < |values|
      ensures values[v] < next
    {
      assert v in ids;
    }
  }

  lemma ZeroIds(values: seq<nat>, filters: seq<Ranges>, size: nat)
    requires forall v | 0 <= v < |values| :: values[v] == 0
    ensures Classifies(Ids(values), VisitSets(filters[..0], size), 1)
  {
  }

  lemma IdsBelow(ids: imap<nat, nat>, sets: seq<iset<nat>>, next: nat)
    requires Classifies(ids, sets, next)
    ensures forall v | v in ids :: ids[v] < next
  {
  }

  lemma SplitNext(before: imap<nat, nat>, now: imap<nat, nat>, sets: seq<iset<nat>>, filter: iset<nat>,
                  remap: map<nat, nat>, lo: nat, next: nat)
    requires Splitting(before, now, filter, remap, lo, next) && lo >= 1 && Classifies(before, sets, lo)
    ensures Classifies(now, sets + [filter], next) && next >= 1
  {
    SplitClassifies(before, now, sets, filter, filter, remap, lo, next);
  }

  lemma NumberedStart(was: seq<nat>, vec: seq<nat>)
    requires forall l | 0 <= l < |vec| :: vec[l] == 0
    ensures Numbered(was, was, 0, vec, 1)
  {
  }

  lemma NumberedAt(was: seq<nat>, values: seq<nat>, k: nat, vec: seq<nat>, next: nat)
    requires Numbered(was, values, k, vec, next) && k < |was|
    ensures values[k] == was[k] && next >= 1
  {
  }

  lemma NumberedEnd(was: seq<nat>, values: seq<nat>, vec: seq<nat>, next: nat)
    requires Numbered(was, values, |was|, vec, next)
    ensures |values| == |was|
    ensures forall u, v | 0 <= u < |was| && 0 <= v < |was| :: values[u] == values[v] <==> was[u] == was[v]
    ensures forall v | 0 <= v < |was| :: 1 <= values[v] < next
    ensures forall g | 1 <= g < next :: Occurs(values, |was|, g)
    ensures InFirstOrder(values, |was|) && next >= 1
  {
  }

  lemma AssignedMore(vec: seq<nat>, i: nat, v: nat)
    requires i < |vec| && v != 0 && vec[i] == 0
    ensures i !in Assigned(vec) && Assigned(vec[i := v]) == Assigned(vec)[i := v]
  {
  }
}
