/** Tables of weights (`weight_t`): every list of weights has a slice in which item i occurs weights[i] times. */
module Weight {
  import opened Base
  import opened RefArray

  const FALLBACK: nat := 256
  const WORD: nat := 0x1_0000_0000

  // ----- slices -----------------------------------------------------------------------------

  function Repeat(item: nat, n: nat): (r: seq<nat>)
    ensures |r| == n && forall i | 0 <= i < n :: r[i] == item
  {
    seq(n, _ => item)
  }

  /** The items with their weights; items are numbered in 8 bits. */
  function Expand(weights: seq<nat>): seq<nat> {
    if weights == [] then []
    else Expand(weights[..|weights| - 1]) + Repeat((|weights| - 1) % 256, weights[|weights| - 1])
  }

  function Total(weights: seq<nat>): nat {
    if weights == [] then 0 else Total(weights[..|weights| - 1]) + weights[|weights| - 1]
  }

  lemma {:induction false} ExpandSize(weights: seq<nat>)
    ensures |Expand(weights)| == Total(weights)
  {
    if weights != [] {
      ExpandSize(weights[..|weights| - 1]);
    }
  }

  /** How often an item occurs. */
  function Count(list: seq<nat>, item: nat): nat {
    if list == [] then 0 else Count(list[..|list| - 1], item) + if list[|list| - 1] == item then 1 else 0
  }

  lemma {:induction false} CountJoin(a: seq<nat>, b: seq<nat>, item: nat)
    ensures Count(a + b, item) == Count(a, item) + Count(b, item)
  {
    if b == [] {
      assert a + b == a;
    } else {
      assert (a + b)[..|a + b| - 1] == a + b[..|b| - 1];
      CountJoin(a, b[..|b| - 1], item);
    }
  }

  lemma {:induction false} CountRepeat(x: nat, n: nat, item: nat)
    ensures Count(Repeat(x, n), item) == if x == item then n else 0
  {
    if n > 0 {
      assert Repeat(x, n)[..n - 1] == Repeat(x, n - 1);
      CountRepeat(x, n - 1, item);
    }
  }

  /** Among at most 256 items, item i occurs weights[i] times. */
  lemma {:induction false} ExpandCounts(weights: seq<nat>, item: nat)
    requires |weights| <= 256
    ensures Count(Expand(weights), item) == if item < |weights| then weights[item] else 0
  {
    if weights != [] {
      var front, n := weights[..|weights| - 1], |weights| - 1;
      assert n % 256 == n;
      ExpandCounts(front, item);
      CountJoin(Expand(front), Repeat(n, weights[n]), item);
      CountRepeat(n, weights[n], item);
      hide Count, Repeat;
    }
  }

  /** The items of a slice are in order. */
  lemma {:induction false} ExpandOrdered(weights: seq<nat>, i: nat, j: nat)
    requires |weights| <= 256 && i < j < |Expand(weights)|
    ensures Expand(weights)[i] <= Expand(weights)[j] < |weights|
  {
    var front := Expand(weights[..|weights| - 1]);
    if j < |front| {
      ExpandOrdered(weights[..|weights| - 1], i, j);
    } else if i < |front| {
      if i < |front| - 1 {
        ExpandOrdered(weights[..|weights| - 1], i, |front| - 1);
      } else if i > 0 {
        ExpandOrdered(weights[..|weights| - 1], 0, i);
      } else {
        ExpandBelow(weights[..|weights| - 1], i);
      }
    }
  }

  lemma {:induction false} ExpandBelow(weights: seq<nat>, i: nat)
    requires |weights| <= 256 && i < |Expand(weights)|
    ensures Expand(weights)[i] < |weights|
  {
    if i < |Expand(weights[..|weights| - 1])| {
      ExpandBelow(weights[..|weights| - 1], i);
    }
  }

  function Ones(n: nat): (r: seq<nat>)
    ensures |r| == n
  {
    seq(n, _ => 1)
  }

  /** The fallback slice counts 0, 1, 2, ... */
  lemma {:induction false} ExpandOnes(n: nat)
    requires n <= 256
    ensures |Expand(Ones(n))| == n && forall i | 0 <= i < n :: Expand(Ones(n))[i] == i
  {
    if n > 0 {
      assert Ones(n)[..n - 1] == Ones(n - 1);
      ExpandOnes(n - 1);
    }
  }

  // ----- the size test ----------------------------------------------------------------------

  /** The test for room as it is taken, in 32 bits. */
  predicate SeemsToFit(size: nat, weights: seq<nat>, limit: nat) {
    (size + Total(weights) % WORD) % WORD <= limit
  }

  /** The sum does not wrap into the limit. */
  predicate SumSafe(size: nat, weights: seq<nat>, limit: nat) {
    size + Total(weights) < 0x1_0000_0000 || (size + Total(weights)) % 0x1_0000_0000 > limit
  }

  /** The test is right exactly when the sum does not wrap into the limit. */
  lemma FitsExact(size: nat, weights: seq<nat>, limit: nat)
    requires size <= limit < 0x1_0000_0000
    ensures (SeemsToFit(size, weights, limit) <==> size + Total(weights) <= limit) <==> SumSafe(size, weights, limit)
  {
    WrapSum(size, Total(weights));
  }

  lemma WrapSum(a: nat, b: nat)
    ensures (a + b % WORD) % WORD == (a + b) % WORD
  {
    assert b == b / WORD * WORD + b % WORD;
  }

  /** Two weights whose sum wraps to 0 seem to fit into any table. */
  lemma WrappedInput(size: nat, limit: nat)
    requires size <= limit < WORD
    ensures SeemsToFit(size, [WORD - 1, 1], limit) && size + Total([WORD - 1, 1]) > limit
  {
    var weights := [WORD - 1, 1];
    assert weights[..1] == [WORD - 1] && weights[..1][..0] == [];
    assert Total(weights[..1][..0]) == 0;
    assert Total(weights[..1]) == WORD - 1;
    assert Total(weights) == WORD;
  }

  /** The sum of the weights in 32 bits. */
  method Sum(weights: seq<nat>) returns (total: nat)
    ensures total == Total(weights) % WORD
  {
    total := 0;
    for i := 0 to |weights|
      invariant total == Total(weights[..i]) % WORD
    {
      assert weights[..i + 1][..i] == weights[..i];
      WrapSum(weights[i], Total(weights[..i]));
      total := (total + weights[i]) % WORD;
    }
    assert weights[..|weights|] == weights;
  }

  /** The test for room. */
  method Fits(size: nat, weights: seq<nat>, limit: nat) returns (ok: bool)
    requires size <= limit < 0x1_0000_0000 && SumSafe(size, weights, limit)
    ensures ok <==> size + Total(weights) <= limit
  {
    hide Total;
    FitsExact(size, weights, limit);
    var total := Sum(weights);
    return (size + total) % WORD <= limit;
  }

  // ----- the table --------------------------------------------------------------------------

  datatype Range = Range(start: nat, size: nat) {
    function End(): nat { start + size }
  }

  /** The slice of the weights. */
  ghost predicate SliceOf(values: map<seq<nat>, Entry>, ranges: map<nat, Range>, base: seq<nat>, size: nat,
                          weights: seq<nat>)
    requires weights in values
  {
    && values[weights].id in ranges && size <= |base| && ranges[values[weights].id].End() <= size
    && base[ranges[values[weights].id].start..ranges[values[weights].id].End()] == Expand(weights)
  }

  ghost predicate Sliced(values: map<seq<nat>, Entry>, ranges: map<nat, Range>, base: seq<nat>, size: nat) {
    forall w | w in values :: SliceOf(values, ranges, base, size, w)
  }

  ghost predicate Separate(ids: map<nat, seq<nat>>, ranges: map<nat, Range>, size: nat) {
    && (forall i | i in ids :: i in ranges && ranges[i].End() <= size)
    && (forall i, j | i in ids && j in ids && i != j ::
          i in ranges && j in ranges && (ranges[i].End() <= ranges[j].start || ranges[j].End() <= ranges[i].start))
  }

  /** A slice behind the others leaves them as they are. */
  lemma SliceMore(values: map<seq<nat>, Entry>, ranges: map<nat, Range>, base: seq<nat>, base': seq<nat>,
                  size: nat, size': nat, weights: seq<nat>, id: nat)
    requires Sliced(values, ranges, base, size) && weights !in values
    requires size <= size' <= |base'| && size <= |base| && base'[..size] == base[..size]
             && base'[size..size'] == Expand(weights)
    requires forall w | w in values :: values[w].id != id
    ensures Sliced(values[weights := Entry(1, id)], ranges[id := Range(size, size' - size)], base', size')
  {
    hide Expand;
    forall w | w in values
      ensures SliceOf(values[weights := Entry(1, id)], ranges[id := Range(size, size' - size)], base', size', w)
    {
      assert SliceOf(values, ranges, base, size, w);
      SameSlice(base, base', size, ranges[values[w].id]);
    }
  }

  lemma SameSlice(base: seq<nat>, base': seq<nat>, size: nat, r: Range)
    requires size <= |base| && size <= |base'| && base'[..size] == base[..size] && r.End() <= size
    ensures base'[r.start..r.End()] == base[r.start..r.End()]
  {
    assert base'[r.start..r.End()] == base'[..size][r.start..r.End()];
    assert base[r.start..r.End()] == base[..size][r.start..r.End()];
  }

  lemma RangeMore(ids: map<nat, seq<nat>>, ranges: map<nat, Range>, size: nat, size': nat, weights: seq<nat>, id: nat)
    requires Separate(ids, ranges, size) && id !in ids && size <= size'
    ensures Separate(ids[id := weights], ranges[id := Range(size, size' - size)], size')
  {
  }

  lemma SlicesCounted(values: map<seq<nat>, Entry>, values': map<seq<nat>, Entry>, ranges: map<nat, Range>,
                      base: seq<nat>, size: nat)
    requires Sliced(values, ranges, base, size) && values'.Keys == values.Keys
             && forall w | w in values :: values'[w].id == values[w].id
    ensures Sliced(values', ranges, base, size)
  {
    hide Expand;
    forall w | w in values'
      ensures SliceOf(values', ranges, base, size, w)
    {
      assert SliceOf(values, ranges, base, size, w);
    }
  }

  /** The table begins with the fallback: the items 0 to 255, once each. */
  ghost predicate Begins(base: seq<nat>, size: nat) {
    256 <= size <= |base| && forall i | 0 <= i < 256 :: base[i] == i
  }

  lemma BeginsMore(base: seq<nat>, base': seq<nat>, size: nat, size': nat)
    requires Begins(base, size) && size <= size' <= |base'| && base'[..size] == base[..size]
    ensures Begins(base', size')
  {
    forall i | 0 <= i < 256
      ensures base'[i] == i
    {
      assert base'[i] == base'[..size][i] && base[i] == base[..size][i];
    }
  }

  lemma BeginsWith(base: seq<nat>, size: nat, count: nat)
    requires Begins(base, size) && count <= 256
    ensures count <= size <= |base| && forall i | 0 <= i < count :: base[i] == i
  {
  }

  class Table {
    const limit: nat
    const values: Allocator<seq<nat>>
    var ranges: map<nat, Range>
    var base: seq<nat>
    var size: nat

    /** Known lists have their slices, and the slices of different lists are apart. */
    ghost predicate Slices()
      reads this, values
    {
      values.Valid() && |base| == limit && size <= limit && Sliced(values.values, ranges, base, size)
      && Separate(values.ids, ranges, size)
    }

    ghost predicate Valid()
      reads this, values
    {
      Slices() && Begins(base, size)
    }

    constructor (limit: nat)
      requires 256 < limit < 0x1_0000_0000
      ensures Valid() && this.limit == limit && fresh(values)
    {
      this.limit := limit;
      values := new Allocator<seq<nat>>(limit);
      ranges, base, size := map[], seq(limit, _ => 0), 0;
      new;
      hide Expand, Total, Ones, Bijective, FreeList, Sliced, Separate;
      NothingSliced(base);
      ExpandOnes(FALLBACK);
      ExpandSize(Ones(FALLBACK));
      var start, count, fallback := Insert(Ones(FALLBACK));
      FallbackIs(base);
    }

    /** The slice of new weights is written behind the others. */
    method Fill(weights: seq<nat>)
      requires size + Total(weights) <= |base|
      modifies this`base, this`size
      ensures size == old(size) + Total(weights) && |base| == |old(base)|
      ensures base[..old(size)] == old(base)[..old(size)] && base[old(size)..size] == Expand(weights)
    {
      ghost var first := size;
      for i := 0 to |weights|
        invariant size == first + Total(weights[..i]) && |base| == |old(base)| && Total(weights[..i]) <= Total(weights)
        invariant base[..first] == old(base)[..first] && base[first..size] == Expand(weights[..i])
      {
        TotalUpTo(weights, i + 1);
        assert weights[..i + 1][..i] == weights[..i];
        var item, n := i % 256, weights[i];
        ghost var was := base;
        base := base[..size] + Repeat(item, n) + base[size + n..];
        assert base[first..size] == was[first..size];
        assert base[size..size + n] == Repeat(item, n);
        assert base[first..size + n] == base[first..size] + base[size..size + n];
        assert base[..first] == was[..first];
        size := size + n;
      }
      assert weights[..|weights|] == weights;
    }

    /** A known list keeps its slice. */
    method Reuse(weights: seq<nat>) returns (start: nat, count: nat)
      requires Slices() && weights in values.values
      modifies values`values
      ensures Slices() && values.values.Keys == old(values.values).Keys
      ensures forall w | w in old(values.values) :: values.values[w].id == old(values.values)[w].id
      ensures SliceOf(values.values, ranges, base, size, weights)
              && Range(start, count) == ranges[values.values[weights].id]
    {
      hide Expand, Bijective, FreeList, Separate, Sliced, SliceOf;
      var known := values.Update(weights);
      SlicesCounted(old(values.values), values.values, ranges, base, size);
      KnownSlices(values.values, ranges, base, size, weights);
      var r := ranges[values.values[weights].id];
      return r.start, r.size;
    }

    /** `insert`: the slice of the weights; the fallback if there is no room or no id. */
    method Insert(weights: seq<nat>) returns (start: nat, count: nat, fallback: bool)
      requires Slices() && limit < 0x1_0000_0000 && (weights in values.values || SumSafe(size, weights, limit))
      modifies this, values
      ensures Slices() && old(size) <= size
      ensures old(Valid()) ==> Valid()
      ensures fallback
              <==> weights !in old(values.values)
                   && (old(size) + Total(weights) > limit || |old(values.ids)| == values.size)
      ensures fallback ==> start == 0 && count == (if |weights| < 256 then |weights| else 256) && size == old(size)
      ensures fallback && old(Valid()) ==> count <= size <= |base| && forall i | 0 <= i < count :: base[i] == i
      ensures !fallback ==> weights in values.values && SliceOf(values.values, ranges, base, size, weights)
      ensures !fallback ==> Range(start, count) == ranges[values.values[weights].id]
      ensures !fallback && weights !in old(values.values) ==>
                start == old(size) && count == Total(weights) && size == start + count
      ensures forall i | i in old(values.ids) && i in old(ranges) :: i in ranges && ranges[i] == old(ranges)[i]
      ensures base[..old(size)] == old(base)[..old(size)]
      ensures forall w | w in old(values.values) ::
                w in values.values && values.values[w].id == old(values.values)[w].id
    {
      hide Expand, Bijective, FreeList, Separate, Sliced, Total, Begins, SumSafe, SliceOf;
      KnownSlices(values.values, ranges, base, size, weights);
      if weights in values.values {
        start, count := Reuse(weights);
        return start, count, false;
      }
      ExpandSize(weights);
      var few := if |weights| < 256 then |weights| else 256;
      if Begins(base, size) {
        BeginsWith(base, size, few);
      }
      var room := Fits(size, weights, limit);
      if !room {
        return 0, few, true;
      }
      var id := values.Insert(weights);
      if id.None? {
        return 0, few, true;
      }
      start, count := size, Total(weights);
      Fill(weights);
      ranges := ranges[id.value := Range(start, count)];
      fallback := false;
      Appended(old(values.values), old(values.ids), old(ranges), old(base), base, old(size), size, weights, id.value);
      if Begins(old(base), old(size)) {
        BeginsMore(old(base), base, old(size), size);
      }
    }
  }

  lemma KnownSlices(values: map<seq<nat>, Entry>, ranges: map<nat, Range>, base: seq<nat>, size: nat, weights: seq<nat>)
    requires Sliced(values, ranges, base, size)
    ensures weights in values ==> SliceOf(values, ranges, base, size, weights) && values[weights].id in ranges
  {
  }

  lemma FallbackIs(base: seq<nat>)
    requires |base| >= FALLBACK && base[0..FALLBACK] == Expand(Ones(FALLBACK))
    ensures forall i | 0 <= i < FALLBACK :: base[i] == i
  {
    ExpandOnes(FALLBACK);
    hide Expand, Ones;
    forall i | 0 <= i < FALLBACK
      ensures base[i] == i
    {
      assert base[0..FALLBACK][i] == base[i];
    }
  }

  lemma NothingSliced(base: seq<nat>)
    ensures Sliced(map[], map[], base, 0) && Separate(map[], map[], 0)
  {
  }

  /** New weights with their slice behind the others. */
  lemma Appended(values: map<seq<nat>, Entry>, ids: map<nat, seq<nat>>, ranges: map<nat, Range>, base: seq<nat>,
                 base': seq<nat>, size: nat, size': nat, weights: seq<nat>, id: nat)
    requires Sliced(values, ranges, base, size) && Separate(ids, ranges, size) && Bijective(values, ids)
    requires weights !in values && id !in ids && size <= size' <= |base'| && size <= |base|
    requires base'[..size] == base[..size] && base'[size..size'] == Expand(weights)
    ensures var values', ranges' := values[weights := Entry(1, id)], ranges[id := Range(size, size' - size)];
            && Sliced(values', ranges', base', size') && Separate(ids[id := weights], ranges', size')
            && SliceOf(values', ranges', base', size', weights)
  {
    hide Expand, Separate, Sliced, SliceOf;
    IdsKnown(values, ids);
    SliceMore(values, ranges, base, base', size, size', weights, id);
    KnownSlices(values[weights := Entry(1, id)], ranges[id := Range(size, size' - size)], base', size', weights);
    RangeMore(ids, ranges, size, size', weights, id);
  }

  lemma IdsKnown(values: map<seq<nat>, Entry>, ids: map<nat, seq<nat>>)
    requires Bijective(values, ids)
    ensures forall w | w in values :: values[w].id in ids
  {
  }

  lemma {:induction false} TotalUpTo(weights: seq<nat>, k: nat)
    requires k <= |weights|
    ensures Total(weights[..k]) <= Total(weights)
    decreases |weights|
  {
    if k == |weights| {
      assert weights[..k] == weights;
    } else {
      assert weights[..|weights| - 1][..k] == weights[..k];
      TotalUpTo(weights[..|weights| - 1], k);
    }
  }
}
