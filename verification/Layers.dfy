/**
  Distributing the groups of the network table over transport layers (`transport_t`), and packing
  a group with its layer into one id (`network_table_t::remap`).
*/
module Layers {
  import opened Base
  import opened NetworkTable

  /** A layer: the transport filters it holds, and the network groups that are looked up in it. */
  datatype Layer = Layer(filters: set<nat>, nets: set<nat>)

  // ----- create_variations ------------------------------------------------------------------

  /** Some rule needs transport filter t for network group g. */
  ghost predicate Needs(groups: seq<set<nat>>, needs: seq<seq<nat>>, k: nat, g: nat, t: nat)
    requires |needs| == |groups|
  {
    exists f :: 0 <= f < k && f < |groups| && g in groups[f] && t in needs[f]
  }

  ghost predicate WantedTo(groups: seq<set<nat>>, needs: seq<seq<nat>>, wanted: map<nat, set<nat>>, k: nat)
    requires |needs| == |groups|
  {
    forall g, t :: g in wanted && t in wanted[g] <==> Needs(groups, needs, k, g, t)
  }

  /** `group_id_transport_filters`: for every group the transport filters that the rules need with it. */
  method Wanted(groups: seq<set<nat>>, needs: seq<seq<nat>>) returns (wanted: map<nat, set<nat>>)
    requires |needs| == |groups|
    ensures WantedTo(groups, needs, wanted, |groups|)
    ensures forall g | g in wanted :: wanted[g] != {}
  {
    wanted := map[];
    for k := 0 to |groups|
      invariant WantedTo(groups, needs, wanted, k) && forall g | g in wanted :: wanted[g] != {}
    {
      var more: set<nat> := set t | t in needs[k];
      var was := wanted;
      if more != {} {
        wanted := was + map g | g in groups[k] :: (if g in was then was[g] else {}) + more;
      }
      WantedStep(groups, needs, was, wanted, k, more);
    }
  }

  lemma WantedStep(groups: seq<set<nat>>, needs: seq<seq<nat>>,
                   was: map<nat, set<nat>>, wanted: map<nat, set<nat>>, k: nat, more: set<nat>)
    requires |needs| == |groups| && k < |groups| && WantedTo(groups, needs, was, k)
    requires forall t :: t in more <==> t in needs[k]
    requires wanted == if more == {} then was
                       else was + map g | g in groups[k] :: (if g in was then was[g] else {}) + more
    ensures WantedTo(groups, needs, wanted, k + 1)
  {
    var n := k + 1;
    forall g: nat, t: nat
      ensures g in wanted && t in wanted[g] <==> Needs(groups, needs, n, g, t)
    {
      assert Needs(groups, needs, n, g, t) <==> Needs(groups, needs, k, g, t) || (g in groups[k] && t in needs[k]);
      hide Needs;
      assert g in was && t in was[g] <==> Needs(groups, needs, k, g, t);
    }
  }

  /** `variation`: the groups that need the same transport filters. */
  ghost predicate Varies(variation: map<set<nat>, set<nat>>, wanted: map<nat, set<nat>>, todo: set<nat>) {
    && (forall z, g | z in variation && g in variation[z] :: g in wanted && g !in todo && wanted[g] == z)
    && (forall g | g in wanted && g !in todo :: wanted[g] in variation && g in variation[wanted[g]])
    && (forall z | z in variation :: variation[z] != {})
  }

  method Variations(wanted: map<nat, set<nat>>) returns (variation: map<set<nat>, set<nat>>)
    ensures Varies(variation, wanted, {})
  {
    variation := map[];
    var todo := wanted.Keys;
    while todo != {}
      invariant todo <= wanted.Keys && Varies(variation, wanted, todo)
    {
      var g :| g in todo;
      var z := wanted[g];
      variation := variation[z := (if z in variation then variation[z] else {}) + {g}];
      todo := todo - {g};
    }
  }

  // ----- distribute -------------------------------------------------------------------------

  /** Every group outside `todo` is in one layer, and that layer holds all filters that the group needs. */
  ghost predicate Distributed(layers: seq<Layer>, wanted: map<nat, set<nat>>, todo: set<set<nat>>) {
    && (forall l, g | 0 <= l < |layers| && g in layers[l].nets ::
          g in wanted && wanted[g] !in todo && wanted[g] <= layers[l].filters)
    && (forall l, m, g | 0 <= l < |layers| && 0 <= m < |layers| && g in layers[l].nets && g in layers[m].nets :: l == m)
    && (forall g | g in wanted && wanted[g] !in todo :: exists l :: 0 <= l < |layers| && g in layers[l].nets)
    && (forall l, t | 0 <= l < |layers| && t in layers[l].filters :: Asked(wanted, t))
  }

  /** Some group needs transport filter t. */
  ghost predicate Asked(wanted: map<nat, set<nat>>, t: nat) {
    exists g :: g in wanted && t in wanted[g]
  }

  // ----- the order of the variations --------------------------------------------------------

  /** The least number that is in one of the sets only is in a: the order of sorted lists of equal length. */
  predicate LessSet(a: set<nat>, b: set<nat>) {
    exists x :: x in a && x !in b && forall y | 0 <= y < x :: y in a <==> y in b
  }

  /** `VariationComparator`: the larger set first. */
  predicate Larger(a: set<nat>, b: set<nat>) {
    |a| > |b| || (|a| == |b| && LessSet(a, b))
  }

  /** The least number that is in one of the sets only. */
  ghost predicate FirstDifference(a: set<nat>, b: set<nat>, x: nat) {
    (x in a <==> x !in b) && forall y: nat | y < x :: y in a <==> y in b
  }

  /** The sets differ, the first is not smaller, and among sets of one size it has their first difference. */
  ghost predicate Before(a: set<nat>, b: set<nat>) {
    && a != b && |a| >= |b|
    && (|a| == |b| ==> forall x: nat | FirstDifference(a, b, x) :: x in a)
  }

  ghost predicate Descending(list: seq<set<nat>>) {
    forall i, j | 0 <= i < j < |list| :: Before(list[i], list[j])
  }

  lemma {:induction false} LeastOf(s: set<nat>) returns (x: nat)
    requires s != {}
    ensures x in s && forall y | y in s :: x <= y
  {
    var first :| first in s;
    var rest := s - {first};
    x := first;
    if rest != {} {
      var least := LeastOf(rest);
      if least < first {
        x := least;
      }
    }
    assert forall y | y in s :: y == first || y in rest;
  }

  lemma {:induction false} SubsetSmaller(a: set<nat>, b: set<nat>)
    requires a <= b && |a| == |b|
    ensures a == b
  {
    if a != {} {
      var x :| x in a;
      SubsetSmaller(a - {x}, b - {x});
    }
  }

  /** Different sets of one size have a first difference. */
  lemma Difference(a: set<nat>, b: set<nat>) returns (x: nat)
    requires a != b && |a| == |b|
    ensures FirstDifference(a, b, x)
  {
    if a <= b {
      SubsetSmaller(a, b);
    }
    x := LeastOf((a - b) + (b - a));
  }

  /** The comparator is that order. */
  lemma LargerIs(a: set<nat>, b: set<nat>)
    ensures Larger(a, b) <==> Before(a, b)
  {
    if |a| == |b| && a != b {
      var x := Difference(a, b);
      forall z: nat | FirstDifference(a, b, z)
        ensures z == x
      {
        assert z < x ==> (z in a <==> z in b);
        assert x < z ==> (x in a <==> x in b);
      }
      if x in a {
        assert LessSet(a, b);
      }
    }
  }

  lemma BeforeOnce(a: set<nat>, b: set<nat>)
    requires Before(a, b)
    ensures !Before(b, a)
  {
    if |a| == |b| {
      var x := Difference(a, b);
      assert FirstDifference(b, a, x);
    }
  }

  lemma BeforeTotal(a: set<nat>, b: set<nat>)
    ensures Before(a, b) || Before(b, a) || a == b
  {
    if |a| == |b| && a != b {
      var x := Difference(a, b);
      forall z: nat | FirstDifference(a, b, z) || FirstDifference(b, a, z)
        ensures z == x
      {
        assert z < x ==> (z in a <==> z in b);
        assert x < z ==> (x in a <==> x in b);
      }
    }
  }

  lemma BeforeTransitive(a: set<nat>, b: set<nat>, c: set<nat>)
    requires Before(a, b) && Before(b, c)
    ensures Before(a, c)
  {
    if |a| == |b| && |b| == |c| {
      var x := Difference(a, b);
      var z := Difference(b, c);
      var m := if x < z then x else z;
      assert m in a && m !in c;
      forall w: nat | FirstDifference(a, c, w)
        ensures w in a
      {
        assert m < w ==> (m in a <==> m in c);
        assert w < m ==> (w in a <==> w in b) && (w in b <==> w in c);
      }
    }
  }

  /** The order of a set of variations is fixed. */
  lemma {:induction false} DescendingUnique(a: seq<set<nat>>, b: seq<set<nat>>)
    requires Descending(a) && Descending(b) && forall z :: z in a <==> z in b
    ensures a == b
  {
    hide Before;
    if a == [] {
      FirstIn(b);
    } else {
      assert a[0] in a && b != [] && b[0] in b;
      if a[0] != b[0] {
        var i :| 0 <= i < |b| && b[i] == a[0];
        var j :| 0 <= j < |a| && a[j] == b[0];
        BeforeOnce(a[0], b[0]);
      }
      forall z
        ensures z in a[1..] <==> z in b[1..]
      {
        RestHas(a, z);
        RestHas(b, z);
      }
      DescendingUnique(a[1..], b[1..]);
      assert a == [a[0]] + a[1..] && b == [b[0]] + b[1..];
    }
  }

  lemma FirstIn(b: seq<set<nat>>)
    ensures b == [] || exists z :: z in b
  {
    if b != [] {
      assert b[0] in b;
    }
  }

  lemma RestHas(a: seq<set<nat>>, z: set<nat>)
    requires Descending(a) && a != []
    ensures z in a[1..] <==> z in a && z != a[0]
    ensures Descending(a[1..])
  {
    hide Before;
    assert a == [a[0]] + a[1..];
    if z in a[1..] {
      var i :| 0 <= i < |a[1..]| && a[1..][i] == z;
      assert Before(a[0], a[i + 1]);
      BeforeOnce(a[0], z);
    }
  }

  /** Inserting a key into the ordered map. */
  method InsertKey(list: seq<set<nat>>, z: set<nat>) returns (r: seq<set<nat>>)
    requires Descending(list) && z !in list
    ensures Descending(r) && forall y :: y in r <==> y in list || y == z
  {
    hide Larger, Before;
    var k := 0;
    while k < |list| && Larger(list[k], z)
      invariant k <= |list| && forall i | 0 <= i < k :: Before(list[i], z)
    {
      LargerIs(list[k], z);
      k := k + 1;
    }
    if k < |list| {
      LargerIs(list[k], z);
    }
    r := list[..k] + [z] + list[k..];
    KeyInserted(list, z, k, r);
  }

  lemma KeyInserted(list: seq<set<nat>>, z: set<nat>, k: nat, r: seq<set<nat>>)
    requires Descending(list) && z !in list && k <= |list| && r == list[..k] + [z] + list[k..]
    requires (forall i | 0 <= i < k :: Before(list[i], z)) && (k < |list| ==> !Before(list[k], z))
    ensures Descending(r) && forall y :: y in r <==> y in list || y == z
  {
    hide Before;
    forall i | k <= i < |list|
      ensures Before(z, list[i])
    {
      BeforeTotal(list[k], z);
      if k < i {
        BeforeTransitive(z, list[k], list[i]);
      }
    }
    assert list == list[..k] + list[k..];
  }

  /** The larger sets first, and sets of one size by their first difference. */
  method OrderKeys(keys: set<set<nat>>) returns (list: seq<set<nat>>)
    ensures Descending(list) && forall z :: z in list <==> z in keys
    ensures forall i, j | 0 <= i < j < |list| :: |list[i]| >= |list[j]|
    ensures forall i, j, x: nat | 0 <= i < j < |list| && |list[i]| == |list[j]|
              && FirstDifference(list[i], list[j], x) :: x in list[i]
  {
    hide Descending;
    list := [];
    NoKeys();
    var todo := keys;
    while todo != {}
      invariant todo <= keys && Descending(list) && forall z :: z in list <==> z in keys && z !in todo
    {
      var z :| z in todo;
      list := InsertKey(list, z);
      todo := todo - {z};
    }
    OrderIs(list);
  }

  lemma OrderIs(list: seq<set<nat>>)
    requires Descending(list)
    ensures forall i, j | 0 <= i < j < |list| :: |list[i]| >= |list[j]|
    ensures forall i, j, x: nat | 0 <= i < j < |list| && |list[i]| == |list[j]|
              && FirstDifference(list[i], list[j], x) :: x in list[i]
  {
    hide FirstDifference;
  }

  lemma NoKeys()
    ensures Descending([])
  {
  }

  // ----- choosing a layer -------------------------------------------------------------------

  /** A layer for the filters that is new, is empty or holds all of them. */
  ghost predicate Good(held: seq<set<nat>>, z: set<nat>, l: nat) {
    l >= |held| || held[l] == {} || z <= held[l]
  }

  /** The first layer from l on that is new, is empty or holds all the filters; max if there is none. */
  function FirstGood(held: seq<set<nat>>, z: set<nat>, l: nat, max: nat): (r: nat)
    requires l <= max
    ensures l <= r <= max && (r < max ==> Good(held, z, r)) && (l <= |held| ==> r <= |held|)
    ensures forall i: nat | l <= i < r :: !Good(held, z, i)
    decreases max - l
  {
    if l == max || l >= |held| || held[l] == {} || z <= held[l] then l else FirstGood(held, z, l + 1, max)
  }

  /** Of the first n layers, the first of those that grow least. */
  function LeastGrowth(held: seq<set<nat>>, z: set<nat>, n: nat): (r: nat)
    requires 0 < n <= |held|
    ensures r < n && (forall i | 0 <= i < n :: |held[r] + z| <= |held[i] + z|)
            && forall i | 0 <= i < r :: |held[r] + z| < |held[i] + z|
  {
    if n == 1 then 0
    else
      var best := LeastGrowth(held, z, n - 1);
      if |held[n - 1] + z| < |held[best] + z| then n - 1 else best
  }

  /** The layer for a variation: the first good one, else the first of those that grow least. */
  function BestLayer(held: seq<set<nat>>, z: set<nat>, max: nat): (r: nat)
    requires held != []
    ensures r <= |held| && (max == 0 ==> r == 0)
  {
    var good := FirstGood(held, z, 0, max);
    if good < max then good else if max == 0 then 0 else LeastGrowth(held, z, max)
  }

  /** The filters of the layers with one more variation. */
  function WithVariation(held: seq<set<nat>>, z: set<nat>, max: nat): (r: seq<set<nat>>)
    requires held != []
    ensures r != []
  {
    var best := BestLayer(held, z, max);
    if best < |held| then held[best := held[best] + z] else held + [z]
  }

  /** The filters of the layers after all variations. */
  function LayersOf(list: seq<set<nat>>, max: nat): (r: seq<set<nat>>)
    ensures r != []
  {
    if list == [] then [{}] else WithVariation(LayersOf(list[..|list| - 1], max), list[|list| - 1], max)
  }

  function FiltersOf(layers: seq<Layer>): (r: seq<set<nat>>)
    ensures |r| == |layers|
  {
    seq(|layers|, l requires 0 <= l < |layers| => layers[l].filters)
  }

  /** The layer for a variation: the first that is empty or holds all its filters, else the one that grows least. */
  method Choose(layers: seq<Layer>, filters: set<nat>, max: nat) returns (best: nat, layers': seq<Layer>)
    requires |layers| >= 1
    ensures best == BestLayer(FiltersOf(layers), filters, max) && Chosen(FiltersOf(layers), filters, max, best)
    ensures layers' == if best < |layers| then layers else layers + [Layer({}, {})]
    ensures best < |layers'| && (|layers'| <= |layers| || |layers'| <= max)
  {
    hide BestLayer, FirstGood, LeastGrowth, Chosen;
    best, layers' := 0, layers;
    ghost var held := FiltersOf(layers);
    BestExact(held, filters, max);
    var bestCount := 0;
    var l := 0;
    while l < max
      invariant 0 <= l <= max && l <= |layers| && layers' == layers && best < |layers| && (l == 0 ==> best == 0)
      invariant FirstGood(held, filters, l, max) == FirstGood(held, filters, 0, max)
      invariant l > 0 ==> best == LeastGrowth(held, filters, l) && bestCount == |held[best] + filters|
    {
      if l == |layers'| {
        layers' := layers' + [Layer({}, {})];
      }
      var now := layers'[l].filters;
      if now == {} || filters <= now {
        best := l;
        GoodStep(held, filters, l, max);
        BestIs(held, filters, max);
        return;
      }
      GoodStep(held, filters, l, max);
      GrowthStep(held, filters, l);
      if l == 0 || |now + filters| < bestCount {
        best, bestCount := l, |now + filters|;
      }
      l := l + 1;
    }
    BestIs(held, filters, max);
  }

  /** The first good layer; without one the first of those that grow least. */
  ghost predicate Chosen(held: seq<set<nat>>, z: set<nat>, max: nat, best: nat) {
    if max == 0 then best == 0
    else if forall l: nat | l < max :: !Good(held, z, l) then
      && best < max <= |held| && (forall i | 0 <= i < max :: |held[best] + z| <= |held[i] + z|)
      && forall i | 0 <= i < best :: |held[best] + z| < |held[i] + z|
    else
      best < max && Good(held, z, best) && forall l: nat | l < best :: !Good(held, z, l)
  }

  lemma BestExact(held: seq<set<nat>>, z: set<nat>, max: nat)
    requires held != []
    ensures Chosen(held, z, max, BestLayer(held, z, max))
  {
    BestIs(held, z, max);
    hide BestLayer;
    var good := FirstGood(held, z, 0, max);
    assert good < max ==> Good(held, z, good);
  }

  /** The filters of the variation are added to the chosen layer, and to no other. */
  ghost predicate Grows(held: seq<set<nat>>, z: set<nat>, max: nat, held': seq<set<nat>>) {
    exists best: nat ::
      && Chosen(held, z, max, best) && |held'| == (if best < |held| then |held| else |held| + 1)
      && forall l | 0 <= l < |held'| ::
        held'[l] == (if l < |held| then held[l] else {}) + (if l == best then z else {})
  }

  /** From one empty layer, the layers grow with one variation after the other. */
  ghost predicate Layered(order: seq<set<nat>>, max: nat, states: seq<seq<set<nat>>>) {
    && |states| == |order| + 1 && states[0] == [{}]
    && forall i | 0 <= i < |order| :: Grows(states[i], order[i], max, states[i + 1])
  }

  lemma GrowsWith(held: seq<set<nat>>, z: set<nat>, max: nat)
    requires held != []
    ensures Grows(held, z, max, WithVariation(held, z, max))
  {
    BestExact(held, z, max);
    hide BestLayer, Chosen;
  }

  /** The layers are those of such a run. */
  lemma {:induction false} LayersExact(order: seq<set<nat>>, max: nat) returns (states: seq<seq<set<nat>>>)
    ensures Layered(order, max, states) && states[|order|] == LayersOf(order, max)
  {
    if order == [] {
      states := [[{}]];
    } else {
      var n := |order| - 1;
      var front := order[..n];
      var was := LayersExact(front, max);
      GrowsWith(LayersOf(front, max), order[n], max);
      states := was + [LayersOf(order, max)];
      hide Grows, WithVariation;
      forall i | 0 <= i < |order|
        ensures Grows(states[i], order[i], max, states[i + 1])
      {
        if i < n {
          assert Grows(was[i], front[i], max, was[i + 1]);
        }
      }
    }
  }

  lemma BestIs(held: seq<set<nat>>, z: set<nat>, max: nat)
    requires held != []
    ensures var good := FirstGood(held, z, 0, max);
            if good < max then BestLayer(held, z, max) == good
            else max <= |held| && BestLayer(held, z, max) == if max == 0 then 0 else LeastGrowth(held, z, max)
  {
    hide FirstGood, LeastGrowth;
  }

  lemma GoodStep(held: seq<set<nat>>, z: set<nat>, l: nat, max: nat)
    requires l < max
    ensures FirstGood(held, z, l, max)
            == if l >= |held| || held[l] == {} || z <= held[l] then l else FirstGood(held, z, l + 1, max)
  {
  }

  lemma GrowthStep(held: seq<set<nat>>, z: set<nat>, l: nat)
    requires l < |held|
    ensures LeastGrowth(held, z, l + 1)
            == if l == 0 then 0
               else if |held[l] + z| < |held[LeastGrowth(held, z, l)] + z| then l else LeastGrowth(held, z, l)
  {
  }

  ghost predicate SomeVariation(wanted: map<nat, set<nat>>, z: set<nat>) {
    exists g :: g in wanted && wanted[g] == z
  }

  /** The variations in their order. */
  ghost predicate VariationsAre(list: seq<set<nat>>, wanted: map<nat, set<nat>>) {
    Descending(list) && forall z :: z in list <==> SomeVariation(wanted, z)
  }

  /** `distribute`, in the order of the variations. */
  method Distribute(wanted: map<nat, set<nat>>, max: nat) returns (layers: seq<Layer>, ghost order: seq<set<nat>>)
    ensures Distributed(layers, wanted, {}) && 1 <= |layers| && (|layers| <= max || |layers| == 1)
    ensures VariationsAre(order, wanted) && FiltersOf(layers) == LayersOf(order, max)
    ensures forall i, j | 0 <= i < j < |order| :: |order[i]| >= |order[j]|
    ensures forall i, j, x: nat | 0 <= i < j < |order| && |order[i]| == |order[j]|
              && FirstDifference(order[i], order[j], x) :: x in order[i]
  {
    hide Descending, Distributed, Chosen, FirstDifference, BestLayer, LayersOf, FiltersOf, Varies, VariationsAre;
    var variation := Variations(wanted);
    var list := OrderKeys(variation.Keys);
    layers := [Layer({}, {})];
    NothingDistributed(wanted, variation);
    OneLayer(max);
    ghost var todo := variation.Keys;
    assert list[..0] == [];
    for i := 0 to |list|
      invariant todo == (set z | z in variation && z !in list[..i])
      invariant Distributed(layers, wanted, todo) && 1 <= |layers| && (|layers| <= max || |layers| == 1)
      invariant FiltersOf(layers) == LayersOf(list[..i], max)
    {
      var z := list[i];
      DescendingNew(list, i);
      var best;
      ghost var was := layers;
      best, layers := Choose(layers, z, max);
      var layer := layers[best];
      layers := layers[best := Layer(layer.filters + z, layer.nets + variation[z])];
      DistributeStep(was, layers, wanted, variation, todo, z, best);
      LayersStep(list, i, max, was, layers, best);
      todo := todo - {z};
    }
    assert list[..|list|] == list;
    order := list;
    assert todo == {};
    KeysAre(variation, wanted, list);
  }

  lemma OneLayer(max: nat)
    ensures FiltersOf([Layer({}, {})]) == LayersOf([], max)
  {
  }

  lemma NothingDistributed(wanted: map<nat, set<nat>>, variation: map<set<nat>, set<nat>>)
    requires Varies(variation, wanted, {})
    ensures Distributed([Layer({}, {})], wanted, variation.Keys)
  {
  }

  lemma DescendingNew(list: seq<set<nat>>, i: nat)
    requires Descending(list) && i < |list|
    ensures list[i] !in list[..i] && list[..i + 1] == list[..i] + [list[i]]
  {
    forall j | 0 <= j < i
      ensures list[j] != list[i]
    {
      assert Before(list[j], list[i]);
    }
  }

  lemma LayersStep(list: seq<set<nat>>, i: nat, max: nat, layers: seq<Layer>, layers': seq<Layer>, best: nat)
    requires i < |list| && |layers| >= 1 && FiltersOf(layers) == LayersOf(list[..i], max)
             && best == BestLayer(FiltersOf(layers), list[i], max)
    requires |layers'| == (if best < |layers| then |layers| else |layers| + 1) && best < |layers'|
    requires forall l | 0 <= l < |layers'| ::
               layers'[l].filters == (if l < |layers| then layers[l].filters else {}) + (if l == best then list[i]
                                                                                         else {})
    ensures FiltersOf(layers') == LayersOf(list[..i + 1], max)
  {
    LayersMore(list, i, max);
    var held, z := FiltersOf(layers), list[i];
    hide BestLayer, LayersOf;
    var now := WithVariation(held, z, max);
    assert |now| == |layers'|;
    forall l | 0 <= l < |layers'|
      ensures FiltersOf(layers')[l] == now[l]
    {
    }
  }

  lemma LayersMore(list: seq<set<nat>>, i: nat, max: nat)
    requires i < |list|
    ensures LayersOf(list[..i + 1], max) == WithVariation(LayersOf(list[..i], max), list[i], max)
  {
    hide WithVariation;
    var all := list[..i + 1];
    assert all[..i] == list[..i] && all[i] == list[i];
  }

  lemma KeysAre(variation: map<set<nat>, set<nat>>, wanted: map<nat, set<nat>>, list: seq<set<nat>>)
    requires Varies(variation, wanted, {}) && Descending(list) && forall z :: z in list <==> z in variation
    ensures VariationsAre(list, wanted)
  {
    hide Descending;
    forall z
      ensures z in variation <==> SomeVariation(wanted, z)
    {
      if z in variation {
        var g :| g in variation[z];
        assert wanted[g] == z;
      }
    }
  }

  lemma DistributeStep(layers: seq<Layer>, layers': seq<Layer>,
                       wanted: map<nat, set<nat>>, variation: map<set<nat>, set<nat>>,
                       todo: set<set<nat>>, z: set<nat>, best: nat)
    requires Distributed(layers, wanted, todo) && Varies(variation, wanted, {}) && z in todo && z in variation
    requires best < |layers'| && |layers| <= |layers'|
    requires forall l | 0 <= l < |layers'| ::
               var was := if l < |layers| then layers[l] else Layer({}, {});
               layers'[l] == if l == best then Layer(was.filters + z, was.nets + variation[z]) else was
    ensures Distributed(layers', wanted, todo - {z})
  {
    forall l, m, g | 0 <= l < |layers'| && 0 <= m < |layers'| && g in layers'[l].nets && g in layers'[m].nets
      ensures l == m
    {
      assert g in variation[z] ==> wanted[g] == z;
    }
    assert forall t | t in z :: Asked(wanted, t) by {
      var g :| g in variation[z];
      assert wanted[g] == z;
    }
    forall g | g in wanted && wanted[g] !in todo - {z}
      ensures exists l :: 0 <= l < |layers'| && g in layers'[l].nets
    {
      if wanted[g] == z {
        assert g in layers'[best].nets;
      } else {
        var l :| 0 <= l < |layers| && g in layers[l].nets;
        assert g in layers'[l].nets;
      }
    }
  }

  // ----- packing ----------------------------------------------------------------------------

  function Pow2(n: nat): (p: nat)
    ensures p > 0
  {
    if n == 0 then 1 else 2 * Pow2(n - 1)
  }

  function Quotient(a: nat, b: nat): nat
    requires b > 0
  {
    a / b
  }

  function Remainder(a: nat, b: nat): (r: nat)
    requires b > 0
    ensures r < b
  {
    a % b
  }

  /** `__builtin_popcount` */
  function Ones(n: nat): nat {
    if n == 0 then 0 else n % 2 + Ones(n / 2)
  }

  /** Bitwise or. */
  function Or(a: nat, b: nat): nat
    decreases a + b
  {
    if a == 0 then b else if b == 0 then a
    else (if a % 2 == 1 || b % 2 == 1 then 1 else 0) + 2 * Or(a / 2, b / 2)
  }

  /** `(group << shift) | layer` */
  function Pack(group: nat, layer: nat, shift: nat): nat {
    Or(group * Pow2(shift), layer)
  }

  lemma {:induction false} OrBelow(a: nat, b: nat, n: nat)
    requires b < Pow2(n)
    ensures Or(a * Pow2(n), b) == a * Pow2(n) + b
    decreases n
  {
    if n > 0 && a > 0 && b > 0 {
      var p := Pow2(n - 1);
      assert a * Pow2(n) == 2 * (a * p);
      assert a * p > 0;
      OrBelow(a, b / 2, n - 1);
    }
  }

  /** A layer below 2^shift can be read back from the packed id, and so can the group. */
  lemma PackDecodes(group: nat, layer: nat, shift: nat)
    requires layer < Pow2(shift)
    ensures Quotient(Pack(group, layer, shift), Pow2(shift)) == group
    ensures Remainder(Pack(group, layer, shift), Pow2(shift)) == layer
  {
    OrBelow(group, layer, shift);
    DivMod(group, layer, Pow2(shift));
  }

  lemma DivMod(q: nat, r: nat, d: nat)
    requires r < d
    ensures Quotient(q * d + r, d) == q && Remainder(q * d + r, d) == r
  {
    var x := q * d + r;
    var a := x / d;
    assert x == a * d + x % d;
    if q < a {
      LessMul(q, a, d);
    } else if a < q {
      LessMul(a, q, d);
    }
  }

  lemma {:induction false} LessMul(x: nat, y: nat, d: nat)
    requires x < y
    ensures x * d + d <= y * d
    decreases y
  {
    assert y * d == (y - 1) * d + d;
    if x < y - 1 {
      LessMul(x, y - 1, d);
    }
  }

  lemma {:induction false} OnesBound(n: nat)
    ensures Pow2(Ones(n)) <= n + 1
    ensures Pow2(Ones(n)) == n + 1 <==> IsPower(n + 1)
  {
    if n > 0 {
      OnesBound(n / 2);
      if n % 2 == 1 {
        assert n + 1 == 2 * (n / 2 + 1);
        assert (n + 1) % 2 == 0 && (n + 1) / 2 == n / 2 + 1;
      } else {
        assert Pow2(Ones(n)) == Pow2(Ones(n / 2)) <= n / 2 + 1 < n + 1;
        assert (n + 1) % 2 == 1;
      }
    }
  }

  ghost predicate KeepsApart(max: nat, shift: nat) {
    forall g: nat, l: nat, g': nat, l': nat | l < max && l' < max
    && Pack(g, l, shift) == Pack(g', l', shift) :: g == g' && l == l'
  }

  /**
    With shift = popcount(max - 1), packing keeps (group, layer) pairs with layer < max apart
    exactly when max is a power of two.
  */
  lemma PackInjective(max: nat)
    requires max >= 1
    ensures KeepsApart(max, Ones(max - 1)) <==> IsPower(max)
  {
    var shift := Ones(max - 1);
    OnesBound(max - 1);
    if IsPower(max) {
      forall g: nat, l: nat, g': nat, l': nat | l < max && l' < max && Pack(g, l, shift) == Pack(g', l', shift)
        ensures g == g' && l == l'
      {
        PackDecodes(g, l, shift);
        PackDecodes(g', l', shift);
      }
    } else {
      var l := Pow2(shift);
      assert l < max;
      assert Pack(0, l, shift) == l == Pack(1, 0, shift);
    }
  }
}
