/**
  Network ids: a network group packed with the layer it was given (`network_table_t::remap`), and
  the layer that the dataplane reads back from it with the mask of the layers.
*/
module Packing {
  import opened Base
  import opened NetworkTable
  import opened Layers

  /** No group is in two layers. */
  ghost predicate Apart(layers: seq<Layer>) {
    forall l, m, g | 0 <= l < |layers| && 0 <= m < |layers| && g in layers[l].nets && g in layers[m].nets :: l == m
  }

  ghost predicate InLayer(layers: seq<Layer>, k: nat, g: nat) {
    exists l :: 0 <= l < k && l < |layers| && g in layers[l].nets
  }

  /** The id of every group of the first k layers. */
  ghost predicate PackedTo(layers: seq<Layer>, shift: nat, ids: map<nat, nat>, k: nat) {
    && (forall g :: g in ids <==> InLayer(layers, k, g))
    && (forall l: nat, g | l < k && l < |layers| && g in layers[l].nets :: g in ids && ids[g] == Pack(g, l, shift))
  }

  /** The ids of all groups; None stands for the error that a group is in two layers. */
  method PackAll(layers: seq<Layer>, shift: nat) returns (r: Option<map<nat, nat>>)
    ensures r.Some? <==> Apart(layers)
    ensures r.Some? ==> PackedTo(layers, shift, r.value, |layers|)
  {
    hide Pack;
    var ids: map<nat, nat> := map[];
    for l := 0 to |layers|
      invariant PackedTo(layers, shift, ids, l) && Apart(layers[..l])
    {
      var todo := layers[l].nets;
      ghost var was := ids;
      while todo != {}
        invariant todo <= layers[l].nets && forall g | g in layers[l].nets && g !in todo :: g !in was
        invariant forall g :: g in ids <==> g in was || (g in layers[l].nets && g !in todo)
        invariant forall g | g in was :: ids[g] == was[g]
        invariant forall g | g in layers[l].nets && g !in todo :: ids[g] == Pack(g, l, shift)
      {
        var g :| g in todo;
        if g in ids {
          assert InLayer(layers, l, g);
          return None;
        }
        ids := ids[g := Pack(g, l, shift)];
        todo := todo - {g};
      }
      PackedStep(layers, shift, was, ids, l);
    }
    assert layers[..|layers|] == layers;
    return Some(ids);
  }

  lemma PackedStep(layers: seq<Layer>, shift: nat, was: map<nat, nat>, ids: map<nat, nat>, l: nat)
    requires l < |layers| && PackedTo(layers, shift, was, l) && Apart(layers[..l])
    requires forall g | g in layers[l].nets :: g !in was && g in ids && ids[g] == Pack(g, l, shift)
    requires forall g :: g in ids <==> g in was || g in layers[l].nets
    requires forall g | g in was :: ids[g] == was[g]
    ensures PackedTo(layers, shift, ids, l + 1) && Apart(layers[..l + 1])
  {
    hide Pack;
    var k := l + 1;
    forall g: nat
      ensures InLayer(layers, k, g) <==> InLayer(layers, l, g) || g in layers[l].nets
    {
    }
    forall i, j, g | 0 <= i < k && 0 <= j < k && g in layers[..k][i].nets && g in layers[..k][j].nets
      ensures i == j
    {
      if i < l && j < l {
        assert g in layers[..l][i].nets && g in layers[..l][j].nets;
      }
    }
  }

  /** The id of a group: groups without a layer have id 0. */
  function IdOf(ids: map<nat, nat>, g: nat): nat {
    if g in ids then ids[g] else 0
  }

  /** The ids of the groups of one layer. */
  method LayerIds(nets: set<nat>, l: nat, shift: nat) returns (list: seq<nat>)
    requires l < Pow2(shift)
    ensures forall n: nat :: n in list <==> exists g :: g in nets && n == Pack(g, l, shift)
    ensures forall i, j | 0 <= i < |list| && 0 <= j < |list|
            && Quotient(list[i], Pow2(shift)) == Quotient(list[j], Pow2(shift)) :: i == j
  {
    hide Pack, Pow2, Quotient;
    var groups: seq<nat> := [];
    list := [];
    var todo := nets;
    while todo != {}
      invariant todo <= nets && |groups| == |list| && forall g: nat :: g in groups <==> g in nets && g !in todo
      invariant forall i | 0 <= i < |list| ::
                  list[i] == Pack(groups[i], l, shift) && Quotient(list[i], Pow2(shift)) == groups[i]
      invariant forall i, j | 0 <= i < |groups| && 0 <= j < |groups| && groups[i] == groups[j] :: i == j
    {
      var g :| g in todo;
      PackDecodes(g, l, shift);
      groups, list := groups + [g], list + [Pack(g, l, shift)];
      todo := todo - {g};
    }
    forall n: nat
      ensures n in list <==> exists g :: g in nets && n == Pack(g, l, shift)
    {
      if g :| g in nets && n == Pack(g, l, shift) {
        var i :| 0 <= i < |groups| && groups[i] == g;
        assert list[i] == n;
      }
      if i :| 0 <= i < |list| && list[i] == n {
        assert groups[i] in groups;
      }
    }
  }

  /** `upper_power_of_two`: the least power of two that is not below n. */
  function UpperPower(n: nat, w: nat): (p: nat)
    requires w > 0
    ensures p >= n && p >= w
    decreases n - w
  {
    if w < n then UpperPower(n, 2 * w) else w
  }

  /** The layer of a network id: its bits under the mask of the layers. */
  function LayerOf(net: nat, layers: nat): nat {
    Remainder(net, UpperPower(layers, 1))
  }

  lemma {:induction false} UpperIsPower(n: nat, k: nat, shift: nat)
    requires n <= Pow2(shift) && k <= shift
    ensures exists m :: k <= m <= shift && UpperPower(n, Pow2(k)) == Pow2(m)
    decreases shift - k
  {
    if Pow2(k) < n {
      if k == shift {
        assert false;
      }
      assert 2 * Pow2(k) == Pow2(k + 1);
      UpperIsPower(n, k + 1, shift);
      var m :| k + 1 <= m <= shift && UpperPower(n, Pow2(k + 1)) == Pow2(m);
    } else {
      assert UpperPower(n, Pow2(k)) == Pow2(k);
    }
  }

  lemma {:induction false} PowSplit(g: nat, m: nat, shift: nat)
    requires m <= shift
    ensures g * Pow2(shift) == g * Pow2(shift - m) * Pow2(m)
    decreases shift - m
  {
    if m < shift {
      PowSplit(g, m + 1, shift);
      var x, y := Pow2(shift - m - 1), Pow2(m);
      assert Pow2(shift - m) == 2 * x && Pow2(m + 1) == 2 * y;
      Regroup(g, x, y);
    }
  }

  lemma Regroup(g: nat, x: nat, y: nat)
    ensures g * x * (2 * y) == g * (2 * x) * y
  {
    assert g * (2 * x) == 2 * (g * x);
  }

  lemma PackSum(g: nat, l: nat, shift: nat, m: nat)
    requires l < Pow2(shift) && m <= shift
    ensures Pack(g, l, shift) == g * Pow2(shift - m) * Pow2(m) + l
  {
    OrBelow(g, l, shift);
    hide Pow2, Or;
    PowSplit(g, m, shift);
  }

  lemma OnePow()
    ensures Pow2(0) == 1
  {
  }

  /** The mask of the layers reads the layer back from a packed id. */
  lemma LayerDecodes(g: nat, l: nat, shift: nat, layers: nat)
    requires l < layers <= Pow2(shift)
    ensures LayerOf(Pack(g, l, shift), layers) == l
  {
    hide Pow2, Pack, UpperPower, Remainder, Quotient;
    OnePow();
    UpperIsPower(layers, 0, shift);
    var m :| 0 <= m <= shift && UpperPower(layers, Pow2(0)) == Pow2(m);
    PackSum(g, l, shift, m);
    DivMod(g * Pow2(shift - m), l, Pow2(m));
  }
}
