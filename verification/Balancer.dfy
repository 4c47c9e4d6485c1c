/**
  The incremental update of balancer reals (`balancer_real`, `reconfigure_wlc`, `flush_reals`): between
  reloads, a real of the configuration is pending or the dataplane knows its state.
*/
module Balancer {
  import opened Base

  const SERVICES_SIZE: nat := 2 * 1024 * 1024
  const WEIGHT_MAX: nat := 100
  const DEFAULT_POWER: nat := 10
  const WORD: nat := 0x1_0000_0000

  /** A real of a service, by the key of module, service and real. */
  datatype Real = Real(key: nat, weight: nat)

  datatype Service = Service(id: nat, wlc: bool, power: nat, reals: seq<Real>)

  /** One request: the real is enabled, with a weight of its own or the configured one, or disabled. */
  datatype Request = Request(key: nat, enable: bool, weight: Option<nat>)

  datatype State = State(enabled: bool, weight: nat)

  // ----- least connections ------------------------------------------------------------------

  function Round(x: real): nat
    requires x >= 0.0
  {
    (x + 0.5).Floor
  }

  /** How much less than its share a real carries, times the power; a zero divisor counts as a balanced load. */
  function Boost(load: nat, share: nat, power: nat): real {
    if share == 0 then 1.0 else power as real * (1.0 - load as real / share as real)
  }

  function Grown(weight: nat, boost: real): (w: nat)
    ensures w >= weight
  {
    var ratio := if boost > 1.0 then boost else 1.0;
    assert weight as real * ratio >= weight as real by { Grows(weight as real, ratio); }
    Round(weight as real * ratio)
  }

  /** `calculate_wlc_weight`: products are taken in 32 bits. */
  function WlcWeight(weight: nat, connections: nat, weightSum: nat, connectionSum: nat, power: nat): (r: nat)
    ensures weight == 0 || weightSum == 0 || connectionSum < weightSum ==> r == weight
    ensures weight <= 100 ==> weight <= r <= 100
  {
    if weight == 0 || weightSum == 0 || connectionSum < weightSum then weight
    else
      var w := Grown(weight, Boost(connections * weightSum % WORD, connectionSum * weight % WORD, power));
      if w > WEIGHT_MAX then WEIGHT_MAX else w
  }

  /** The integer quotient is the floor of the real one. */
  lemma FloorIs(x: real, n: int, d: int)
    requires d > 0 && x * d as real == n as real
    ensures x.Floor == n / d
  {
    var q := n / d;
    assert (q * d) as real == q as real * d as real;
    assert q as real <= x by { if x < q as real { Below(x, q as real, d as real); } }
    assert x < (q + 1) as real by { if (q + 1) as real <= x { Scaled((q + 1) as real, x, d as real); } }
  }

  lemma Below(x: real, y: real, d: real)
    requires x < y && d > 0.0
    ensures x * d < y * d
  {
  }

  lemma Scaled(x: real, y: real, d: real)
    requires x <= y && d >= 0.0
    ensures x * d <= y * d
  {
  }

  /** The boosted weight, rounded half up, in whole numbers. */
  function Boosted(weight: nat, load: nat, share: nat, power: nat): int
    requires share > 0
  {
    (2 * weight * power * (share - load) + share) / (2 * share)
  }

  lemma RoundBoost(weight: nat, load: nat, share: nat, power: nat)
    requires share > 0
    ensures (weight as real * Boost(load, share, power) + 0.5).Floor == Boosted(weight, load, share, power)
  {
    var x := weight as real * Boost(load, share, power) + 0.5;
    HalfUp(weight as real, power as real, load as real, share as real);
    AsReal(weight, power, load, share);
    assert (2 * share) as real == 2.0 * share as real;
    FloorIs(x, 2 * weight * power * (share - load) + share, 2 * share);
  }

  lemma AsReal(weight: nat, power: nat, load: nat, share: nat)
    ensures (2 * weight * power * (share - load) + share) as real
         == 2.0 * weight as real * power as real * (share as real - load as real) + share as real
  {
    assert (2 * weight * power) as real == 2.0 * weight as real * power as real;
  }

  lemma HalfUp(w: real, p: real, load: real, share: real)
    requires share > 0.0
    ensures (w * (p * (1.0 - load / share)) + 0.5) * (2.0 * share) == 2.0 * w * p * (share - load) + share
  {
    var x := load / share;
    assert share - load == (1.0 - x) * share by { assert load == x * share; }
    Regroup(w, p, 1.0 - x, share);
  }

  lemma Regroup(a: real, b: real, c: real, d: real)
    ensures 2.0 * a * b * (c * d) == 2.0 * (a * (b * c)) * d
  {
  }

  /**
    The weight in whole numbers: boosted by the load that is missing from the real's share, never lowered, at
    most 100; with a share of 0 it is not boosted.
  */
  lemma WlcExact(weight: nat, connections: nat, weightSum: nat, connectionSum: nat, power: nat)
    requires weight > 0 && weightSum > 0 && connectionSum >= weightSum
    ensures var load, share := connections * weightSum % 0x1_0000_0000, connectionSum * weight % 0x1_0000_0000;
            var boosted := if share == 0 then weight
                           else (2 * weight * power * (share - load) + share) / (2 * share);
            WlcWeight(weight, connections, weightSum, connectionSum, power)
            == if boosted > 100 || weight > 100 then 100 else if boosted > weight then boosted else weight
  {
    var load, share := connections * weightSum % WORD, connectionSum * weight % WORD;
    if share > 0 {
      RoundBoost(weight, load, share, power);
    } else {
      HalfFloor(weight as real, weight);
    }
    RoundGrown(weight, Boost(load, share, power));
    hide Boosted, Grown;
  }

  lemma RoundGrown(weight: nat, boost: real)
    ensures var w := (weight as real * boost + 0.5).Floor;
            Grown(weight, boost) == if w > weight then w else weight
  {
    var x := weight as real;
    if boost > 1.0 {
      Scaled(1.0, boost, x);
      assert x * boost >= x;
    } else {
      Scaled(boost, 1.0, x);
      assert x * boost <= x && x * 1.0 == x;
      HalfFloor(x * boost, weight);
    }
  }

  lemma HalfFloor(y: real, n: nat)
    requires y <= n as real
    ensures (y + 0.5).Floor <= n && (n as real + 0.5).Floor == n
  {
  }

  lemma Grows(x: real, ratio: real)
    requires x >= 0.0 && ratio >= 1.0
    ensures x * ratio >= x
  {
    assert x * ratio - x == x * (ratio - 1.0);
  }

  // ----- the state --------------------------------------------------------------------------

  ghost predicate HasReal(config: seq<Service>, r: Real) {
    exists s, i ::
      0 <= s < |config| && 0 <= i < |config[s].reals| && config[s].id < 2 * 1024 * 1024 && config[s].reals[i] == r
  }

  /** A key is configured once. */
  ghost predicate Distinct(config: seq<Service>) {
    && (forall s, i, t, j | 0 <= s < |config| && 0 <= i < |config[s].reals| && 0 <= t < |config|
        && 0 <= j < |config[t].reals|
          && config[s].reals[i].key == config[t].reals[j].key :: s == t && i == j)
  }

  /** Enabled or not, with the weight by least connections, else the weight of the request, else the configured one. */
  ghost predicate Tells(state: State, r: Real, enabled: map<nat, Option<nat>>, wlc: map<nat, Option<nat>>) {
    && state.enabled == (r.key in enabled)
    && (r.key in wlc && wlc[r.key].Some? ==> state.weight == wlc[r.key].value)
    && (!(r.key in wlc && wlc[r.key].Some?) && r.key in enabled && enabled[r.key].Some? ==>
          state.weight == enabled[r.key].value)
    && (!(r.key in wlc && wlc[r.key].Some?) && !(r.key in enabled && enabled[r.key].Some?) ==> state.weight == r.weight)
  }

  /** The key is that of a configured real with an id, and its id is n. */
  ghost predicate HasId(config: seq<Service>, ids: map<nat, nat>, k: nat, n: nat) {
    k in ids && ids[k] == n && exists r: Real :: HasReal(config, r) && r.key == k
  }

  /** Only ids of pending reals are told, and only their reals are no longer pending. */
  ghost predicate OnlySent(config: seq<Service>, ids: map<nat, nat>, updates0: set<nat>, updates: set<nat>,
                           view0: map<nat, State>, view: map<nat, State>) {
    && updates <= updates0 && (forall k | k in updates0 && k !in updates :: exists n :: HasId(config, ids, k, n))
    && forall n | n in view0 || n in view ::
         (n in view0 && n in view && view[n] == view0[n]) || exists k :: k in updates0 && HasId(config, ids, k, n)
  }

  lemma NothingSent(config: seq<Service>, ids: map<nat, nat>, updates: set<nat>, view: map<nat, State>)
    ensures OnlySent(config, ids, updates, updates, view, view)
  {
  }

  lemma SentMore(config: seq<Service>, ids: map<nat, nat>, updates0: set<nat>, updates: set<nat>,
                 view0: map<nat, State>, view: map<nat, State>, r: Real, state: State)
    requires OnlySent(config, ids, updates0, updates, view0, view) && HasReal(config, r)
    requires r.key in updates && r.key in ids
    ensures OnlySent(config, ids, updates0, updates - {r.key}, view0, view[ids[r.key] := state])
  {
    assert HasId(config, ids, r.key, ids[r.key]);
    hide HasId;
  }

  /** The real at position j of service t, which is before position i of service s, gets a new weight. */
  ghost predicate Turn(config: seq<Service>, enabled: map<nat, Option<nat>>, s: nat, i: nat, t: nat, j: nat) {
    && t < |config| && j < |config[t].reals| && (t < s || (t == s && j < i))
    && config[t].wlc && config[t].id < 2 * 1024 * 1024 && Own(enabled, config[t].reals[j]) != 0
  }

  /** Reals before position i of service s have their new weight. */
  ghost predicate Weighed(config: seq<Service>, enabled: map<nat, Option<nat>>, connections: map<nat, nat>,
                          wlc: map<nat, Option<nat>>, s: nat, i: nat) {
    forall t: nat, j: nat | Turn(config, enabled, s, i, t, j) ::
      var r := config[t].reals[j]; r.key in wlc && wlc[r.key] == Some(WlcOf(enabled, connections, config[t], r))
  }

  ghost predicate Handled(config: seq<Service>, enabled: map<nat, Option<nat>>, s: nat, i: nat, k: nat) {
    exists t: nat, j: nat :: Turn(config, enabled, s, i, t, j) && config[t].reals[j].key == k
  }

  ghost predicate Same(k: nat, a: map<nat, Option<nat>>, b: map<nat, Option<nat>>) {
    (k in a <==> k in b) && (k in a && k in b ==> a[k] == b[k])
  }

  /** No other weight has changed, and those with a changed weight have become pending. */
  ghost predicate OnlyWeighed(config: seq<Service>, enabled: map<nat, Option<nat>>,
                              wlc0: map<nat, Option<nat>>, wlc: map<nat, Option<nat>>,
                              updates0: set<nat>, updates: set<nat>, s: nat, i: nat) {
    && (forall k: nat | !Handled(config, enabled, s, i, k) :: Same(k, wlc0, wlc))
    && forall k: nat :: k in updates <==> k in updates0 || !Same(k, wlc0, wlc)
  }

  lemma WeighedMore(config: seq<Service>, enabled: map<nat, Option<nat>>, connections: map<nat, nat>,
                    was: map<nat, Option<nat>>, wlc: map<nat, Option<nat>>, s: nat, i: nat)
    requires Distinct(config) && s < |config| && i < |config[s].reals|
    requires Weighed(config, enabled, connections, was, s, i)
    requires var r := config[s].reals[i]; wlc == was[r.key := Some(WlcOf(enabled, connections, config[s], r))]
    ensures Weighed(config, enabled, connections, wlc, s, i + 1)
  {
    hide WlcOf, Own;
    forall t: nat, j: nat | Turn(config, enabled, s, i + 1, t, j)
      ensures var r := config[t].reals[j];
              r.key in wlc && wlc[r.key] == Some(WlcOf(enabled, connections, config[t], r))
    {
      assert (t == s && j == i) || Turn(config, enabled, s, i, t, j);
    }
  }

  lemma OnlyWeighedMore(config: seq<Service>, enabled: map<nat, Option<nat>>,
                        wlc0: map<nat, Option<nat>>, was: map<nat, Option<nat>>, wlc: map<nat, Option<nat>>,
                        updates0: set<nat>, pending: set<nat>, updates: set<nat>, s: nat, i: nat)
    requires Distinct(config) && s < |config| && i < |config[s].reals| && Turn(config, enabled, s, i + 1, s, i)
    requires OnlyWeighed(config, enabled, wlc0, was, updates0, pending, s, i)
    requires var k := config[s].reals[i].key;
             && k in wlc && wlc == was[k := wlc[k]] && updates == if Same(k, was, wlc) then pending else pending + {k}
    ensures OnlyWeighed(config, enabled, wlc0, wlc, updates0, updates, s, i + 1)
  {
    var key := config[s].reals[i].key;
    NotHandled(config, enabled, s, i);
    assert Same(key, wlc0, was) && Handled(config, enabled, s, i + 1, key);
    forall k: nat | !Handled(config, enabled, s, i + 1, k)
      ensures Same(k, wlc0, wlc)
    {
      HandledMore(config, enabled, s, i, k);
      assert Same(k, wlc0, was);
    }
    hide Handled;
    forall k: nat
      ensures k in updates <==> k in updates0 || !Same(k, wlc0, wlc)
    {
      assert k in pending <==> k in updates0 || !Same(k, wlc0, was);
    }
  }

  lemma NotHandled(config: seq<Service>, enabled: map<nat, Option<nat>>, s: nat, i: nat)
    requires Distinct(config) && s < |config| && i < |config[s].reals|
    ensures !Handled(config, enabled, s, i, config[s].reals[i].key)
  {
    hide Own;
  }

  lemma HandledMore(config: seq<Service>, enabled: map<nat, Option<nat>>, s: nat, i: nat, k: nat)
    ensures Handled(config, enabled, s, i, k) ==> Handled(config, enabled, s, i + 1, k)
  {
    hide Own;
    if Handled(config, enabled, s, i, k) {
      var t: nat, j: nat :| Turn(config, enabled, s, i, t, j) && config[t].reals[j].key == k;
      assert Turn(config, enabled, s, i + 1, t, j);
    }
  }

  /** The same reals have had their turn. */
  lemma TurnsSame(config: seq<Service>, enabled: map<nat, Option<nat>>, connections: map<nat, nat>,
                  wlc0: map<nat, Option<nat>>, wlc: map<nat, Option<nat>>, updates0: set<nat>, updates: set<nat>,
                  s: nat, i: nat, s': nat, i': nat)
    requires forall t: nat, j: nat :: Turn(config, enabled, s', i', t, j) <==> Turn(config, enabled, s, i, t, j)
    requires Weighed(config, enabled, connections, wlc, s, i)
    requires OnlyWeighed(config, enabled, wlc0, wlc, updates0, updates, s, i)
    ensures Weighed(config, enabled, connections, wlc, s', i')
    ensures OnlyWeighed(config, enabled, wlc0, wlc, updates0, updates, s', i')
  {
    hide Turn, Same, WlcOf;
    forall k: nat | !Handled(config, enabled, s', i', k)
      ensures !Handled(config, enabled, s, i, k)
    {
    }
  }

  lemma RealPassed(config: seq<Service>, enabled: map<nat, Option<nat>>, connections: map<nat, nat>,
                   wlc0: map<nat, Option<nat>>, wlc: map<nat, Option<nat>>, updates0: set<nat>, updates: set<nat>,
                   s: nat, i: nat)
    requires s < |config| && i < |config[s].reals| && Own(enabled, config[s].reals[i]) == 0
    requires Weighed(config, enabled, connections, wlc, s, i)
    requires OnlyWeighed(config, enabled, wlc0, wlc, updates0, updates, s, i)
    ensures Weighed(config, enabled, connections, wlc, s, i + 1)
    ensures OnlyWeighed(config, enabled, wlc0, wlc, updates0, updates, s, i + 1)
  {
    hide Own, Weighed, OnlyWeighed;
    TurnsSame(config, enabled, connections, wlc0, wlc, updates0, updates, s, i, s, i + 1);
  }

  lemma ServicePassed(config: seq<Service>, enabled: map<nat, Option<nat>>, connections: map<nat, nat>,
                      wlc0: map<nat, Option<nat>>, wlc: map<nat, Option<nat>>, updates0: set<nat>, updates: set<nat>,
                      s: nat)
    requires s < |config| && !(config[s].wlc && config[s].id < 2 * 1024 * 1024)
    requires Weighed(config, enabled, connections, wlc, s, 0)
    requires OnlyWeighed(config, enabled, wlc0, wlc, updates0, updates, s, 0)
    ensures Weighed(config, enabled, connections, wlc, s + 1, 0)
    ensures OnlyWeighed(config, enabled, wlc0, wlc, updates0, updates, s + 1, 0)
  {
    hide Own, Weighed, OnlyWeighed;
    TurnsSame(config, enabled, connections, wlc0, wlc, updates0, updates, s, 0, s + 1, 0);
  }

  lemma ServiceDone(config: seq<Service>, enabled: map<nat, Option<nat>>, connections: map<nat, nat>,
                    wlc0: map<nat, Option<nat>>, wlc: map<nat, Option<nat>>, updates0: set<nat>, updates: set<nat>,
                    s: nat)
    requires s < |config| && Weighed(config, enabled, connections, wlc, s, |config[s].reals|)
    requires OnlyWeighed(config, enabled, wlc0, wlc, updates0, updates, s, |config[s].reals|)
    ensures Weighed(config, enabled, connections, wlc, s + 1, 0)
    ensures OnlyWeighed(config, enabled, wlc0, wlc, updates0, updates, s + 1, 0)
  {
    hide Own, Weighed, OnlyWeighed;
    TurnsSame(config, enabled, connections, wlc0, wlc, updates0, updates, s, |config[s].reals|, s + 1, 0);
  }

  class Controller {
    const config: seq<Service>
    /** `reals_unordered`: the dataplane id of a key. */
    const ids: map<nat, nat>
    var enabled: map<nat, Option<nat>>
    var wlc: map<nat, Option<nat>>
    var updates: set<nat>
    /** What the dataplane knows about an id. */
    var view: map<nat, State>

    /** The state of a real, computed from scratch. */
    function Target(r: Real): State
      reads this
    {
      State(r.key in enabled, if r.key in wlc && wlc[r.key].Some? then wlc[r.key].value else Own(enabled, r))
    }

    ghost predicate Shown(r: Real)
      reads this
    {
      r.key in ids && ids[r.key] in view && view[ids[r.key]] == Target(r)
    }

    /** Every configured real with an id is pending, or the dataplane shows its state. */
    ghost predicate Valid()
      reads this
    {
      && Distinct(config) && (forall k, m | k in ids && m in ids && ids[k] == ids[m] :: k == m)
      && (forall r: Real | HasReal(config, r) && r.key in ids :: r.key in updates || Shown(r))
    }

    constructor (config: seq<Service>, ids: map<nat, nat>)
      requires Distinct(config) && forall k, m | k in ids && m in ids && ids[k] == ids[m] :: k == m
      ensures Valid() && this.config == config && this.ids == ids
    {
      this.config, this.ids := config, ids;
      enabled, wlc, view := map[], map[], map[];
      updates := ids.Keys;
    }

    /** `balancer_real` */
    method SetReals(requests: seq<Request>)
      requires Valid()
      modifies this`enabled, this`updates
      ensures Valid() && view == old(view) && wlc == old(wlc)
      ensures enabled == Requested(old(enabled), requests)
      ensures forall k: nat :: k in updates <==> k in old(updates) || !Untouched(requests, |requests|, k)
    {
      hide Distinct, HasReal;
      for i := 0 to |requests|
        invariant Valid() && enabled == Requested(old(enabled), requests[..i])
        invariant forall k: nat :: k in updates <==> k in old(updates) || !Untouched(requests, i, k)
      {
        var q := requests[i];
        ghost var was := enabled;
        if q.enable {
          enabled := enabled[q.key := q.weight];
        } else {
          enabled := enabled - {q.key};
        }
        updates := updates + {q.key};
        RequestedMore(old(enabled), requests, i);
        assert forall k | k != q.key :: (k in enabled <==> k in was) && (k in was ==> enabled[k] == was[k]);
      }
      assert requests[..|requests|] == requests;
    }

    /** The new weight of one real (`reconfigure_wlc`). */
    method SetWlc(key: nat, weight: nat) returns (changed: bool)
      requires Valid()
      modifies this`wlc, this`updates
      ensures Valid() && wlc == old(wlc)[key := Some(weight)]
      ensures changed <==> !(key in old(wlc) && old(wlc)[key] == Some(weight))
      ensures updates == (if changed then old(updates) + {key} else old(updates)) && (!changed ==> wlc == old(wlc))
    {
      hide Distinct, HasReal;
      changed := !(key in wlc && wlc[key] == Some(weight));
      if changed {
        wlc := wlc[key := Some(weight)];
        updates := updates + {key};
      }
    }

    /** The sums over the reals of a service. */
    method Sums(connections: map<nat, nat>, reals: seq<Real>) returns (weightSum: nat, loadSum: nat)
      ensures weightSum == WeightSum(enabled, reals) && loadSum == LoadSum(enabled, connections, reals)
    {
      weightSum, loadSum := 0, 0;
      for i := 0 to |reals|
        invariant weightSum == WeightSum(enabled, reals[..i]) && loadSum == LoadSum(enabled, connections, reals[..i])
      {
        assert reals[..i + 1][..i] == reals[..i] && reals[..i + 1][i] == reals[i];
        var own := Own(enabled, reals[i]);
        weightSum := (weightSum + own) % WORD;
        if own != 0 {
          loadSum := (loadSum + LoadOf(connections, reals[i].key)) % WORD;
        }
      }
      assert reals[..|reals|] == reals;
    }

    /** One service of `reconfigure_wlc`. */
    method Weigh(connections: map<nat, nat>, s: nat, ghost wlc0: map<nat, Option<nat>>, ghost updates0: set<nat>)
      returns (changed: bool)
      requires Valid() && s < |config| && Weighed(config, enabled, connections, wlc, s, 0)
      requires OnlyWeighed(config, enabled, wlc0, wlc, updates0, updates, s, 0)
      modifies this`wlc, this`updates
      ensures Valid() && Weighed(config, enabled, connections, wlc, s + 1, 0)
      ensures OnlyWeighed(config, enabled, wlc0, wlc, updates0, updates, s + 1, 0)
      ensures !changed ==> updates == old(updates) && wlc == old(wlc)
    {
      hide HasReal, WlcWeight, Weighed, OnlyWeighed;
      changed := false;
      var service := config[s];
      if !service.wlc || service.id >= SERVICES_SIZE {
        ServicePassed(config, enabled, connections, wlc0, wlc, updates0, updates, s);
        return;
      }
      var reals := service.reals;
      var weightSum, loadSum := Sums(connections, reals);
      hide WeightSum, LoadSum;
      for i := 0 to |reals|
        invariant Valid() && Weighed(config, enabled, connections, wlc, s, i)
        invariant OnlyWeighed(config, enabled, wlc0, wlc, updates0, updates, s, i)
        invariant !changed ==> updates == old(updates) && wlc == old(wlc)
      {
        var own, key := Own(enabled, reals[i]), reals[i].key;
        if own != 0 {
          ghost var was, pending := wlc, updates;
          var c := SetWlc(key, WlcWeight(own, LoadOf(connections, key), weightSum, loadSum, Power(service)));
          changed := changed || c;
          WeighedMore(config, enabled, connections, was, wlc, s, i);
          OnlyWeighedMore(config, enabled, wlc0, was, wlc, updates0, pending, updates, s, i);
        } else {
          RealPassed(config, enabled, connections, wlc0, wlc, updates0, updates, s, i);
        }
      }
      ServiceDone(config, enabled, connections, wlc0, wlc, updates0, updates, s);
    }

    /**
      `reconfigure_wlc`: all reals of services by least connections get their weight, no other weight changes, and
      the reals with a changed weight become pending.
    */
    method Reconfigure(connections: map<nat, nat>) returns (changed: bool)
      requires Valid()
      modifies this`wlc, this`updates
      ensures Valid() && Weighed(config, enabled, connections, wlc, |config|, 0)
      ensures forall k: nat | !Handled(config, enabled, |config|, 0, k) :: Same(k, old(wlc), wlc)
      ensures forall k: nat :: k in updates <==> k in old(updates) || !Same(k, old(wlc), wlc)
      ensures !changed ==> updates == old(updates) && wlc == old(wlc)
    {
      changed := false;
      for s := 0 to |config|
        invariant Valid() && Weighed(config, enabled, connections, wlc, s, 0)
        invariant OnlyWeighed(config, enabled, old(wlc), wlc, old(updates), updates, s, 0)
        invariant !changed ==> updates == old(updates) && wlc == old(wlc)
      {
        var c := Weigh(connections, s, old(wlc), old(updates));
        changed := changed || c;
      }
    }

    // ----- flush ----------------------------------------------------------------------------

    /** Reals before position i of service s are shown and not pending. */
    ghost predicate Flushed(s: nat, i: nat)
      reads this
    {
      forall t: nat, j: nat | t < |config| && j < |config[t].reals| && (t < s || (t == s && j < i))
      && config[t].id < SERVICES_SIZE
        && config[t].reals[j].key in ids :: config[t].reals[j].key !in updates && Shown(config[t].reals[j])
    }

    /** One real of `flush_reals`: a pending real with an id is sent to the dataplane. */
    method FlushReal(r: Real)
      requires Valid() && HasReal(config, r)
      modifies this`view, this`updates
      ensures Valid() && updates == (if r.key in ids then old(updates) - {r.key} else old(updates))
      ensures view == if r.key in ids && r.key in old(updates) then old(view)[ids[r.key] := Target(r)] else old(view)
      ensures r.key in ids ==> Shown(r)
      ensures r.key in ids ==> ids[r.key] in view && Tells(view[ids[r.key]], r, enabled, wlc)
    {
      if r.key !in updates || r.key !in ids {
        return;
      }
      view := view[ids[r.key] := Target(r)];
      updates := updates - {r.key};
      forall q: Real | HasReal(config, q) && q.key in ids
        ensures q.key in updates || Shown(q)
      {
        if q.key == r.key {
          SameReal(config, q, r);
        }
      }
    }

    /**
      `flush_reals`: afterwards the dataplane shows the state of every configured real with an id, and what it
      knows about other ids is as before.
    */
    method Flush()
      requires Valid()
      modifies this`view, this`updates
      ensures Valid()
      ensures forall r: Real | HasReal(config, r) && r.key in ids :: r.key !in updates
      ensures forall r: Real | HasReal(config, r) && r.key in ids ::
                ids[r.key] in view && Tells(view[ids[r.key]], r, enabled, wlc)
      ensures OnlySent(config, ids, old(updates), updates, old(view), view)
    {
      hide Tells, OnlySent, Distinct;
      NothingSent(config, ids, updates, view);
      for s := 0 to |config|
        invariant Valid() && Flushed(s, 0) && OnlySent(config, ids, old(updates), updates, old(view), view)
      {
        if config[s].id < SERVICES_SIZE {
          for i := 0 to |config[s].reals|
            invariant Valid() && Flushed(s, i) && OnlySent(config, ids, old(updates), updates, old(view), view)
          {
            var r := config[s].reals[i];
            assert HasReal(config, r);
            ghost var view0, updates0 := view, updates;
            FlushReal(r);
            FlushedMore(s, i, view0, updates0);
            if r.key in updates0 && r.key in ids {
              SentMore(config, ids, old(updates), updates0, old(view), view0, r, Target(r));
            } else {
              assert updates == updates0 && view == view0;
            }
          }
        }
        assert Flushed(s + 1, 0);
      }
      AllShown();
    }

    lemma AllShown()
      requires Flushed(|config|, 0)
      ensures forall r: Real | HasReal(config, r) && r.key in ids ::
                r.key !in updates && ids[r.key] in view && Tells(view[ids[r.key]], r, enabled, wlc)
    {
    }

    ghost predicate ShownIn(r: Real, v: map<nat, State>)
      reads this
    {
      r.key in ids && ids[r.key] in v && v[ids[r.key]] == Target(r)
    }

    lemma FlushedMore(s: nat, i: nat, view0: map<nat, State>, updates0: set<nat>)
      requires Valid() && s < |config| && i < |config[s].reals|
      requires forall t: nat, j: nat | t < |config| && j < |config[t].reals| && (t < s || (t == s && j < i))
               && config[t].id < SERVICES_SIZE
                 && config[t].reals[j].key in ids ::
                      config[t].reals[j].key !in updates0 && ShownIn(config[t].reals[j], view0)
      requires var r := config[s].reals[i];
               && updates == (if r.key in ids then updates0 - {r.key} else updates0) && (r.key in ids ==> Shown(r))
               && view == if r.key in ids && r.key in updates0 then view0[ids[r.key] := Target(r)] else view0
      ensures Flushed(s, i + 1)
    {
      hide Distinct, HasReal, Target;
    }
  }

  /** A configured key names one real. */
  lemma SameReal(config: seq<Service>, q: Real, r: Real)
    requires Distinct(config) && HasReal(config, q) && HasReal(config, r) && q.key == r.key
    ensures q == r
  {
  }

  // ----- sums over a service ----------------------------------------------------------------

  /** `get_effective_weight` of the enabled reals, else the configured weight. */
  function Own(enabled: map<nat, Option<nat>>, r: Real): nat {
    if r.key in enabled && enabled[r.key].Some? then enabled[r.key].value else r.weight
  }

  function WeightSum(enabled: map<nat, Option<nat>>, reals: seq<Real>): nat {
    if reals == [] then 0 else (WeightSum(enabled, reals[..|reals| - 1]) + Own(enabled, reals[|reals| - 1])) % WORD
  }

  function LoadOf(connections: map<nat, nat>, key: nat): nat {
    if key in connections then connections[key] else 0
  }

  /** Connections of the reals with a weight. */
  function LoadSum(enabled: map<nat, Option<nat>>, connections: map<nat, nat>, reals: seq<Real>): nat {
    if reals == [] then 0
    else
      var r, rest := reals[|reals| - 1], LoadSum(enabled, connections, reals[..|reals| - 1]);
      if Own(enabled, r) == 0 then rest else (rest + LoadOf(connections, r.key)) % WORD
  }

  function Power(s: Service): nat {
    if s.power < 1 || s.power > 100 then DEFAULT_POWER else s.power
  }

  /** The weight of a real from the load of its service. */
  ghost function WlcOf(enabled: map<nat, Option<nat>>, connections: map<nat, nat>, s: Service, r: Real): nat {
    WlcWeight(Own(enabled, r), LoadOf(connections, r.key), WeightSum(enabled, s.reals),
              LoadSum(enabled, connections, s.reals), Power(s))
  }

  /** One pair for every unit of every number, so that there are as many as the numbers add up to. */
  ghost function Units(list: seq<nat>): set<(nat, nat)> {
    set i: nat, j: nat | i < |list| && j < list[i] :: (i, j)
  }

  lemma {:induction false} RowUnits(i: nat, n: nat)
    ensures |set j: nat | j < n :: (i, j)| == n
  {
    var row := set j: nat | j < n :: (i, j);
    if n == 0 {
      assert row == {};
    } else {
      RowUnits(i, n - 1);
      assert row == (set j: nat | j < n - 1 :: (i, j)) + {(i, n - 1)};
    }
  }

  lemma UnitsMore(list: seq<nat>, n: nat)
    ensures |Units(list + [n])| == |Units(list)| + n
  {
    var row := set j: nat | j < n :: (|list|, j);
    RowUnits(|list|, n);
    assert Units(list + [n]) == Units(list) + row;
  }

  /** The weights of the reals, from the request or from the configuration. */
  ghost predicate WeightsAre(weights: seq<nat>, enabled: map<nat, Option<nat>>, reals: seq<Real>) {
    && |weights| == |reals|
    && forall i | 0 <= i < |reals| ::
         weights[i] == if reals[i].key in enabled && enabled[reals[i].key].Some? then enabled[reals[i].key].value
                       else reals[i].weight
  }

  /** The connections of the reals with a weight. */
  ghost predicate LoadsAre(loads: seq<nat>, weights: seq<nat>, connections: map<nat, nat>, reals: seq<Real>) {
    && |loads| == |weights| == |reals|
    && forall i | 0 <= i < |reals| ::
         loads[i] == if weights[i] > 0 && reals[i].key in connections then connections[reals[i].key] else 0
  }

  /** The sums are those of the elements, in 32 bits. */
  lemma {:induction false} WeightsAdded(enabled: map<nat, Option<nat>>, reals: seq<Real>, weights: seq<nat>)
    requires WeightsAre(weights, enabled, reals)
    ensures WeightSum(enabled, reals) == |Units(weights)| % 0x1_0000_0000
    decreases |reals|
  {
    if reals == [] {
      assert Units(weights) == {};
    } else {
      var n := |reals| - 1;
      WeightsAdded(enabled, reals[..n], weights[..n]);
      UnitsMore(weights[..n], weights[n]);
      hide Units;
      assert weights == weights[..n] + [weights[n]];
      Wrapped(|Units(weights[..n])|, weights[n]);
    }
  }

  lemma {:induction false} LoadsAdded(enabled: map<nat, Option<nat>>, connections: map<nat, nat>, reals: seq<Real>,
                                      weights: seq<nat>, loads: seq<nat>)
    requires WeightsAre(weights, enabled, reals) && LoadsAre(loads, weights, connections, reals)
    ensures LoadSum(enabled, connections, reals) == |Units(loads)| % 0x1_0000_0000
    decreases |reals|
  {
    if reals == [] {
      assert Units(loads) == {};
    } else {
      var n := |reals| - 1;
      LoadsAdded(enabled, connections, reals[..n], weights[..n], loads[..n]);
      UnitsMore(loads[..n], loads[n]);
      hide Units;
      assert loads == loads[..n] + [loads[n]];
      Wrapped(|Units(loads[..n])|, loads[n]);
    }
  }

  lemma Wrapped(a: nat, b: nat)
    ensures (a % 0x1_0000_0000 + b) % 0x1_0000_0000 == (a + b) % 0x1_0000_0000
  {
    assert a == a / 0x1_0000_0000 * 0x1_0000_0000 + a % 0x1_0000_0000;
  }

  /**
    The weight of a real of a least-connections service, from the requests, the configuration and the
    connections: in whole numbers, with the power of the service if it is between 1 and 100, else with 10.
  */
  lemma WlcOfExact(enabled: map<nat, Option<nat>>, connections: map<nat, nat>, s: Service, i: nat,
                   weights: seq<nat>, loads: seq<nat>)
    requires WeightsAre(weights, enabled, s.reals) && LoadsAre(loads, weights, connections, s.reals)
    requires i < |s.reals|
    ensures Own(enabled, s.reals[i]) == weights[i]
    ensures weights[i] > 0 ==>
              var weight, weightSum := weights[i], |Units(weights)| % 0x1_0000_0000;
              var loadSum := |Units(loads)| % 0x1_0000_0000;
              var load, share := loads[i] * weightSum % 0x1_0000_0000, loadSum * weight % 0x1_0000_0000;
              var power := if 1 <= s.power <= 100 then s.power else 10;
              var boosted := if share == 0 then weight
                             else (2 * weight * power * (share - load) + share) / (2 * share);
              WlcOf(enabled, connections, s, s.reals[i])
              == if weightSum == 0 || loadSum < weightSum then weight
              else if boosted > 100 || weight > 100 then 100 else if boosted > weight then boosted else weight
  {
    WeightsAdded(enabled, s.reals, weights);
    LoadsAdded(enabled, connections, s.reals, weights, loads);
    hide WeightSum, LoadSum, Units, WlcWeight;
    var weight, weightSum, loadSum := weights[i], WeightSum(enabled, s.reals), LoadSum(enabled, connections, s.reals);
    if weight > 0 {
      WlcPlain(weight, loads[i], weightSum, loadSum, Power(s));
      if weightSum > 0 && loadSum >= weightSum {
        WlcExact(weight, loads[i], weightSum, loadSum, Power(s));
      }
    }
  }

  lemma WlcPlain(weight: nat, connections: nat, weightSum: nat, connectionSum: nat, power: nat)
    ensures weightSum == 0 || connectionSum < weightSum ==>
              WlcWeight(weight, connections, weightSum, connectionSum, power) == weight
  {
  }

  // ----- requests ---------------------------------------------------------------------------

  /** The enabled reals after a list of requests. */
  function Requested(enabled: map<nat, Option<nat>>, requests: seq<Request>): map<nat, Option<nat>> {
    if requests == [] then enabled
    else
      var was, q := Requested(enabled, requests[..|requests| - 1]), requests[|requests| - 1];
      if q.enable then was[q.key := q.weight] else was - {q.key}
  }

  lemma RequestedMore(enabled: map<nat, Option<nat>>, requests: seq<Request>, i: nat)
    requires i < |requests|
    ensures var was, q := Requested(enabled, requests[..i]), requests[i];
            Requested(enabled, requests[..i + 1]) == if q.enable then was[q.key := q.weight] else was - {q.key}
  {
    assert requests[..i + 1][..i] == requests[..i];
  }

  /** The last request for a key decides, and a key without a request keeps its state. */
  lemma {:induction false} LastRequest(enabled: map<nat, Option<nat>>, requests: seq<Request>, k: nat)
    ensures Untouched(requests, |requests|, k) ==>
              (k in Requested(enabled, requests) <==> k in enabled)
              && (k in enabled ==> Requested(enabled, requests)[k] == enabled[k])
    ensures forall i | 0 <= i < |requests| && requests[i].key == k
            && Untouched(requests[i + 1..], |requests| - i - 1, k) ::
              (k in Requested(enabled, requests) <==> requests[i].enable)
              && (requests[i].enable ==> Requested(enabled, requests)[k] == requests[i].weight)
  {
    if requests != [] {
      var n := |requests| - 1;
      var front := requests[..n];
      LastRequest(enabled, front, k);
      forall i | 0 <= i < |requests| && requests[i].key == k && Untouched(requests[i + 1..], n - i, k)
        ensures (k in Requested(enabled, requests) <==> requests[i].enable)
        ensures requests[i].enable ==> Requested(enabled, requests)[k] == requests[i].weight
      {
        if i < n {
          assert requests[i + 1..][n - i - 1] == requests[n];
          assert front[i + 1..] == requests[i + 1..][..n - i - 1];
        }
      }
    }
  }

  ghost predicate Untouched(requests: seq<Request>, n: nat, k: nat) {
    forall i | 0 <= i < n && i < |requests| :: requests[i].key != k
  }
}
