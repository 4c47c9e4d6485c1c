/** From network groups to network ids: the layers, their classifiers, and the packed network table. */
module NetworkIds {
  import opened Base
  import opened Nets
  import opened GroupTable
  import opened NetworkTable
  import opened Rules
  import opened Networks
  import opened Layers
  import opened Packing
  import opened Flat
  import opened TransportFilter
  import opened TransportLayer
  import opened TransportTable
  import opened TransportKeys
  import opened Transports
  import opened Capacity

  // ----- layers -----------------------------------------------------------------------------

  ghost predicate Asks(netIds: seq<nat>, transportIds: seq<nat>, f: nat, t: nat) {
    exists k :: 0 <= k < |netIds| && k < |transportIds| && netIds[k] == f && transportIds[k] == t
  }

  /** For every network filter the transport filters of its rules. */
  method NeedsOf(netIds: seq<nat>, transportIds: seq<nat>, count: nat) returns (needs: seq<seq<nat>>)
    requires |netIds| == |transportIds| && forall k | 0 <= k < |netIds| :: netIds[k] < count
    ensures |needs| == count && forall f, t | 0 <= f < count :: t in needs[f] <==> Asks(netIds, transportIds, f, t)
  {
    needs := seq(count, _ => []);
    for k := 0 to |netIds|
      invariant |needs| == count && forall f, t | 0 <= f < count ::
                  t in needs[f] <==> Asks(netIds[..k], transportIds[..k], f, t)
    {
      var f := netIds[k];
      ghost var was := needs;
      needs := needs[f := needs[f] + [transportIds[k]]];
      forall g, t | 0 <= g < count
        ensures t in needs[g] <==> Asks(netIds[..k + 1], transportIds[..k + 1], g, t)
      {
        assert t in was[g] <==> Asks(netIds[..k], transportIds[..k], g, t);
        AsksMore(netIds, transportIds, k, g, t);
      }
    }
    assert netIds[..|netIds|] == netIds && transportIds[..|netIds|] == transportIds;
  }

  lemma AsksMore(netIds: seq<nat>, transportIds: seq<nat>, k: nat, f: nat, t: nat)
    requires k < |netIds| == |transportIds|
    ensures Asks(netIds[..k + 1], transportIds[..k + 1], f, t)
            <==> Asks(netIds[..k], transportIds[..k], f, t) || (netIds[k] == f && transportIds[k] == t)
  {
    var a, b := netIds[..k + 1], transportIds[..k + 1];
    if netIds[k] == f && transportIds[k] == t {
      assert a[k] == f && b[k] == t;
    }
    if i :| 0 <= i < |netIds[..k]| && i < |transportIds[..k]| && netIds[..k][i] == f && transportIds[..k][i] == t {
      assert a[i] == f && b[i] == t;
    }
  }

  /** Every group that a rule lists is in one layer, and this layer holds the transport filter of the rule. */
  ghost predicate Serves(layers: seq<Layer>, groups: seq<set<nat>>, netIds: seq<nat>, transportIds: seq<nat>) {
    && Apart(layers) && |netIds| == |transportIds| && (forall k | 0 <= k < |netIds| :: netIds[k] < |groups|)
    && (forall k, g | 0 <= k < |netIds| && g in groups[netIds[k]] :: Served(layers, g, transportIds[k]))
    && (forall l, g | 0 <= l < |layers| && g in layers[l].nets :: exists f :: 0 <= f < |groups| && g in groups[f])
    && (forall l, t | 0 <= l < |layers| && t in layers[l].filters :: Wants(groups, netIds, transportIds, t))
  }

  /** Some rule with transport filter t lists a group. */
  ghost predicate Wants(groups: seq<set<nat>>, netIds: seq<nat>, transportIds: seq<nat>, t: nat)
    requires |netIds| == |transportIds| && forall k | 0 <= k < |netIds| :: netIds[k] < |groups|
  {
    exists k :: 0 <= k < |netIds| && transportIds[k] == t && groups[netIds[k]] != {}
  }

  ghost predicate Served(layers: seq<Layer>, g: nat, t: nat) {
    exists l :: 0 <= l < |layers| && g in layers[l].nets && t in layers[l].filters
  }

  /** The transport filters of the rules that list the group. */
  ghost function NeededBy(groups: seq<set<nat>>, netIds: seq<nat>, transportIds: seq<nat>, g: nat): (z: set<nat>)
    requires |netIds| == |transportIds| && forall k | 0 <= k < |netIds| :: netIds[k] < |groups|
    ensures forall t :: t in z <==> exists k :: 0 <= k < |netIds| && g in groups[netIds[k]] && transportIds[k] == t
  {
    set k: nat | k < |netIds| && g in groups[netIds[k]] :: transportIds[k]
  }

  /** Some group is listed by rules with exactly these transport filters. */
  ghost predicate GroupWants(groups: seq<set<nat>>, netIds: seq<nat>, transportIds: seq<nat>, z: set<nat>)
    requires |netIds| == |transportIds| && forall k | 0 <= k < |netIds| :: netIds[k] < |groups|
  {
    z != {} && exists g :: z == NeededBy(groups, netIds, transportIds, g)
  }

  /** `create_variations` and `distribute` */
  method Spread(groups: seq<set<nat>>, netIds: seq<nat>, transportIds: seq<nat>, max: nat)
    returns (layers: seq<Layer>, ghost order: seq<set<nat>>)
    requires |netIds| == |transportIds| && forall k | 0 <= k < |netIds| :: netIds[k] < |groups|
    ensures Serves(layers, groups, netIds, transportIds) && 1 <= |layers| && (|layers| <= max || |layers| == 1)
    ensures Descending(order) && forall z :: z in order <==> GroupWants(groups, netIds, transportIds, z)
    ensures FiltersOf(layers) == LayersOf(order, max)
  {
    hide Descending, Serves, Distributed, GroupWants;
    var needs := NeedsOf(netIds, transportIds, |groups|);
    var wanted := Wanted(groups, needs);
    layers, order := Distribute(wanted, max);
    Spreads(layers, wanted, groups, needs, netIds, transportIds);
    forall z
      ensures SomeVariation(wanted, z) <==> GroupWants(groups, netIds, transportIds, z)
    {
      WantedVariation(wanted, groups, needs, netIds, transportIds, z);
    }
  }

  lemma WantedVariation(wanted: map<nat, set<nat>>, groups: seq<set<nat>>, needs: seq<seq<nat>>, netIds: seq<nat>,
                        transportIds: seq<nat>, z: set<nat>)
    requires |netIds| == |transportIds| && |needs| == |groups| && forall k | 0 <= k < |netIds| :: netIds[k] < |groups|
    requires forall f, t | 0 <= f < |groups| :: t in needs[f] <==> Asks(netIds, transportIds, f, t)
    requires WantedTo(groups, needs, wanted, |groups|) && forall g | g in wanted :: wanted[g] != {}
    ensures SomeVariation(wanted, z) <==> GroupWants(groups, netIds, transportIds, z)
  {
    forall g: nat
      ensures (if g in wanted then wanted[g] else {}) == NeededBy(groups, netIds, transportIds, g)
    {
      WantedIs(wanted, groups, needs, netIds, transportIds, g);
    }
    hide NeededBy, WantedTo;
    if SomeVariation(wanted, z) {
      var g :| g in wanted && wanted[g] == z;
      assert z == NeededBy(groups, netIds, transportIds, g);
    }
  }

  lemma WantedIs(wanted: map<nat, set<nat>>, groups: seq<set<nat>>, needs: seq<seq<nat>>, netIds: seq<nat>,
                 transportIds: seq<nat>, g: nat)
    requires |netIds| == |transportIds| && |needs| == |groups| && forall k | 0 <= k < |netIds| :: netIds[k] < |groups|
    requires forall f, t | 0 <= f < |groups| :: t in needs[f] <==> Asks(netIds, transportIds, f, t)
    requires WantedTo(groups, needs, wanted, |groups|)
    ensures (if g in wanted then wanted[g] else {}) == NeededBy(groups, netIds, transportIds, g)
  {
    var need := NeededBy(groups, netIds, transportIds, g);
    forall t: nat
      ensures t in need <==> g in wanted && t in wanted[g]
    {
      assert g in wanted && t in wanted[g] <==> Needs(groups, needs, |groups|, g, t);
      if t in need {
        var k :| 0 <= k < |netIds| && g in groups[netIds[k]] && transportIds[k] == t;
        assert Asks(netIds, transportIds, netIds[k], t);
      }
      if Needs(groups, needs, |groups|, g, t) {
        var f :| 0 <= f < |groups| && g in groups[f] && t in needs[f];
        assert Asks(netIds, transportIds, f, t);
      }
    }
  }

  lemma Spreads(layers: seq<Layer>,
                wanted: map<nat, set<nat>>, groups: seq<set<nat>>, needs: seq<seq<nat>>, netIds: seq<nat>,
                transportIds: seq<nat>)
    requires |netIds| == |transportIds| && |needs| == |groups| && forall k | 0 <= k < |netIds| :: netIds[k] < |groups|
    requires forall f, t | 0 <= f < |groups| :: t in needs[f] <==> Asks(netIds, transportIds, f, t)
    requires WantedTo(groups, needs, wanted, |groups|) && Distributed(layers, wanted, {})
             && forall g | g in wanted :: wanted[g] != {}
    ensures Serves(layers, groups, netIds, transportIds)
  {
    forall k, g | 0 <= k < |netIds| && g in groups[netIds[k]]
      ensures Served(layers, g, transportIds[k])
    {
      assert Asks(netIds, transportIds, netIds[k], transportIds[k]);
      assert Needs(groups, needs, |groups|, g, transportIds[k]);
      hide Needs, Asks;
      var l :| 0 <= l < |layers| && g in layers[l].nets;
    }
    forall l, g | 0 <= l < |layers| && g in layers[l].nets
      ensures exists f :: 0 <= f < |groups| && g in groups[f]
    {
      var t :| t in wanted[g];
      assert Needs(groups, needs, |groups|, g, t);
    }
    forall l, t | 0 <= l < |layers| && t in layers[l].filters
      ensures Wants(groups, netIds, transportIds, t)
    {
      assert Asked(wanted, t);
      var g :| g in wanted && t in wanted[g];
      assert Needs(groups, needs, |groups|, g, t);
      var f :| 0 <= f < |groups| && g in groups[f] && t in needs[f];
      assert Asks(netIds, transportIds, f, t);
    }
  }

  // ----- the classifiers of the layers ------------------------------------------------------

  ghost predicate NetsPacked(nets: seq<nat>, groups: set<nat>, l: nat, shift: nat) {
    forall n: nat :: n in nets <==> exists g :: g in groups && n == Pack(g, l, shift)
  }

  ghost predicate TablesFor(layers: seq<TableLayer>, from: seq<Layer>, transports: seq<Transport>, shift: nat) {
    && |layers| == |from|
    && forall l: nat | l < |layers| :: LayerReady(layers[l], transports, shift) && layers[l].filters == from[l].filters
                                       && NetsPacked(layers[l].nets, from[l].nets, l, shift)
  }

  ghost predicate HeldSized(held: set<nat>, transports: seq<Transport>) {
    forall f: nat | f in held :: f < |transports| && Sized(transports[f])
  }

  ghost predicate SomeOverflows(from: seq<Layer>, transports: seq<Transport>) {
    exists l :: 0 <= l < |from| && Overflows(from[l].filters, transports)
  }

  /** `transport_t::compile` and `populate`, and `thread_t::prepare`; None stands for an overflow error. */
  method Tables(from: seq<Layer>, transports: seq<Transport>, shift: nat) returns (r: Option<seq<TableLayer>>)
    requires |from| <= Pow2(shift)
    requires forall l | 0 <= l < |from| :: HeldSized(from[l].filters, transports)
    ensures r.None? <==> SomeOverflows(from, transports)
    ensures r.Some? ==> TablesFor(r.value, from, transports, shift)
  {
    hide LayerFits, Overflows, Sized, Pack, Pow2, GroupOf, ColumnOf;
    var layers: seq<TableLayer> := [];
    for l := 0 to |from|
      invariant TablesFor(layers, from[..l], transports, shift)
      invariant forall m | 0 <= m < l :: !Overflows(from[m].filters, transports)
    {
      var tables := TransportLayer.Build(from[l].filters, transports);
      if tables.None? {
        return None;
      }
      var nets := LayerIds(from[l].nets, l, shift);
      QuotientGroup(nets, shift);
      var columns := Columns(nets, shift);
      var layer := TableLayer(tables.value, from[l].filters, nets, columns);
      assert LayerReady(layer, transports, shift) && NetsPacked(layer.nets, from[l].nets, l, shift);
      hide LayerReady, NetsPacked;
      layers := layers + [layer];
    }
    assert from[..|from|] == from;
    return Some(layers);
  }

  lemma QuotientGroup(nets: seq<nat>, shift: nat)
    requires forall i, j | 0 <= i < |nets| && 0 <= j < |nets|
             && Quotient(nets[i], Pow2(shift)) == Quotient(nets[j], Pow2(shift)) :: i == j
    ensures forall i, j | 0 <= i < |nets| && 0 <= j < |nets|
            && GroupOf(nets[i], shift) == GroupOf(nets[j], shift) :: i == j
  {
    hide Quotient, Pow2;
  }

  lemma TablesReady(layers: seq<TableLayer>, from: seq<Layer>, transports: seq<Transport>, shift: nat)
    requires TablesFor(layers, from, transports, shift) && |from| <= Pow2(shift)
    ensures Ready(layers, transports, shift)
  {
    hide LayerReady, Pack, Pow2;
    forall l, m, net | 0 <= l < |layers| && 0 <= m < |layers| && net in layers[l].nets && net in layers[m].nets
      ensures l == m
    {
      var g :| g in from[l].nets && net == Pack(g, l, shift);
      var g' :| g' in from[m].nets && net == Pack(g', m, shift);
      PackDecodes(g, l, shift);
      PackDecodes(g', m, shift);
    }
  }

  // ----- the packed table -------------------------------------------------------------------

  datatype IdStage = IdStage(layers: seq<TableLayer>, cells: map<Pair, nat>, groups: seq<set<nat>>, shift: nat)

  /** `network_table_t::remap`: ids in place of groups. */
  function Remapped(cells: map<Pair, nat>, ids: map<nat, nat>): map<Pair, nat> {
    map c | c in cells :: IdOf(ids, cells[c])
  }

  function RemappedSet(groups: set<nat>, ids: map<nat, nat>): set<nat> {
    set g | g in groups :: IdOf(ids, g)
  }

  function RemappedGroups(groups: seq<set<nat>>, ids: map<nat, nat>): (r: seq<set<nat>>)
    ensures |r| == |groups|
  {
    seq(|groups|, f requires 0 <= f < |groups| => RemappedSet(groups[f], ids))
  }

  /** What the packed ids mean: a network id is found in its layer, together with the transport filters of its rules. */
  ghost predicate IdListed(t: IdStage, net: nat, f: nat, transport: nat, listed: bool)
    requires f < |t.groups|
  {
    var l := LayerOf(net, |t.layers|);
    listed <==> l < |t.layers| && net in t.layers[l].nets && net in t.groups[f] && transport in t.layers[l].filters
  }

  /**
    A rule lists a network group exactly when it lists its id, in a layer that holds the id and the transport
    filter of the rule.
  */
  lemma IdFound(t: IdStage, from: seq<Layer>, ids: map<nat, nat>, groups: seq<set<nat>>, netIds: seq<nat>,
                transportIds: seq<nat>,
                transports: seq<Transport>, k: nat, g: nat)
    requires Serves(from, groups, netIds, transportIds) && PackedTo(from, t.shift, ids, |from|)
             && |from| <= Pow2(t.shift)
    requires TablesFor(t.layers, from, transports, t.shift) && t.groups == RemappedGroups(groups, ids) && k < |netIds|
    requires forall f | 0 <= f < |groups| :: 0 !in groups[f]
    ensures IdListed(t, IdOf(ids, g), netIds[k], transportIds[k], g in groups[netIds[k]])
  {
    hide LayerReady, Pack, Pow2, LayerOf;
    var f, n := netIds[k], IdOf(ids, g);
    if g in groups[f] {
      assert Served(from, g, transportIds[k]);
      var l: nat :| l < |from| && g in from[l].nets && transportIds[k] in from[l].filters;
      LayerDecodes(g, l, t.shift, |from|);
      assert n == Pack(g, l, t.shift) && n in t.layers[l].nets;
      assert n in RemappedSet(groups[f], ids);
    }
    var l := LayerOf(n, |t.layers|);
    if l < |t.layers| && n in t.layers[l].nets && n in t.groups[f] {
      var g' :| g' in groups[f] && n == IdOf(ids, g');
      SameGroup(from, ids, groups, netIds, transportIds, t.shift, g, g', f, k);
    }
  }

  /** Ids of different groups differ, if one of the groups is listed. */
  lemma SameGroup(from: seq<Layer>, ids: map<nat, nat>, groups: seq<set<nat>>, netIds: seq<nat>, transportIds: seq<nat>,
                  shift: nat,
                  g: nat, g': nat, f: nat, k: nat)
    requires Serves(from, groups, netIds, transportIds) && PackedTo(from, shift, ids, |from|) && |from| <= Pow2(shift)
    requires k < |netIds| && f == netIds[k] && g' in groups[f] && IdOf(ids, g) == IdOf(ids, g')
    requires forall f | 0 <= f < |groups| :: 0 !in groups[f]
    ensures g == g'
  {
    hide Pack, Pow2;
    assert Served(from, g', transportIds[k]);
    var l': nat :| l' < |from| && g' in from[l'].nets;
    PackDecodes(g', l', shift);
    if g in ids {
      assert InLayer(from, |from|, g);
      var l: nat :| l < |from| && g in from[l].nets;
      PackDecodes(g, l, shift);
    } else {
      ZeroQuotient(shift);
    }
  }

  lemma ZeroQuotient(shift: nat)
    ensures Quotient(0, Pow2(shift)) == 0
  {
  }

  lemma RemappedAt(cells: map<Pair, nat>, ids: map<nat, nat>, c: Pair)
    requires 0 !in ids
    ensures At(Remapped(cells, ids), c) == IdOf(ids, At(cells, c))
  {
  }

  lemma ZeroFree(from: seq<Layer>, ids: map<nat, nat>, groups: seq<set<nat>>, netIds: seq<nat>, transportIds: seq<nat>,
                 shift: nat)
    requires Serves(from, groups, netIds, transportIds) && PackedTo(from, shift, ids, |from|)
    requires forall f | 0 <= f < |groups| :: 0 !in groups[f]
    ensures 0 !in ids
  {
    hide Pack;
    assert !InLayer(from, |from|, 0);
  }

  // ----- the stage --------------------------------------------------------------------------

  /** The addresses match the rule exactly when their id is listed for it, in the layer that the id names. */
  ghost predicate IdMatches(t: IdStage, s: NetStage, rules: seq<Rule>, transportIds: seq<nat>, k: nat, v6: bool,
                            a: Bytes, b: Bytes)
    requires k < |rules| == |s.ids| == |transportIds| && s.ids[k] < |t.groups|
  {
    IdListed(t, At(t.cells, s.classifiers.Cell(v6, a, b)), s.ids[k], transportIds[k], NetTakes(rules, k, v6, a, b))
  }

  ghost predicate IdStageFits(t: IdStage, s: NetStage, rules: seq<Rule>, transports: seq<Transport>,
                              transportIds: seq<nat>) {
    && Ready(t.layers, transports, t.shift) && |s.ids| == |transportIds| == |rules|
    && (forall k | 0 <= k < |rules| :: s.ids[k] < |t.groups|)
    && (forall k, v6: bool, a: Bytes, b: Bytes | 0 <= k < |rules| && |a| == |b| == Width(v6) ::
          IdMatches(t, s, rules, transportIds, k, v6, a, b))
  }

  /** The rules that match some pair of addresses. */
  ghost function LiveRules(rules: seq<Rule>): (who: set<nat>)
    ensures forall k :: k in who <==> 0 <= k < |rules| && Live(rules, k)
  {
    set k: nat | k < |rules| && Live(rules, k)
  }

  /** The rules that match the pair of addresses. */
  ghost function RulesAt(rules: seq<Rule>, v6: bool, a: Bytes, b: Bytes): (who: set<nat>)
    ensures forall k :: k in who <==> 0 <= k < |rules| && NetTakes(rules, k, v6, a, b)
  {
    set k: nat | k < |rules| && NetTakes(rules, k, v6, a, b)
  }

  /** The rules of one pair of addresses overflow: no distribution over layers can separate them. */
  ghost predicate PairOverflow(rules: seq<Rule>) {
    exists v6: bool, a: Bytes, b: Bytes :: |a| == |b| == Width(v6) && RulesOverflow(rules, RulesAt(rules, v6, a, b))
  }

  /** An overflowing layer means that the live rules overflow. */
  lemma LayerLive(s: NetStage, rules: seq<Rule>, transports: seq<Transport>, transportIds: seq<nat>,
                  protos: seq<Option<Proto>>,
                  from: seq<Layer>, l: nat)
    requires NetStageFits(s, rules) && TransportsFit(rules, transports, transportIds, protos)
             && Serves(from, s.groups, s.ids, transportIds)
    requires l < |from| && Overflows(from[l].filters, transports)
    ensures RulesOverflow(rules, LiveRules(rules))
  {
    hide TransportsFit, Overflows, RulesOverflow, Live, NetsListed, Served, Apart;
    forall f | f in from[l].filters
      ensures FilterOf(transportIds, LiveRules(rules), f)
    {
      assert Wants(s.groups, s.ids, transportIds, f);
    }
    OverflowDown(rules, transports, transportIds, protos, from[l].filters, LiveRules(rules));
  }

  lemma NoRules(rules: seq<Rule>)
    ensures !RulesOverflow(rules, {})
  {
    forall protocols: set<nat>, i: nat, size: nat | size >= 2
      ensures !Splits(rules, {}, protocols, i, size)
    {
      assert !RuleTells(rules, {}, protocols, i, size, 0, 1);
    }
    hide Splits;
  }

  /** The filters of the rules of one pair of addresses meet in one layer. */
  lemma PairMeets(s: NetStage, rules: seq<Rule>, transportIds: seq<nat>, from: seq<Layer>, v6: bool, a: Bytes,
                  b: Bytes) returns (l: nat)
    requires NetStageFits(s, rules) && Serves(from, s.groups, s.ids, transportIds) && |a| == |b| == Width(v6)
    requires RulesAt(rules, v6, a, b) != {} && |transportIds| == |rules|
    ensures l < |from| && HoldsAll(from[l].filters, transportIds, RulesAt(rules, v6, a, b))
  {
    hide Live, NetTakes;
    var g, who := s.Group(v6, a, b), RulesAt(rules, v6, a, b);
    forall k | k in who
      ensures Served(from, g, transportIds[k])
    {
      assert NetsListed(s, rules, k, v6, a, b);
    }
    var k0 :| k0 in who;
    l :| 0 <= l < |from| && g in from[l].nets && transportIds[k0] in from[l].filters;
    forall k | k in who && k < |transportIds|
      ensures transportIds[k] in from[l].filters
    {
      assert Served(from, g, transportIds[k]);
      var m :| 0 <= m < |from| && g in from[m].nets && transportIds[k] in from[m].filters;
      assert m == l;
    }
  }

  /** Overflowing rules of one pair of addresses make a layer overflow. */
  lemma PairFails(s: NetStage, rules: seq<Rule>, transports: seq<Transport>, transportIds: seq<nat>,
                  protos: seq<Option<Proto>>, from: seq<Layer>)
    requires NetStageFits(s, rules) && TransportsFit(rules, transports, transportIds, protos)
             && Serves(from, s.groups, s.ids, transportIds)
    requires PairOverflow(rules)
    ensures SomeOverflows(from, transports)
  {
    var v6: bool, a: Bytes, b: Bytes :| |a| == |b| == Width(v6) && RulesOverflow(rules, RulesAt(rules, v6, a, b));
    assert |transportIds| == |rules|;
    hide NetStageFits, TransportsFit, Serves, Overflows, RulesOverflow, RulesAt;
    NoRules(rules);
    var l := PairMeets(s, rules, transportIds, from, v6, a, b);
    OverflowUp(rules, transports, transportIds, protos, from[l].filters, RulesAt(rules, v6, a, b));
  }

  /** In a single layer all live rules meet. */
  lemma SingleFails(s: NetStage, rules: seq<Rule>, transports: seq<Transport>, transportIds: seq<nat>,
                    protos: seq<Option<Proto>>, from: seq<Layer>)
    requires NetStageFits(s, rules) && TransportsFit(rules, transports, transportIds, protos)
             && Serves(from, s.groups, s.ids, transportIds)
    requires |from| == 1 && RulesOverflow(rules, LiveRules(rules))
    ensures SomeOverflows(from, transports)
  {
    assert |transportIds| == |rules|;
    hide NetStageFits, Serves, TransportsFit, Overflows, RulesOverflow, Live;
    forall k | k in LiveRules(rules) && k < |transportIds|
      ensures transportIds[k] in from[0].filters
    {
      LiveServed(s, rules, transportIds, from, k);
    }
    OverflowUp(rules, transports, transportIds, protos, from[0].filters, LiveRules(rules));
  }

  lemma LiveServed(s: NetStage, rules: seq<Rule>, transportIds: seq<nat>, from: seq<Layer>, k: nat)
    requires NetStageFits(s, rules) && Serves(from, s.groups, s.ids, transportIds)
    requires |from| == 1 && |transportIds| == |rules| && k < |rules| && Live(rules, k)
    ensures transportIds[k] in from[0].filters
  {
    hide NetStageFits, NetTakes, Apart, Wants;
    var v6: bool, a: Bytes, b: Bytes :| |a| == |b| == Width(v6) && NetTakes(rules, k, v6, a, b);
    hide Live;
    TakenListed(s, rules, k, v6, a, b);
    assert Served(from, s.Group(v6, a, b), transportIds[k]);
  }

  lemma TakenListed(s: NetStage, rules: seq<Rule>, k: nat, v6: bool, a: Bytes, b: Bytes)
    requires NetStageFits(s, rules) && k < |rules| && |a| == |b| == Width(v6) && NetTakes(rules, k, v6, a, b)
    ensures |s.ids| == |rules| && s.ids[k] < |s.groups| && s.Group(v6, a, b) in s.groups[s.ids[k]]
  {
    hide Live, NetTakes, CellInside, Given, GroupFound;
    assert NetsListed(s, rules, k, v6, a, b);
  }

  // ----- the exact overflow -----------------------------------------------------------------

  /** The transport filters of the rules that take the pair of addresses. */
  ghost function IdsAt(rules: seq<Rule>, ids: seq<nat>, v6: bool, a: Bytes, b: Bytes): set<nat>
    requires |ids| == |rules|
  {
    set k | k in RulesAt(rules, v6, a, b) :: ids[k]
  }

  /** The rules of some pair of addresses have exactly these transport filters. */
  ghost predicate IsVariation(rules: seq<Rule>, ids: seq<nat>, z: set<nat>)
    requires |ids| == |rules|
  {
    z != {} && exists v6: bool, a: Bytes, b: Bytes :: |a| == |b| == Width(v6) && z == IdsAt(rules, ids, v6, a, b)
  }

  /** All sets of transport filters of pairs of addresses, the larger ones first. */
  ghost predicate VariationList(rules: seq<Rule>, ids: seq<nat>, list: seq<set<nat>>)
    requires |ids| == |rules|
  {
    Descending(list) && forall z :: z in list <==> IsVariation(rules, ids, z)
  }

  /** The rules with one of the transport filters. */
  ghost function Sharing(ids: seq<nat>, held: set<nat>): set<nat> {
    set k: nat | k < |ids| && ids[k] in held
  }

  ghost predicate SomeLayerSplits(rules: seq<Rule>, ids: seq<nat>, held: seq<set<nat>>) {
    exists l :: 0 <= l < |held| && RulesOverflow(rules, Sharing(ids, held[l]))
  }

  /** Spread over the layers, the rules of some layer together split a header field completely. */
  ghost predicate LayersOverflow(rules: seq<Rule>, ids: seq<nat>, max: nat)
    requires |ids| == |rules|
  {
    exists list: seq<set<nat>> :: VariationList(rules, ids, list) && SomeLayerSplits(rules, ids, LayersOf(list, max))
  }

  /** The sets of filters wanted by groups are those of pairs of addresses. */
  lemma WantsVariation(s: NetStage, rules: seq<Rule>, ids: seq<nat>, z: set<nat>)
    requires NetStageFits(s, rules) && |ids| == |rules|
    ensures GroupWants(s.groups, s.ids, ids, z) <==> IsVariation(rules, ids, z)
  {
    hide Live, NetTakes, CellInside, Given, NeededBy, IdsAt;
    if GroupWants(s.groups, s.ids, ids, z) {
      var g :| z == NeededBy(s.groups, s.ids, ids, g);
      var t :| t in z;
      var k :| 0 <= k < |s.ids| && g in s.groups[s.ids[k]] && ids[k] == t;
      assert GroupFound(s, g);
      var v6: bool, a: Bytes, b: Bytes :| |a| == |b| == Width(v6) && s.Group(v6, a, b) == g;
      GroupNeeds(s, rules, ids, v6, a, b);
    }
    if IsVariation(rules, ids, z) {
      var v6: bool, a: Bytes, b: Bytes :| |a| == |b| == Width(v6) && z == IdsAt(rules, ids, v6, a, b);
      GroupNeeds(s, rules, ids, v6, a, b);
    }
  }

  lemma GroupNeeds(s: NetStage, rules: seq<Rule>, ids: seq<nat>, v6: bool, a: Bytes, b: Bytes)
    requires NetStageFits(s, rules) && |ids| == |rules| && |a| == |b| == Width(v6)
    ensures NeededBy(s.groups, s.ids, ids, s.Group(v6, a, b)) == IdsAt(rules, ids, v6, a, b)
  {
    hide Live, NetTakes, CellInside, Given, GroupFound;
    forall k | 0 <= k < |rules|
      ensures NetTakes(rules, k, v6, a, b) <==> s.Group(v6, a, b) in s.groups[s.ids[k]]
    {
      assert NetsListed(s, rules, k, v6, a, b);
    }
    hide NetStageFits;
  }

  /** A layer overflows exactly if the rules with its filters do. */
  lemma LayerExact(rules: seq<Rule>, transports: seq<Transport>, ids: seq<nat>, protos: seq<Option<Proto>>,
                   held: set<nat>)
    requires TransportsFit(rules, transports, ids, protos) && forall t | t in held :: t in ids
    ensures |ids| == |rules| && (Overflows(held, transports) <==> RulesOverflow(rules, Sharing(ids, held)))
  {
    assert |ids| == |rules|;
    hide TransportsFit, Overflows, RulesOverflow;
    var who := Sharing(ids, held);
    forall f | f in held
      ensures FilterOf(ids, who, f)
    {
      var k :| 0 <= k < |ids| && ids[k] == f;
      assert k in who;
    }
    if Overflows(held, transports) {
      OverflowDown(rules, transports, ids, protos, held, who);
    }
    if RulesOverflow(rules, who) {
      OverflowUp(rules, transports, ids, protos, held, who);
    }
  }

  lemma OverflowExact(s: NetStage, rules: seq<Rule>, transports: seq<Transport>, ids: seq<nat>,
                      protos: seq<Option<Proto>>,
                      from: seq<Layer>, order: seq<set<nat>>, max: nat)
    requires NetStageFits(s, rules) && TransportsFit(rules, transports, ids, protos)
             && Serves(from, s.groups, s.ids, ids) && |ids| == |rules|
    requires Descending(order) && (forall z :: z in order <==> GroupWants(s.groups, s.ids, ids, z))
             && FiltersOf(from) == LayersOf(order, max)
    ensures SomeOverflows(from, transports) <==> LayersOverflow(rules, ids, max)
  {
    hide NetStageFits, TransportsFit, Overflows, RulesOverflow, Descending, GroupWants, IsVariation, LayersOf, Sharing;
    forall z
      ensures z in order <==> IsVariation(rules, ids, z)
    {
      WantsVariation(s, rules, ids, z);
    }
    assert VariationList(rules, ids, order);
    forall l | 0 <= l < |from|
      ensures from[l].filters == LayersOf(order, max)[l]
      ensures Overflows(from[l].filters, transports) <==> RulesOverflow(rules, Sharing(ids, from[l].filters))
    {
      assert FiltersOf(from)[l] == from[l].filters;
      ServedIds(from, s.groups, s.ids, ids, l);
      LayerExact(rules, transports, ids, protos, from[l].filters);
    }
    hide Serves, FiltersOf;
    assert SomeOverflows(from, transports) <==> SomeLayerSplits(rules, ids, LayersOf(order, max));
    if LayersOverflow(rules, ids, max) {
      var list: seq<set<nat>> :| VariationList(rules, ids, list) && SomeLayerSplits(rules, ids, LayersOf(list, max));
      DescendingUnique(list, order);
    }
  }

  lemma ServedIds(from: seq<Layer>, groups: seq<set<nat>>, netIds: seq<nat>, transportIds: seq<nat>, l: nat)
    requires Serves(from, groups, netIds, transportIds) && l < |from|
    ensures forall t | t in from[l].filters :: t in transportIds
  {
    hide Apart, Served;
    forall t | t in from[l].filters
      ensures t in transportIds
    {
      assert Wants(groups, netIds, transportIds, t);
    }
  }

  /**
    `transport_compile`; None stands for the overflow error of some layer.  It fails exactly if the
    rules of some layer overflow: only if all live rules together do, always if those of one pair of
    addresses do, and with one layer exactly if all live rules do.
  */
  method Build(s: NetStage, rules: seq<Rule>, transports: seq<Transport>, transportIds: seq<nat>,
               ghost protos: seq<Option<Proto>>, max: nat)
    returns (r: Option<IdStage>)
    requires NetStageFits(s, rules) && TransportsFit(rules, transports, transportIds, protos) && IsPower(max)
    ensures |transportIds| == |rules| && (r.None? <==> LayersOverflow(rules, transportIds, max))
    ensures r.None? ==> RulesOverflow(rules, LiveRules(rules))
    ensures PairOverflow(rules) || (max == 1 && RulesOverflow(rules, LiveRules(rules))) ==> r.None?
    ensures r.Some? ==> IdStageFits(r.value, s, rules, transports, transportIds)
  {
    hide NetsListed, MadeFrom, Ready, TablesFor, PackedTo, Serves, IdMatches, Overflows, Live, PairOverflow,
         RulesOverflow, LiveRules;
    hide LayersOverflow, GroupWants, LayersOf, FiltersOf, Descending, GroupFound;
    PowerShift(max);
    var shift := Ones(max - 1);
    var from;
    ghost var order;
    from, order := Spread(s.groups, s.ids, transportIds, max);
    OverflowExact(s, rules, transports, transportIds, protos, from, order, max);
    FiltersSized(rules, transports, transportIds, protos, from, s.groups, s.ids);
    if PairOverflow(rules) {
      PairFails(s, rules, transports, transportIds, protos, from);
    }
    if max == 1 && RulesOverflow(rules, LiveRules(rules)) {
      SingleFails(s, rules, transports, transportIds, protos, from);
    }
    var layers := Tables(from, transports, shift);
    if layers.None? {
      ghost var l :| 0 <= l < |from| && Overflows(from[l].filters, transports);
      LayerLive(s, rules, transports, transportIds, protos, from, l);
      return None;
    }
    ServesApart(from, s.groups, s.ids, transportIds);
    var ids := PackAll(from, shift);
    var t := IdStage(layers.value, Remapped(s.cells, ids.value), RemappedGroups(s.groups, ids.value), shift);
    TablesReady(t.layers, from, transports, shift);
    forall k, v6: bool, a: Bytes, b: Bytes | 0 <= k < |rules| && |a| == |b| == Width(v6)
      ensures IdMatches(t, s, rules, transportIds, k, v6, a, b)
    {
      IdFits(t, s, rules, from, ids.value, transportIds, transports, k, v6, a, b);
    }
    return Some(t);
  }

  lemma PowerShift(max: nat)
    requires IsPower(max)
    ensures max >= 1 && Pow2(Ones(max - 1)) == max
  {
    OnesBound(max - 1);
  }

  lemma ServesApart(from: seq<Layer>, groups: seq<set<nat>>, netIds: seq<nat>, transportIds: seq<nat>)
    requires Serves(from, groups, netIds, transportIds)
    ensures Apart(from)
  {
  }

  lemma FiltersSized(rules: seq<Rule>, transports: seq<Transport>, transportIds: seq<nat>, protos: seq<Option<Proto>>,
                     from: seq<Layer>,
                     groups: seq<set<nat>>, netIds: seq<nat>)
    requires TransportsFit(rules, transports, transportIds, protos) && Serves(from, groups, netIds, transportIds)
    ensures forall l | 0 <= l < |from| :: HeldSized(from[l].filters, transports)
  {
    hide MadeFrom, Sized, Unmixed, ProtoSized, Apart, Served;
    forall l | 0 <= l < |from|
      ensures HeldSized(from[l].filters, transports)
    {
      forall f: nat | f in from[l].filters
        ensures f < |transports| && Sized(transports[f])
      {
        assert Wants(groups, netIds, transportIds, f);
        MadeSized(transports[f], protos[f]);
      }
    }
  }

  lemma IdFits(t: IdStage, s: NetStage, rules: seq<Rule>, from: seq<Layer>, ids: map<nat, nat>, transportIds: seq<nat>,
               transports: seq<Transport>,
               k: nat, v6: bool, a: Bytes, b: Bytes)
    requires NetStageFits(s, rules) && Serves(from, s.groups, s.ids, transportIds)
             && PackedTo(from, t.shift, ids, |from|)
    requires |from| <= Pow2(t.shift) && TablesFor(t.layers, from, transports, t.shift)
             && t.groups == RemappedGroups(s.groups, ids)
    requires t.cells == Remapped(s.cells, ids) && k < |rules| && |a| == |b| == Width(v6)
    ensures s.ids[k] < |t.groups| && |s.ids| == |transportIds| == |rules|
            && IdMatches(t, s, rules, transportIds, k, v6, a, b)
  {
    assert NetsListed(s, rules, k, v6, a, b);
    ZeroFree(from, ids, s.groups, s.ids, transportIds, t.shift);
    RemappedAt(s.cells, ids, s.classifiers.Cell(v6, a, b));
    assert |s.ids| == |transportIds|;
    hide TablesFor, PackedTo, Serves, NetTakes, Given;
    IdFound(t, from, ids, s.groups, s.ids, transportIds, transports, k, s.Group(v6, a, b));
  }
}
