/** A list of rules for which the compiled tables give a packet the actions of a rule that does not match it. */
module CompilerCases {
  import opened Base
  import opened Nets
  import opened Masks
  import opened TreePrepare
  import opened TreeCompose
  import opened Composition
  import opened NetworkFilters
  import opened AddressCases
  import opened TransportFilter
  import opened Actions
  import opened Rules
  import opened Networks
  import opened Capacity
  import opened Compiler
  import Addresses

  function SourceRule(nets: seq<Net>, flow: nat): Rule {
    Rule(seq(|nets|, i requires 0 <= i < |nets| => Rules.Network(false, nets[i])), [], None, None, 0, Flow(flow, None))
  }

  /**
    Flow 1 for sources in 10.16.5.0/255.240.255.0 or 10.32.0.0/12, flow 2 for sources in
    10.0.5.0/255.0.255.0, and flow 3 for the rest.
  */
  function StrayRules(): seq<Rule> {
    [SourceRule([Narrow(), Prefix()], 1), SourceRule([Wide()], 2), SourceRule([], 3)]
  }

  /** A packet from 10.16.6.0 */
  function StrayPacket(): Packet {
    Packet(false, Stray(), [0, 0, 0, 0], 0, Segment(0, false, 0, 0, 0), 0)
  }

  // ----- the filters of the rules -----------------------------------------------------------

  lemma NetsNormal()
    ensures Normalized(Narrow()) == Narrow() && Normalized(Prefix()) == Prefix() && Normalized(Wide()) == Wide()
  {
    assert And(Narrow().addr, Narrow().mask) == Narrow().addr;
    assert And(Prefix().addr, Prefix().mask) == Prefix().addr;
    assert And(Wide().addr, Wide().mask) == Wide().addr;
  }

  /** One source side. */
  lemma SideOf(nets: seq<Net>, flow: nat, n: Net)
    requires nets != [] && forall m | m in nets :: |m.addr| == |m.mask| && Normalized(m) == m
    ensures SideLists(SourceRule(nets, flow), false, true, n) <==> n in nets
  {
    hide Normalized;
    var list := SourceRule(nets, flow).source;
    assert list[0].v6 == false && HasFamily(list, false);
    if n in nets {
      var i :| 0 <= i < |nets| && nets[i] == n;
      assert list[i].net == n;
      assert FirstNets(list, |list|, false, n);
    }
  }

  lemma StraySides()
    ensures SideSets(StrayRules(), false, true) == AsSets(Beside()) + [iset{AnyNet(4)}]
  {
    NetsNormal();
    BesideSets();
    assert |Narrow().addr| == |Narrow().mask| && |Prefix().addr| == |Prefix().mask| && |Wide().addr| == |Wide().mask|;
    var rules := StrayRules();
    hide Narrow, Prefix, Wide, AsSets, Normalized, Beside, SideSets, AnyNet, SourceRule;
    SidesAre(rules, Narrow(), Prefix(), Wide());
  }

  lemma SidesAre(rules: seq<Rule>, n: Net, m: Net, w: Net)
    requires rules == [SourceRule([n, m], 1), SourceRule([w], 2), SourceRule([], 3)]
    requires |n.addr| == |n.mask| && |m.addr| == |m.mask| && |w.addr| == |w.mask|
    requires Normalized(n) == n && Normalized(m) == m && Normalized(w) == w
    ensures SideSets(rules, false, true) == [iset{n, m}, iset{w}, iset{AnyNet(4)}]
  {
    var sets := SideSets(rules, false, true);
    forall x
      ensures x in sets[0] <==> x == n || x == m
      ensures x in sets[1] <==> x == w
      ensures x in sets[2] <==> x == AnyNet(4)
    {
      SideOf([n, m], 1, x);
      SideOf([w], 2, x);
      SideOfAny(3, x);
      hide SideLists, SourceRule, AnyNet, Normalized;
    }
    hide SideSets, AnyNet;
    assert sets[0] == iset{n, m} && sets[1] == iset{w} && sets[2] == iset{AnyNet(4)};
  }

  lemma SideOfAny(flow: nat, n: Net)
    ensures SideLists(SourceRule([], flow), false, true, n) <==> n == AnyNet(4)
  {
    hide AnyNet;
    assert SourceRule([], flow).source == [];
  }

  // ----- one more filter with all addresses -------------------------------------------------

  lemma AnyParts(gapped: NetSet, a: Bytes)
    ensures Prefixed(gapped, iset{AnyNet(4)}, a) && !Widened(gapped, iset{AnyNet(4)}, a)
  {
    AnyContiguous();
    AnyCovers(4, a);
    hide Contiguous, Covers, AnyNet;
    assert RootPart(gapped, AnyNet(4), a);
  }

  lemma AnyContiguous()
    ensures Contiguous(AnyNet(4).mask)
  {
    assert AllZero(AnyNet(4).mask[1..]);
  }

  /** A filter with all addresses tells none apart. */
  lemma AnyTells(gapped: NetSet, sets: seq<NetSet>, a: Bytes, b: Bytes)
    requires SameParts(gapped, sets, a, b)
    ensures SameParts(gapped, sets + [iset{AnyNet(4)}], a, b)
  {
    AnyParts(gapped, a);
    AnyParts(gapped, b);
    hide Prefixed, Widened, AnyNet;
    var more := sets + [iset{AnyNet(4)}];
    assert forall k | 0 <= k < |sets| :: more[k] == sets[k];
  }

  lemma AnyGapped(sets: seq<NetSet>)
    ensures GappedOf(sets + [iset{AnyNet(4)}]) == GappedOf(sets)
  {
    AnyContiguous();
    hide Contiguous, AnyNet;
    var more := sets + [iset{AnyNet(4)}];
    forall n
      ensures OneOf(more, n) <==> OneOf(sets, n) || n == AnyNet(4)
    {
      if k :| 0 <= k < |sets| && n in sets[k] {
        assert n in more[k];
      }
      assert AnyNet(4) in more[|sets|];
    }
  }

  lemma AnyTakes(sets: seq<NetSet>, k: nat, a: Bytes)
    requires k < |sets| && Takes(sets, k, a)
    ensures Takes(sets + [iset{AnyNet(4)}], k, a)
  {
    hide RootPart, WidePart, HasRoot, Contiguous, SameParts, GappedOf, AnyNet;
    AnyGapped(sets);
    var gapped, more := GappedOf(sets), sets + [iset{AnyNet(4)}];
    forall b: Bytes | SameParts(gapped, sets, a, b)
      ensures SameParts(gapped, more, a, b)
    {
      AnyTells(gapped, sets, a, b);
    }
    var n :| n in sets[k] && TakesNet(gapped, sets, n, a);
    assert more[k] == sets[k];
    assert TakesNet(gapped, more, n, a);
  }

  // ----- the rules can be compiled ----------------------------------------------------------

  lemma StrayValid()
    ensures RulesValid(StrayRules()) && Covered(StrayRules()) && StrayPacket().Valid()
  {
    hide Covered;
    UnrestrictedCovers(StrayRules(), 2);
  }

  /** No side but the sources of version 4 has gaps. */
  lemma OthersPlain(v6: bool, source: bool, n: Net)
    requires v6 || !source
    ensures OneOf(SideSets(StrayRules(), v6, source), n) ==> n == AnyNet(Width(v6))
  {
    hide Narrow, Prefix, Wide, AnyNet;
    var rules := StrayRules();
    assert !HasFamily(rules[0].source, true) && !HasFamily(rules[1].source, true);
  }

  lemma AnyWide(v6: bool)
    ensures Contiguous(AnyNet(Width(v6)).mask)
  {
    assert AllZero(AnyNet(Width(v6)).mask[1..]);
  }

  lemma OthersUsable(v6: bool, source: bool)
    requires v6 || !source
    ensures SideUsable(StrayRules(), v6, source)
  {
    var sets := SideSets(StrayRules(), v6, source);
    forall n
      ensures n !in GappedOf(sets)
    {
      OthersPlain(v6, source, n);
      AnyWide(v6);
    }
    hide GappedOf, SideSets;
    assert GappedOf(sets) == iset{};
  }

  lemma StrayUsable()
    ensures NetsUsable(StrayRules())
  {
    hide SideUsable;
    OthersUsable(false, false);
    OthersUsable(true, true);
    OthersUsable(true, false);
    SourceUsable();
  }

  lemma SourceUsable()
    ensures SideUsable(StrayRules(), false, true)
  {
    hide SideSets, GappedOf, AsSets, Beside, AnyNet, Clashless;
    StraySides();
    AnyGapped(AsSets(Beside()));
    BesideUsable();
  }

  /** Nothing keeps the rules from being compiled. */
  lemma StrayCompiles()
    ensures !SomeBadFlags(StrayRules()) && NetsUsable(StrayRules()) && TotalRanges(StrayRules()) == 0
  {
    hide NetsUsable, Narrow, Prefix, Wide;
    StrayUsable();
    var rules := StrayRules();
    assert rules[1..] == [rules[1], rules[2]] && rules[1..][1..] == [rules[2]] && rules[1..][1..][1..] == [];
  }

  // ----- the packet -------------------------------------------------------------------------

  lemma StrayClaims()
    ensures Claims(StrayRules(), StrayPacket(), 0) && !Applies(StrayRules(), StrayPacket(), 0)
    ensures !Applies(StrayRules(), StrayPacket(), 1) && Applies(StrayRules(), StrayPacket(), 2)
  {
    StrayMatches();
    StrayNets();
    hide NetTakes, NetMatches;
  }

  lemma StrayMatches()
    ensures !NetMatches(StrayRules()[0], false, Stray(), [0, 0, 0, 0])
    ensures !NetMatches(StrayRules()[1], false, Stray(), [0, 0, 0, 0])
    ensures NetMatches(StrayRules()[2], false, Stray(), [0, 0, 0, 0])
  {
    StrayOutside();
    hide Narrow, Prefix, Wide, Stray, Covers, NetMatches, SourceRule;
    SourceMatches([Narrow(), Prefix()], 1, Stray(), [0, 0, 0, 0]);
    SourceMatches([Wide()], 2, Stray(), [0, 0, 0, 0]);
    SourceMatches([], 3, Stray(), [0, 0, 0, 0]);
  }

  lemma SourceMatches(nets: seq<Net>, flow: nat, a: Bytes, b: Bytes)
    ensures NetMatches(SourceRule(nets, flow), false, a, b) <==> nets == [] || exists n :: n in nets && Covers(n, a)
  {
    hide Covers;
    var list := SourceRule(nets, flow).source;
    if n :| n in nets && Covers(n, a) {
      var i :| 0 <= i < |nets| && nets[i] == n;
      assert list[i].net == n;
    }
    if i :| 0 <= i < |list| && list[i].v6 == false && Covers(list[i].net, a) {
      assert nets[i] in nets;
    }
  }

  lemma StrayNets()
    ensures NetTakes(StrayRules(), 0, false, Stray(), [0, 0, 0, 0])
  {
    StrayReaches();
    hide *;
    StrayTaken();
    StraySides();
    BesideSets();
    StrayValid();
    OthersUsable(false, false);
    AnyTakes(AsSets(Beside()), 0, Stray());
    ReachedTaken(StrayRules(), false, false, 0, [0, 0, 0, 0]);
    BothTaken(StrayRules(), Stray(), [0, 0, 0, 0]);
  }

  lemma BothTaken(rules: seq<Rule>, a: Bytes, b: Bytes)
    requires |rules| > 0 && Takes(SideSets(rules, false, true), 0, a) && Takes(SideSets(rules, false, false), 0, b)
    ensures NetTakes(rules, 0, false, a, b)
  {
    hide Takes, SideSets;
  }

  lemma StrayReaches()
    ensures |StrayRules()| == 3 && SideReaches(StrayRules()[0], false, false, [0, 0, 0, 0])
    ensures |Stray()| == 4 == Width(false)
  {
    var rules := StrayRules();
    assert rules[0].destination == [] && rules[0].source[0].v6 == false;
  }

  /**
    Compiled tables give the packet from 10.16.6.0 flow 1, although only the last rule, with flow 3, matches it.
  */
  lemma StrayFlow(c: Compiled, drop: Action)
    requires c.Valid() && StrayPacket().Valid() && drop.Flow?
    requires Correct(c, StrayRules(), drop, StrayPacket(), Claiming(StrayRules(), StrayPacket()))
    ensures c.Lookup(StrayPacket()).Some? && Executes(c.Lookup(StrayPacket()).value, [Flow(1, None)], drop)
    ensures FirstRules(StrayRules(), Applying(StrayRules(), StrayPacket()), [2])
  {
    hide *;
    StrayClaims();
    StrayActions();
    FirstFound(c, StrayRules(), drop, StrayPacket());
    OnlyLast(StrayRules(), StrayPacket());
  }

  lemma StrayActions()
    ensures |StrayRules()| == 3 && StrayRules()[0].action == Flow(1, None)
    ensures StrayRules()[0].Terminating() && StrayRules()[2].Terminating()
  {
    hide Narrow, Prefix, Wide;
  }

  /** A first rule that takes the packet and ends the search is all that the packet reaches. */
  lemma FirstFound(c: Compiled, rules: seq<Rule>, drop: Action, p: Packet)
    requires c.Valid() && p.Valid() && drop.Flow? && Correct(c, rules, drop, p, Claiming(rules, p))
    requires |rules| > 0 && Claims(rules, p, 0) && rules[0].Terminating()
    ensures c.Lookup(p).Some? && Executes(c.Lookup(p).value, [rules[0].action], drop)
  {
    hide Claims, Executes, FirstRules;
    assert 0 in Claiming(rules, p);
    var list :| Compiler.Reaches(rules, drop, Claiming(rules, p), list, c.Lookup(p).value);
    OnlyFirst(rules, Claiming(rules, p), list);
    assert ActionsOf(rules, list) == [rules[0].action];
  }

  lemma OnlyFirst(rules: seq<Rule>, hits: iset<nat>, list: seq<nat>)
    requires FirstRules(rules, hits, list) && 0 in hits && |rules| > 0 && rules[0].Terminating()
    ensures list == [0]
  {
    forall r: nat
      ensures r in list <==> r in [0]
    {
      assert StillOpen(rules, hits, r) <==> r == 0;
    }
    SameIncreasing(list, [0]);
  }

  lemma OnlyLast(rules: seq<Rule>, p: Packet)
    requires |rules| == 3 && !Applies(rules, p, 0) && !Applies(rules, p, 1) && Applies(rules, p, 2)
    ensures FirstRules(rules, Applying(rules, p), [2])
  {
    assert forall r: nat | Applies(rules, p, r) :: r < |rules|;
    hide Applies;
    assert forall r: nat | Applies(rules, p, r) :: r == 2;
  }
}
