/**
  From a firewall program to the lookups of a packet: the flat list of the program is compiled, and
  a packet reaches the actions that the program gives it.
*/
module Firewall {
  import opened Base
  import opened Nets
  import opened Flat
  import opened NetworkTable
  import opened Networks
  import opened Actions
  import opened TransportFilter
  import opened Rules
  import opened Filters
  import opened Unwind
  import opened UnwindMeaning
  import opened TransportGroups
  import opened Compiler

  // ----- flat rules as rules of the compiler ------------------------------------------------

  function ListOrAny(side: Option<seq<Network>>): seq<Network> {
    if side.None? then [] else side.value
  }

  function ToRule(f: FlatRule): Rule
    requires f.filter.acl.Some? && f.filter.acl.value >= 0
  {
    Rule(ListOrAny(f.filter.source), ListOrAny(f.filter.destination), f.filter.flags, f.filter.proto,
         f.filter.acl.value, f.action)
  }

  ghost predicate ProtoFits(f: Option<Proto>) {
    ProtoSized(f) && Unmixed(f)
  }

  /** A rule of the flat list for the way `carry`. */
  ghost predicate FlatOf(f: FlatRule, carry: Filter) {
    Fixed(f.filter) && f.filter.acl == carry.acl && f.filter.dir == carry.dir && ProtoFits(f.filter.proto)
  }

  ghost predicate AllFlat(list: seq<FlatRule>, carry: Filter) {
    forall i | 0 <= i < |list| :: FlatOf(list[i], carry)
  }

  ghost predicate LinesFit(prog: Program) {
    forall i | 0 <= i < |prog| :: LineFits(prog[i])
  }

  ghost predicate LineFits(r: FwRule) {
    r.filter.Some? ==> ProtoFits(r.filter.value.proto)
  }

  /** The rule matches the same packets as the filter. */
  lemma RuleSame(f: FlatRule, carry: Filter, p: Packet, dir: nat)
    requires FlatOf(f, carry) && carry.dir == Some(dir)
    ensures Passes(f.filter, p, dir) <==> ToRule(f).acl == p.acl && RuleMatches(ToRule(f), p)
  {
    hide Covers, Matches, Shaped, StateOf, ProtoFits;
  }

  lemma ToRuleValid(f: FlatRule, carry: Filter)
    requires FlatOf(f, carry)
    ensures RuleValid(ToRule(f))
  {
    hide ProtoSized, Unmixed, ProtoShaped, NetworksValid;
    EmptyValid();
  }

  lemma EmptyValid()
    ensures NetworksValid([])
  {
  }

  // ----- the parts of a flat rule -----------------------------------------------------------

  lemma {:induction false} RangesWithin(a: Ranges, b: Ranges, size: nat)
    requires Within(a, size)
    ensures Within(AndRanges(a, b), size)
  {
    if a != [] {
      RangesWithin(a[1..], b, size);
      RangeWithin(a[0], b, size);
    }
  }

  lemma {:induction false} RangeWithin(r: (nat, nat), list: Ranges, size: nat)
    requires r.1 < size
    ensures Within(AndRange(r, list), size)
  {
    if list != [] {
      RangeWithin(r, list[1..], size);
    }
  }

  lemma PrmWithin(a: Option<Ranges>, b: Option<Ranges>, size: nat)
    requires (a.Some? ==> Within(a.value, size)) && (b.Some? ==> Within(b.value, size))
    ensures AndPrm(a, b).Some? ==> Within(AndPrm(a, b).value, size)
  {
    if a.Some? && b.Some? {
      RangesWithin(a.value, b.value, size);
    }
  }

  lemma ProtoFitsBoth(a: Option<Proto>, b: Option<Proto>)
    requires ProtoFits(a) && ProtoFits(b) && ProtoShaped(a) && ProtoShaped(b)
    ensures ProtoFits(AndProto(a, b))
  {
    if a.Some? && b.Some? {
      PrmWithin(a.value.kind, b.value.kind, 256);
      PrmWithin(a.value.prm1, b.value.prm1, 65536);
      PrmWithin(a.value.prm2, b.value.prm2, 65536);
      PrmWithin(a.value.prm3, b.value.prm3, 256);
      forall v: nat { KindBoth(a.value.kind, b.value.kind, v); }
      hide AndRanges, InRanges, Within;
    }
  }

  /** The conjunction on the way keeps the acl and the direction. */
  lemma WayKept(r: FwRule, carry: Filter, iface: nat, a: Action)
    requires LineShaped(r) && LineFits(r) && Fixed(carry) && ProtoFits(carry.proto) && !Drops(r, carry, iface)
    ensures FlatOf(FlatRule(And(carry, r.filter), a), carry)
  {
    FixedBoth(r, carry, iface);
    hide Shaped, SidesValid, ProtoFits, AndSide, AndProto, AndFlags, Compatible, EmptyProto;
    if r.filter.Some? {
      ShapedProto(carry);
      ShapedProto(r.filter.value);
      ProtoFitsBoth(carry.proto, r.filter.value.proto);
    }
  }

  lemma ShapedProto(f: Filter)
    requires Shaped(f)
    ensures ProtoShaped(f.proto)
  {
  }

  lemma SameWay(list: seq<FlatRule>, both: Filter, carry: Filter)
    requires AllFlat(list, both) && both.acl == carry.acl && both.dir == carry.dir
    ensures AllFlat(list, carry)
  {
    hide Fixed, ProtoFits;
  }

  lemma {:induction false} DispatcherFlat(disp: Program, j: nat, carry: Filter, iface: nat)
    requires j <= |disp| && Fixed(carry) && ProtoFits(carry.proto) && LinesFit(disp)
    requires forall i | 0 <= i < |disp| :: LineShaped(disp[i]) && disp[i].order.Do?
    ensures AllFlat(FlatDispatcher(disp, j, carry, iface), carry)
    decreases |disp| - j
  {
    hide And, Drops, Stops, SidesValid, ProtoShaped, IsNone, ProtoFits, LineFits, FlatOf;
    if j < |disp| {
      DispatcherFlat(disp, j + 1, carry, iface);
      if !Drops(disp[j], carry, iface) {
        WayKept(disp[j], carry, iface, disp[j].order.action);
      }
    }
  }

  lemma {:induction false} ListFlat(prog: Program, disp: Program, i: nat, carry: Filter, iface: nat)
    requires i <= |prog| && Sound(prog, disp) && Fixed(carry) && ProtoFits(carry.proto) && LinesFit(prog)
             && LinesFit(disp)
    ensures AllFlat(Flatten(prog, disp, i, carry, iface), carry)
    decreases |prog| - i
  {
    hide And, Drops, Stops, SidesValid, ProtoShaped, IsNone, ProtoFits, LineFits, Sound;
    if i < |prog| {
      SoundLine(prog, disp, i);
      ListFlat(prog, disp, i + 1, carry, iface);
      if !Drops(prog[i], carry, iface) {
        AndShaped(carry, prog[i].filter);
        var both := And(carry, prog[i].filter);
        WayKept(prog[i], carry, iface, Flow(0, None));
        match prog[i].order {
          case Do(a) =>
            WayKept(prog[i], carry, iface, a);
          case Skip(Dispatcher) =>
            DispatcherFlat(disp, 0, both, iface);
            SameWay(FlatDispatcher(disp, 0, both, iface), both, carry);
          case Skip(Line(n)) =>
            ListFlat(prog, disp, Entry(prog, n), both, iface);
            SameWay(Flatten(prog, disp, Entry(prog, n), both, iface), both, carry);
        }
        assert AllFlat(Here(prog, disp, i, carry, iface), carry) by { hide Flatten; }
        hide Here, FlatOf;
      }
    }
  }

  // ----- an unrestricted rule ---------------------------------------------------------------

  ghost predicate OpenWay(f: Filter) {
    f.source.None? && f.destination.None?
  }

  ghost predicate HasOpen(list: seq<FlatRule>) {
    exists k :: 0 <= k < |list| && OpenWay(list[k].filter)
  }

  lemma OpenIn(a: seq<FlatRule>, b: seq<FlatRule>)
    requires HasOpen(a) || HasOpen(b)
    ensures HasOpen(a + b)
  {
    if k :| 0 <= k < |a| && OpenWay(a[k].filter) {
      assert (a + b)[k] == a[k];
    }
    if k :| 0 <= k < |b| && OpenWay(b[k].filter) {
      assert (a + b)[|a| + k] == b[k];
    }
  }

  /** A line without networks keeps the way open. */
  lemma StaysOpen(r: FwRule, carry: Filter)
    requires LineShaped(r) && Shaped(carry) && OpenWay(carry) && IsTerm(r.filter)
    ensures OpenWay(And(carry, r.filter))
  {
    hide ProtoShaped;
  }

  lemma CatchAllStays(r: FwRule, carry: Filter, dir: nat, iface: nat)
    requires LineShaped(r) && Fixed(carry) && OpenWay(carry) && carry.dir == Some(dir) && CatchAll(r, dir)
    ensures !Drops(r, carry, iface)
  {
    hide ProtoShaped, NetworksValid;
  }

  lemma {:induction false} DispatcherOpen(disp: Program, j: nat, carry: Filter, dir: nat, iface: nat, c: nat)
    requires j <= c < |disp| && Fixed(carry) && OpenWay(carry) && carry.dir == Some(dir) && CatchAll(disp[c], dir)
    requires forall i | 0 <= i < |disp| :: LineShaped(disp[i]) && disp[i].order.Do?
    ensures HasOpen(FlatDispatcher(disp, j, carry, iface))
    decreases |disp| - j
  {
    hide And, Drops, SidesValid, ProtoShaped, IsNone, CatchAll, IsTerm;
    if Drops(disp[j], carry, iface) {
      if j == c {
        CatchAllStays(disp[c], carry, dir, iface);
      }
      DispatcherOpen(disp, j + 1, carry, dir, iface, c);
    } else {
      var first := [FlatRule(And(carry, disp[j].filter), disp[j].order.action)];
      if j == c || Stops(disp[j]) {
        CatchAllTerm(disp[c], dir);
        StaysOpen(disp[j], carry);
        assert OpenWay(first[0].filter);
      } else {
        DispatcherOpen(disp, j + 1, carry, dir, iface, c);
      }
      OpenIn(first, if Stops(disp[j]) then [] else FlatDispatcher(disp, j + 1, carry, iface));
    }
  }

  lemma CatchAllTerm(r: FwRule, dir: nat)
    requires CatchAll(r, dir)
    ensures IsTerm(r.filter)
  {
  }

  /** The list of an unrestricted way has an unrestricted rule. */
  lemma {:induction false} ListOpen(prog: Program, disp: Program, i: nat, carry: Filter, dir: nat, iface: nat)
    requires i < |prog| && Sound(prog, disp) && Complete(prog, disp, dir) && Fixed(carry) && OpenWay(carry)
             && carry.dir == Some(dir)
    ensures HasOpen(Flatten(prog, disp, i, carry, iface))
    decreases |prog| - i
  {
    hide And, Drops, SidesValid, ProtoShaped, IsNone, CatchAll, Sound, HasOpen, IsTerm;
    SoundLine(prog, disp, i);
    LastStays(prog, disp, carry, dir, iface);
    if Drops(prog[i], carry, iface) {
      ListOpen(prog, disp, i + 1, carry, dir, iface);
    } else {
      AndShaped(carry, prog[i].filter);
      var here := Here(prog, disp, i, carry, iface);
      if Stops(prog[i]) {
        FixedBoth(prog[i], carry, iface);
        StaysOpen(prog[i], carry);
        SameDir(prog[i], carry, iface);
        var both := And(carry, prog[i].filter);
        match prog[i].order {
          case Do(a) =>
            SingleOpen(FlatRule(both, a));
          case Skip(Dispatcher) =>
            var c :| 0 <= c < |disp| && CatchAll(disp[c], dir);
            DispatcherOpen(disp, 0, both, dir, iface, c);
          case Skip(Line(n)) =>
            ListOpen(prog, disp, Entry(prog, n), both, dir, iface);
        }
        assert HasOpen(here) by { hide Flatten; }
      } else {
        ListOpen(prog, disp, i + 1, carry, dir, iface);
      }
      hide Here;
      OpenIn(here, if Stops(prog[i]) then [] else Flatten(prog, disp, i + 1, carry, iface));
    }
  }

  lemma SingleOpen(f: FlatRule)
    requires OpenWay(f.filter)
    ensures HasOpen([f])
  {
    assert [f][0] == f;
  }

  lemma SameDir(r: FwRule, carry: Filter, iface: nat)
    requires LineShaped(r) && Fixed(carry) && !Drops(r, carry, iface)
    ensures And(carry, r.filter).dir == carry.dir && And(carry, r.filter).acl == carry.acl
  {
    hide Shaped, SidesValid, AndSide, AndProto, AndFlags, Compatible, EmptyProto;
  }

  lemma LastStays(prog: Program, disp: Program, carry: Filter, dir: nat, iface: nat)
    requires Sound(prog, disp) && Complete(prog, disp, dir) && Fixed(carry)
    ensures LineShaped(Last(prog)) && !Drops(Last(prog), carry, iface) && Stops(Last(prog))
  {
  }

  // ----- the first rules of a flat list -----------------------------------------------------

  ghost function ToRules(list: seq<FlatRule>, carry: Filter): (r: seq<Rule>)
    requires AllFlat(list, carry)
    ensures |r| == |list|
  {
    seq(|list|, i requires 0 <= i < |list| => ToRule(list[i]))
  }

  /** The positions of the rules that the run uses, from position k on. */
  ghost function Used(list: seq<FlatRule>, x: Case, k: nat): seq<nat>
    requires k <= |list|
    decreases |list| - k
  {
    if k == |list| then []
    else if !Passes(list[k].filter, x.p, x.dir) then Used(list, x, k + 1)
    else if list[k].action.Flow? then [k] else [k] + Used(list, x, k + 1)
  }

  ghost predicate Hits(list: seq<FlatRule>, x: Case, r: nat) {
    r < |list| && Passes(list[r].filter, x.p, x.dir)
  }

  ghost predicate OpenFrom(list: seq<FlatRule>, x: Case, k: nat, r: nat) {
    forall q: nat | k <= q < r && Hits(list, x, q) :: !list[q].action.Flow?
  }

  lemma {:induction false} UsedAre(list: seq<FlatRule>, x: Case, k: nat)
    requires k <= |list|
    ensures Increasing(Used(list, x, k))
    ensures forall r: nat :: r in Used(list, x, k) <==> k <= r && Hits(list, x, r) && OpenFrom(list, x, k, r)
    decreases |list| - k
  {
    hide Passes;
    if k < |list| {
      UsedAre(list, x, k + 1);
      var rest := Used(list, x, k + 1);
      forall r: nat
        ensures r in Used(list, x, k) <==> k <= r && Hits(list, x, r) && OpenFrom(list, x, k, r)
      {
        OpenStep(list, x, k, r);
        hide OpenFrom;
      }
      if Passes(list[k].filter, x.p, x.dir) && !list[k].action.Flow? {
        assert forall i | 0 <= i < |rest| :: rest[i] in rest;
      }
    }
  }

  /** The actions at the positions. */
  ghost function ActionsAt(list: seq<FlatRule>, used: seq<nat>): (r: seq<Action>)
    ensures |r| == |used|
  {
    seq(|used|, i requires 0 <= i < |used| => if used[i] < |list| then list[used[i]].action else Flow(0, None))
  }

  lemma {:induction false} UsedRun(list: seq<FlatRule>, x: Case, k: nat)
    requires k <= |list|
    ensures Run(list[k..], x) == ActionsAt(list, Used(list, x, k))
    decreases |list| - k
  {
    hide Passes;
    if k < |list| {
      UsedRun(list, x, k + 1);
      assert list[k..][0] == list[k] && list[k..][1..] == list[k + 1..];
      var rest := Used(list, x, k + 1);
      assert ActionsAt(list, [k] + rest) == [list[k].action] + ActionsAt(list, rest);
      assert ActionsAt(list, [k]) == [list[k].action];
    }
  }

  lemma OpenStep(list: seq<FlatRule>, x: Case, k: nat, r: nat)
    requires k < |list|
    ensures k < r ==>
              (OpenFrom(list, x, k, r) <==> OpenFrom(list, x, k + 1, r) && (Hits(list, x, k) ==> !list[k].action.Flow?))
    ensures OpenFrom(list, x, k, k)
  {
    hide Passes;
  }

  lemma HitsApply(list: seq<FlatRule>, carry: Filter, x: Case, r: nat)
    requires AllFlat(list, carry) && carry.dir == Some(x.dir)
    ensures Hits(list, x, r) <==> Applies(ToRules(list, carry), x.p, r)
  {
    hide Passes, RuleMatches, FlatOf;
    if r < |list| {
      assert FlatOf(list[r], carry);
      RuleSame(list[r], carry, x.p, x.dir);
    }
  }

  /** The first rules that apply to the packet have the actions of the run. */
  lemma FirstRun(list: seq<FlatRule>, carry: Filter, x: Case, ids: seq<nat>)
    requires AllFlat(list, carry) && carry.dir == Some(x.dir)
             && FirstRules(ToRules(list, carry), Applying(ToRules(list, carry), x.p), ids)
    requires forall i | 0 <= i < |ids| :: ids[i] < |list|
    ensures ActionsOf(ToRules(list, carry), ids) == Run(list, x)
  {
    var rules, used := ToRules(list, carry), Used(list, x, 0);
    UsedAre(list, x, 0);
    UsedRun(list, x, 0);
    assert list[0..] == list;
    forall r: nat
      ensures Hits(list, x, r) <==> Applies(rules, x.p, r)
    {
      HitsApply(list, carry, x, r);
    }
    hide Hits, Applies, Increasing, Run, Used, FlatOf;
    forall r: nat
      ensures OpenFrom(list, x, 0, r) <==> StillOpen(rules, Applying(rules, x.p), r)
    {
      SameOpen(list, carry, x, r);
    }
    hide StillOpen, OpenFrom;
    SameIncreasing(ids, used);
    assert ActionsOf(rules, ids) == ActionsAt(list, ids);
  }

  lemma SameOpen(list: seq<FlatRule>, carry: Filter, x: Case, r: nat)
    requires AllFlat(list, carry) && forall q: nat :: Hits(list, x, q) <==> Applies(ToRules(list, carry), x.p, q)
    ensures OpenFrom(list, x, 0, r) <==> StillOpen(ToRules(list, carry), Applying(ToRules(list, carry), x.p), r)
  {
    var rules := ToRules(list, carry);
    forall q: nat | Hits(list, x, q)
      ensures q < |list| && (list[q].action.Flow? <==> rules[q].Terminating())
    {
      assert q < |list|;
    }
    hide Applies, FlatOf;
    assert forall q: nat | Applies(rules, x.p, q) :: Hits(list, x, q);
    hide Hits;
  }

  // ----- the whole chain --------------------------------------------------------------------

  ghost predicate Usual(prog: Program, disp: Program, start: Filter, dir: nat) {
    && Sound(prog, disp) && Complete(prog, disp, dir) && LinesFit(prog) && LinesFit(disp)
    && Fixed(start) && OpenWay(start) && ProtoFits(start.proto) && start.dir == Some(dir)
  }

  /** The lookup of the packet finds the actions that the program gives it. */
  ghost predicate Follows(c: Compiled, prog: Program, disp: Program, x: Case, drop: Action)
    requires c.Valid() && x.p.Valid() && Sound(prog, disp) && drop.Flow?
  {
    c.Lookup(x.p).Some? && Executes(c.Lookup(x.p).value, Interpret(prog, disp, 0, x), drop)
  }

  lemma PacketFollows(c: Compiled, prog: Program, disp: Program, start: Filter, x: Case, drop: Action,
                      list: seq<FlatRule>)
    requires Usual(prog, disp, start, x.dir) && list == Flatten(prog, disp, 0, start, x.iface) && AllFlat(list, start)
    requires c.Valid() && x.p.Valid() && Passes(start, x.p, x.dir) && !Hidden(x.p.segment) && drop.Flow?
    requires Correct(c, ToRules(list, start), drop, x.p, Applying(ToRules(list, start), x.p))
    ensures Follows(c, prog, disp, x, drop)
  {
    hide *;
    UsualParts(prog, disp, start, x.dir);
    SettingIs(prog, disp, start, x);
    UnwindPreserves(prog, disp, start, x);
    PreservedIs(prog, disp, start, x);
    ListInside(prog, disp, 0, start, x);
    CarryEnds(prog, disp, 0, start, x);
    SomeHit(c, list, start, x, drop);
    var ids := Reached(c, list, start, x, drop);
    FirstRun(list, start, x, ids);
    FollowsIs(c, prog, disp, x, drop);
  }

  lemma UsualParts(prog: Program, disp: Program, start: Filter, dir: nat)
    requires Usual(prog, disp, start, dir)
    ensures Sound(prog, disp) && Complete(prog, disp, dir) && LinesFit(prog) && LinesFit(disp) && |prog| > 0
    ensures Fixed(start) && OpenWay(start) && ProtoFits(start.proto) && start.dir == Some(dir) && Shaped(start)
  {
  }

  lemma SettingIs(prog: Program, disp: Program, start: Filter, x: Case)
    requires Sound(prog, disp) && Complete(prog, disp, x.dir) && Fixed(start) && Passes(start, x.p, x.dir)
    ensures Setting(prog, disp, start, x)
  {
  }

  lemma PreservedIs(prog: Program, disp: Program, start: Filter, x: Case)
    requires Setting(prog, disp, start, x) && Preserved(prog, disp, start, x)
    ensures Sound(prog, disp) && Shaped(start)
            && Run(Flatten(prog, disp, 0, start, x.iface), x) == Interpret(prog, disp, 0, x)
  {
  }

  lemma SomeHit(c: Compiled, list: seq<FlatRule>, start: Filter, x: Case, drop: Action)
    requires AllFlat(list, start) && start.dir == Some(x.dir) && c.Valid() && x.p.Valid() && drop.Flow?
    requires Correct(c, ToRules(list, start), drop, x.p, Applying(ToRules(list, start), x.p)) && Ends(Run(list, x))
    ensures c.Lookup(x.p).Some?
  {
    hide FlatOf, Passes, Applies, Executes;
    UsedAre(list, x, 0);
    UsedRun(list, x, 0);
    assert list[0..] == list;
    var r := Used(list, x, 0)[0];
    assert r in Used(list, x, 0);
    HitsApply(list, start, x, r);
    assert r in Applying(ToRules(list, start), x.p);
  }

  lemma Reached(c: Compiled, list: seq<FlatRule>, start: Filter, x: Case, drop: Action) returns (ids: seq<nat>)
    requires AllFlat(list, start) && c.Valid() && x.p.Valid() && drop.Flow?
             && Correct(c, ToRules(list, start), drop, x.p, Applying(ToRules(list, start), x.p))
    requires c.Lookup(x.p).Some?
    ensures (forall i | 0 <= i < |ids| :: ids[i] < |list|)
            && FirstRules(ToRules(list, start), Applying(ToRules(list, start), x.p), ids)
    ensures Executes(c.Lookup(x.p).value, ActionsOf(ToRules(list, start), ids), drop)
  {
    hide FlatOf, FirstRules, Executes;
    ids :| Compiler.Reaches(ToRules(list, start), drop, Applying(ToRules(list, start), x.p), ids, c.Lookup(x.p).value);
  }

  lemma FollowsIs(c: Compiled, prog: Program, disp: Program, x: Case, drop: Action)
    requires c.Valid() && x.p.Valid() && Sound(prog, disp) && drop.Flow?
    requires c.Lookup(x.p).Some? && Executes(c.Lookup(x.p).value, Interpret(prog, disp, 0, x), drop)
    ensures Follows(c, prog, disp, x, drop)
  {
  }

  /** The rules of the flat list can be compiled. */
  lemma RulesReady(prog: Program, disp: Program, start: Filter, dir: nat, iface: nat, list: seq<FlatRule>)
    requires Usual(prog, disp, start, dir) && list == Flatten(prog, disp, 0, start, iface)
    ensures AllFlat(list, start) && RulesValid(ToRules(list, start)) && Covered(ToRules(list, start))
  {
    hide *;
    UsualParts(prog, disp, start, dir);
    ListFlat(prog, disp, 0, start, iface);
    ListOpen(prog, disp, 0, start, dir, iface);
    FlatReady(list, start);
  }

  lemma FlatReady(list: seq<FlatRule>, start: Filter)
    requires AllFlat(list, start) && HasOpen(list)
    ensures RulesValid(ToRules(list, start)) && Covered(ToRules(list, start))
  {
    hide RuleValid, Covered;
    var rules := ToRules(list, start);
    forall k | 0 <= k < |list|
      ensures RuleValid(rules[k])
    {
      ToRuleValid(list[k], start);
    }
    var k :| 0 <= k < |list| && OpenWay(list[k].filter);
    UnrestrictedCovers(rules, k);
  }

  /** All flat rules as rules of the compiler. */
  method Convert(list: seq<FlatRule>, ghost start: Filter) returns (rules: seq<Rule>)
    requires AllFlat(list, start)
    ensures rules == ToRules(list, start)
  {
    hide RuleMatches;
    rules := [];
    for k := 0 to |list|
      invariant |rules| == k && forall j | 0 <= j < k :: FlatOf(list[j], start) && rules[j] == ToRule(list[j])
    {
      assert FlatOf(list[k], start);
      rules := rules + [ToRule(list[k])];
    }
  }

  /** The rules that the compiler gets: the flat list of the program. */
  ghost function RulesOf(prog: Program, disp: Program, start: Filter, dir: nat, iface: nat): (rules: seq<Rule>)
    requires Usual(prog, disp, start, dir)
    ensures AllFlat(Flatten(prog, disp, 0, start, iface), start)
            && rules == ToRules(Flatten(prog, disp, 0, start, iface), start)
  {
    RulesReady(prog, disp, start, dir, iface, Flatten(prog, disp, 0, start, iface));
    ToRules(Flatten(prog, disp, 0, start, iface), start)
  }

  /**
    Unwinding and compiling a program: every packet of the start filter reaches the actions that the
    program gives it, unless it is a segment without its header, or the classifiers take it for a packet
    of a rule that does not match it.  It fails for jumps that nest too deep and where compiling the flat
    list fails.
  */
  method Build(prog: Program, disp: Program, start: Filter, dir: nat, iface: nat, drop: Action,
               max: nat) returns (r: Option<Compiled>)
    requires Usual(prog, disp, start, dir) && IsPower(max) && drop.Flow?
    ensures r.Some? ==> r.value.Valid()
    ensures r.Some? ==> forall p: Packet | p.Valid() && Passes(start, p, dir) && !Hidden(p.segment)
                                           && Claiming(RulesOf(prog, disp, start, dir, iface),
                                                       p) == Applying(RulesOf(prog, disp, start, dir, iface), p) ::
              Follows(r.value, prog, disp, Case(p, dir, iface), drop)
    ensures r.Some? && NetsExact(RulesOf(prog, disp, start, dir, iface)) ==>
              forall p: Packet | p.Valid() && Passes(start, p, dir) && !Hidden(p.segment) ::
                Follows(r.value, prog, disp, Case(p, dir, iface), drop)
    ensures r.None?
            <==> Depth(prog, disp, 0, start, iface) > 1000 || Errs(RulesOf(prog, disp, start, dir, iface), max)
    ensures r.None? ==>
              Depth(prog, disp, 0, start, iface) > 1000 || Fails(RulesOf(prog, disp, start, dir, iface))
    ensures Depth(prog, disp, 0, start, iface) > 1000
            || MustFail(RulesOf(prog, disp, start, dir, iface), max) ==>
              r.None?
  {
    hide *;
    UsualParts(prog, disp, start, dir);
    var u := new Unwinder();
    var ok := u.Gather(prog, disp, 0, start, iface, 0);
    if !ok {
      return None;
    }
    ghost var list := Flatten(prog, disp, 0, start, iface);
    assert u.rules == list;
    RulesReady(prog, disp, start, dir, iface, list);
    var rules := Convert(u.rules, start);
    assert rules == RulesOf(prog, disp, start, dir, iface);
    r := Compile(rules, drop, max);
    if r.Some? {
      forall p: Packet | p.Valid() && Passes(start, p, dir) && !Hidden(p.segment)
      && Claiming(rules, p) == Applying(rules, p)
        ensures Follows(r.value, prog, disp, Case(p, dir, iface), drop)
      {
        PacketFollows(r.value, prog, disp, start, Case(p, dir, iface), drop, list);
      }
      FailsIs(rules, max);
      if NetsExact(rules) {
        forall p: Packet | p.Valid()
          ensures Claiming(rules, p) == Applying(rules, p)
        {
          ClaimsApply(rules, p);
        }
      }
    }
  }
}
