/** Unwinding preserves the meaning of a firewall program. */
module UnwindMeaning {
  import opened Base
  import opened Flat
  import opened Actions
  import opened TransportFilter
  import opened Rules
  import opened Filters
  import opened Unwind

  /** What a program runs on: a packet in a direction, at an interface. */
  datatype Case = Case(p: Packet, dir: nat, iface: nat)

  // ----- the meaning of a program -----------------------------------------------------------

  /** The packet matches the line, at an interface that the line is for. */
  ghost predicate Concerns(r: FwRule, x: Case) {
    RulePasses(r.filter, x.p, x.dir) && (r.via == {} || x.iface in r.via)
  }

  /** The dispatcher: the flow of the first line that matches. */
  ghost function Dispatch(disp: Program, j: nat, x: Case): seq<Action>
    requires j <= |disp| && forall i | 0 <= i < |disp| :: disp[i].order.Do?
    decreases |disp| - j
  {
    if j == |disp| then [] else if Concerns(disp[j], x) then [disp[j].order.action] else Dispatch(disp, j + 1, x)
  }

  /** The actions of the packet from position i on: line by line, following jumps, until a flow. */
  ghost function Interpret(prog: Program, disp: Program, i: nat, x: Case): seq<Action>
    requires i <= |prog| && Sound(prog, disp)
    decreases |prog| - i
  {
    if i == |prog| then []
    else if !Concerns(prog[i], x) then Interpret(prog, disp, i + 1, x)
    else
      match prog[i].order
      case Do(a) => if a.Flow? then [a] else [a] + Interpret(prog, disp, i + 1, x)
      case Skip(Dispatcher) => Dispatch(disp, 0, x)
      case Skip(Line(n)) => Interpret(prog, disp, Entry(prog, n), x)
  }

  /** The actions of the packet in a flat list. */
  ghost function Run(list: seq<FlatRule>, x: Case): seq<Action> {
    if list == [] then []
    else if !Passes(list[0].filter, x.p, x.dir) then Run(list[1..], x)
    else if list[0].action.Flow? then [list[0].action]
    else [list[0].action] + Run(list[1..], x)
  }

  ghost predicate Ends(actions: seq<Action>) {
    actions != [] && Last(actions).Flow?
  }

  lemma {:induction false} RunJoin(a: seq<FlatRule>, b: seq<FlatRule>, x: Case)
    ensures Run(a + b, x) == if Ends(Run(a, x)) then Run(a, x) else Run(a, x) + Run(b, x)
  {
    hide Passes;
    if a == [] {
      assert a + b == b;
    } else {
      assert (a + b)[0] == a[0] && (a + b)[1..] == a[1..] + b;
      RunJoin(a[1..], b, x);
      if Passes(a[0].filter, x.p, x.dir) && !a[0].action.Flow? {
        EndsAfter(a[0].action, Run(a[1..], x));
      }
    }
  }

  lemma EndsAfter(a: Action, rest: seq<Action>)
    requires !a.Flow?
    ensures Ends([a] + rest) <==> Ends(rest)
  {
    if rest != [] {
      assert Last([a] + rest) == Last(rest);
    }
  }

  // ----- the flat list, filter by filter ----------------------------------------------------

  /** The filter of the way fixes the acl and the direction, and is not empty. */
  ghost predicate Fixed(carry: Filter) {
    Shaped(carry) && !IsNone(carry) && carry.acl.Some? && carry.dir.Some?
  }

  ghost predicate Kept(r: FwRule, carry: Filter, x: Case)
    requires LineShaped(r) && Shaped(carry)
  {
    RulePasses(r.filter, x.p, x.dir) && !Drops(r, carry, x.iface)
  }

  ghost function CarryDispatch(disp: Program, j: nat, carry: Filter, x: Case): seq<Action>
    requires j <= |disp| && Shaped(carry) && forall i | 0 <= i < |disp| :: LineShaped(disp[i]) && disp[i].order.Do?
    decreases |disp| - j
  {
    if j == |disp| then []
    else if Kept(disp[j], carry, x) then [disp[j].order.action] else CarryDispatch(disp, j + 1, carry, x)
  }

  /** Like `Interpret`, without the lines that are left out under the filter of the way. */
  ghost function CarryRun(prog: Program, disp: Program, i: nat, carry: Filter, x: Case): seq<Action>
    requires i <= |prog| && Sound(prog, disp) && Shaped(carry)
    decreases |prog| - i
  {
    if i == |prog| then []
    else if !Kept(prog[i], carry, x) then CarryRun(prog, disp, i + 1, carry, x)
    else
      AndShaped(carry, prog[i].filter);
      match prog[i].order
      case Do(a) => if a.Flow? then [a] else [a] + CarryRun(prog, disp, i + 1, carry, x)
      case Skip(Dispatcher) => CarryDispatch(disp, 0, And(carry, prog[i].filter), x)
      case Skip(Line(n)) => CarryRun(prog, disp, Entry(prog, n), And(carry, prog[i].filter), x)
  }

  /** A line that stops the gathering concerns every packet of the way. */
  lemma StopPasses(r: FwRule, carry: Filter, x: Case)
    requires LineShaped(r) && Fixed(carry) && x.p.Valid() && Passes(carry, x.p, x.dir) && IsTerm(r.filter)
             && !Drops(r, carry, x.iface)
    ensures RulePasses(r.filter, x.p, x.dir)
  {
  }

  lemma FixedBoth(r: FwRule, carry: Filter, iface: nat)
    requires LineShaped(r) && Fixed(carry) && !Drops(r, carry, iface)
    ensures Fixed(And(carry, r.filter))
  {
    AndShaped(carry, r.filter);
    hide Shaped, SidesValid, ProtoShaped, AndSide, AndProto, AndFlags, Compatible;
  }

  /** A packet outside the filter of the way matches no rule of the list. */
  lemma {:induction false} DispatcherOutside(disp: Program, j: nat, carry: Filter, x: Case)
    requires j <= |disp| && Shaped(carry) && (forall i | 0 <= i < |disp| :: LineShaped(disp[i]) && disp[i].order.Do?)
    requires x.p.Valid() && !Passes(carry, x.p, x.dir)
    ensures Run(FlatDispatcher(disp, j, carry, x.iface), x) == []
    decreases |disp| - j
  {
    hide Passes, And, Drops, Stops, SidesValid, ProtoShaped;
    if j < |disp| {
      DispatcherOutside(disp, j + 1, carry, x);
      AndPasses(carry, disp[j].filter, x.p, x.dir);
      var rest := FlatDispatcher(disp, j + 1, carry, x.iface);
      RunFirst(FlatRule(And(carry, disp[j].filter), disp[j].order.action), if Stops(disp[j]) then [] else rest, x);
    }
  }

  lemma RunFirst(f: FlatRule, rest: seq<FlatRule>, x: Case)
    ensures Run([f] + rest, x) == if !Passes(f.filter, x.p, x.dir) then Run(rest, x)
                                  else if f.action.Flow? then [f.action] else [f.action] + Run(rest, x)
    ensures Run([], x) == []
  {
    hide Passes;
    assert ([f] + rest)[1..] == rest;
  }

  lemma {:induction false} ListOutside(prog: Program, disp: Program, i: nat, carry: Filter, x: Case)
    requires i <= |prog| && Sound(prog, disp) && Shaped(carry) && x.p.Valid() && !Passes(carry, x.p, x.dir)
    ensures Run(Flatten(prog, disp, i, carry, x.iface), x) == []
    decreases |prog| - i
  {
    hide Passes, And, Drops, Stops, SidesValid, ProtoShaped, Sound;
    if i < |prog| {
      SoundLine(prog, disp, i);
      ListOutside(prog, disp, i + 1, carry, x);
      if !Drops(prog[i], carry, x.iface) {
        AndShaped(carry, prog[i].filter);
        AndPasses(carry, prog[i].filter, x.p, x.dir);
        var both := And(carry, prog[i].filter);
        match prog[i].order {
          case Do(a) => RunFirst(FlatRule(both, a), [], x);
          case Skip(Dispatcher) => DispatcherOutside(disp, 0, both, x);
          case Skip(Line(n)) => ListOutside(prog, disp, Entry(prog, n), both, x);
        }
        var here := Here(prog, disp, i, carry, x.iface);
        assert Run(here, x) == [] by { hide Flatten; }
        RunJoin(here, if Stops(prog[i]) then [] else Flatten(prog, disp, i + 1, carry, x.iface), x);
      }
    }
  }

  // ----- packets of the way -----------------------------------------------------------------

  /** A line for all packets of the direction. */
  ghost predicate CatchAll(r: FwRule, dir: nat) {
    r.via == {} && IsTerm(r.filter) && (r.filter.Some? ==> r.filter.value.acl.None? && IdIs(r.filter.value.dir, dir))
  }

  /** The program ends with a jump to the dispatcher, and the dispatcher has a line for all packets of the direction. */
  ghost predicate Complete(prog: Program, disp: Program, dir: nat) {
    && prog != [] && Last(prog).filter.None? && Last(prog).via == {} && Last(prog).order == Skip(Dispatcher)
    && exists c :: 0 <= c < |disp| && CatchAll(disp[c], dir)
  }

  lemma CatchAllKept(r: FwRule, carry: Filter, x: Case)
    requires LineShaped(r) && Fixed(carry) && x.p.Valid() && Passes(carry, x.p, x.dir) && CatchAll(r, x.dir)
    ensures Kept(r, carry, x)
  {
    hide NetworksValid, ProtoShaped, InNetworks;
  }

  lemma {:induction false} DispatcherInside(disp: Program, j: nat, carry: Filter, x: Case)
    requires j <= |disp| && Fixed(carry) && x.p.Valid() && Passes(carry, x.p, x.dir)
    requires forall i | 0 <= i < |disp| :: LineShaped(disp[i]) && disp[i].order.Do? && disp[i].order.action.Flow?
    ensures Run(FlatDispatcher(disp, j, carry, x.iface), x) == CarryDispatch(disp, j, carry, x)
    decreases |disp| - j
  {
    hide Passes, And, Drops, SidesValid, ProtoShaped, IsNone, IsTerm;
    if j < |disp| {
      DispatcherInside(disp, j + 1, carry, x);
      if !Drops(disp[j], carry, x.iface) {
        AndPasses(carry, disp[j].filter, x.p, x.dir);
        if Stops(disp[j]) {
          StopPasses(disp[j], carry, x);
        }
        var rest := FlatDispatcher(disp, j + 1, carry, x.iface);
        RunFirst(FlatRule(And(carry, disp[j].filter), disp[j].order.action), if Stops(disp[j]) then [] else rest, x);
      }
    }
  }

  lemma {:induction false} DispatcherEnds(disp: Program, j: nat, carry: Filter, x: Case, c: nat)
    requires j <= c < |disp| && Fixed(carry) && x.p.Valid() && Passes(carry, x.p, x.dir) && CatchAll(disp[c], x.dir)
    requires forall i | 0 <= i < |disp| :: LineShaped(disp[i]) && disp[i].order.Do? && disp[i].order.action.Flow?
    ensures Ends(CarryDispatch(disp, j, carry, x))
    decreases |disp| - j
  {
    hide Passes, Drops, SidesValid, ProtoShaped, IsNone, IsTerm, Kept, CatchAll;
    CatchAllKept(disp[c], carry, x);
    if !Kept(disp[j], carry, x) {
      DispatcherEnds(disp, j + 1, carry, x, c);
    }
  }

  /** The last line leads to the dispatcher. */
  lemma LastKept(prog: Program, disp: Program, carry: Filter, x: Case)
    requires Sound(prog, disp) && Complete(prog, disp, x.dir) && Fixed(carry) && x.p.Valid()
             && Passes(carry, x.p, x.dir)
    ensures LineShaped(Last(prog)) && Kept(Last(prog), carry, x)
  {
  }

  lemma Jump(prog: Program, disp: Program, i: nat, carry: Filter, x: Case)
    requires Sound(prog, disp) && i < |prog| && Fixed(carry) && x.p.Valid() && Passes(carry, x.p, x.dir)
             && LineShaped(prog[i])
    requires Kept(prog[i], carry, x)
    ensures Fixed(And(carry, prog[i].filter)) && Passes(And(carry, prog[i].filter), x.p, x.dir)
  {
    hide Passes, And, Drops, SidesValid, ProtoShaped, IsNone;
    FixedBoth(prog[i], carry, x.iface);
    AndPasses(carry, prog[i].filter, x.p, x.dir);
  }

  /** Every packet of the way gets a flow. */
  lemma {:induction false} CarryEnds(prog: Program, disp: Program, i: nat, carry: Filter, x: Case)
    requires i < |prog| && Sound(prog, disp) && Complete(prog, disp, x.dir) && Fixed(carry) && x.p.Valid()
             && Passes(carry, x.p, x.dir)
    ensures Ends(CarryRun(prog, disp, i, carry, x))
    decreases |prog| - i
  {
    hide Passes, And, Drops, SidesValid, ProtoShaped, IsNone, Sound, Kept, CatchAll;
    SoundLine(prog, disp, i);
    SoundFlows(prog, disp);
    if !Kept(prog[i], carry, x) {
      LastKept(prog, disp, carry, x);
      CarryEnds(prog, disp, i + 1, carry, x);
    } else {
      Jump(prog, disp, i, carry, x);
      match prog[i].order
      case Do(a) =>
        if !a.Flow? {
          LastKept(prog, disp, carry, x);
          CarryEnds(prog, disp, i + 1, carry, x);
          EndsAfter(a, CarryRun(prog, disp, i + 1, carry, x));
        }
      case Skip(Dispatcher) =>
        var c :| 0 <= c < |disp| && CatchAll(disp[c], x.dir);
        DispatcherEnds(disp, 0, And(carry, prog[i].filter), x, c);
      case Skip(Line(n)) =>
        CarryEnds(prog, disp, Entry(prog, n), And(carry, prog[i].filter), x);
    }
  }

  lemma SoundFlows(prog: Program, disp: Program)
    requires Sound(prog, disp)
    ensures forall i | 0 <= i < |disp| :: LineShaped(disp[i]) && disp[i].order.Do? && disp[i].order.action.Flow?
  {
  }

  /** The flat list gives every packet of the way the actions of the program without the lines that are left out. */
  lemma {:induction false} ListInside(prog: Program, disp: Program, i: nat, carry: Filter, x: Case)
    requires i <= |prog| && Sound(prog, disp) && Complete(prog, disp, x.dir) && Fixed(carry) && x.p.Valid()
             && Passes(carry, x.p, x.dir)
    ensures Run(Flatten(prog, disp, i, carry, x.iface), x) == CarryRun(prog, disp, i, carry, x)
    decreases |prog| - i
  {
    hide Passes, And, Drops, Stops, SidesValid, ProtoShaped, IsNone, Sound, Complete;
    if i < |prog| {
      SoundLine(prog, disp, i);
      ListInside(prog, disp, i + 1, carry, x);
      hide Flatten, Run, CarryRun;
      if Drops(prog[i], carry, x.iface) {
        FlattenSkip(prog, disp, i, carry, x.iface);
        CarrySkip(prog, disp, i, carry, x);
      } else {
        AndShaped(carry, prog[i].filter);
        FlattenStep(prog, disp, i, carry, x.iface, []);
        RunJoin(Here(prog, disp, i, carry, x.iface), if Stops(prog[i]) then []
                                                     else Flatten(prog, disp, i + 1, carry, x.iface), x);
        StopsLeaves(prog[i]);
        if RulePasses(prog[i].filter, x.p, x.dir) {
          HereInside(prog, disp, i, carry, x);
          CarryOne(prog, disp, i, carry, x);
        } else {
          HereOutside(prog, disp, i, carry, x);
          NotStopped(prog[i], carry, x);
          CarrySkip(prog, disp, i, carry, x);
        }
        hide Here, RulePasses, Kept;
      }
    }
  }

  lemma CarrySkip(prog: Program, disp: Program, i: nat, carry: Filter, x: Case)
    requires i < |prog| && Sound(prog, disp) && Shaped(carry) && LineShaped(prog[i]) && !Kept(prog[i], carry, x)
    ensures CarryRun(prog, disp, i, carry, x) == CarryRun(prog, disp, i + 1, carry, x)
  {
    hide And, Sound, Shaped, Kept;
  }

  lemma CarryOne(prog: Program, disp: Program, i: nat, carry: Filter, x: Case)
    requires i < |prog| && Sound(prog, disp) && Shaped(carry) && LineShaped(prog[i]) && Kept(prog[i], carry, x)
    ensures !prog[i].Leaves() ==>
              CarryRun(prog, disp, i, carry, x) == [prog[i].order.action] + CarryRun(prog, disp, i + 1, carry, x)
  {
    hide And, Sound, Shaped, Kept;
  }

  lemma StopsLeaves(r: FwRule)
    ensures Stops(r) ==> r.Leaves()
  {
  }

  lemma NotStopped(r: FwRule, carry: Filter, x: Case)
    requires LineShaped(r) && Fixed(carry) && x.p.Valid() && Passes(carry, x.p, x.dir) && !Drops(r, carry, x.iface)
    requires !RulePasses(r.filter, x.p, x.dir)
    ensures !Stops(r)
  {
    hide Passes, Drops, SidesValid, ProtoShaped, IsNone, RulePasses, IsTerm;
    if Stops(r) {
      StopPasses(r, carry, x);
      assert false;
    }
  }

  /** A line that the packet matches: its part of the list ends the run, unless it is an action without flow. */
  lemma HereInside(prog: Program, disp: Program, i: nat, carry: Filter, x: Case)
    requires i < |prog| && Sound(prog, disp) && Complete(prog, disp, x.dir) && Fixed(carry) && x.p.Valid()
             && Passes(carry, x.p, x.dir)
    requires LineShaped(prog[i]) && Kept(prog[i], carry, x) && Shaped(And(carry, prog[i].filter))
    ensures var run := Run(Here(prog, disp, i, carry, x.iface), x);
            if prog[i].Leaves() then Ends(run) && run == CarryRun(prog, disp, i, carry, x)
            else run == [prog[i].order.action]
    decreases |prog| - i, 0
  {
    hide Passes, And, Drops, Stops, SidesValid, ProtoShaped, IsNone, Sound, RulePasses, Flatten, FlatDispatcher,
         CarryDispatch;
    SoundLine(prog, disp, i);
    SoundFlows(prog, disp);
    Jump(prog, disp, i, carry, x);
    CarryEnds(prog, disp, i, carry, x);
    var both := And(carry, prog[i].filter);
    match prog[i].order
    case Do(a) => RunFirst(FlatRule(both, a), [], x);
    case Skip(Dispatcher) => DispatcherInside(disp, 0, both, x);
    case Skip(Line(n)) => ListInside(prog, disp, Entry(prog, n), both, x);
  }

  lemma HereOutside(prog: Program, disp: Program, i: nat, carry: Filter, x: Case)
    requires i < |prog| && Sound(prog, disp) && Shaped(carry) && x.p.Valid() && LineShaped(prog[i])
             && Shaped(And(carry, prog[i].filter))
    requires !RulePasses(prog[i].filter, x.p, x.dir)
    ensures Run(Here(prog, disp, i, carry, x.iface), x) == []
  {
    hide Passes, And, Drops, Stops, SidesValid, ProtoShaped, IsNone, Sound, RulePasses, Flatten, FlatDispatcher;
    SoundLine(prog, disp, i);
    AndPasses(carry, prog[i].filter, x.p, x.dir);
    var both := And(carry, prog[i].filter);
    match prog[i].order
    case Do(a) => RunFirst(FlatRule(both, a), [], x);
    case Skip(Dispatcher) => DispatcherOutside(disp, 0, both, x);
    case Skip(Line(n)) => ListOutside(prog, disp, Entry(prog, n), both, x);
  }

  // ----- left out lines ---------------------------------------------------------------------

  /** A line that a packet of the way matches is left out only for segments without their header. */
  lemma KeptUnlessHidden(r: FwRule, carry: Filter, x: Case)
    requires LineShaped(r) && Shaped(carry) && x.p.Valid() && Passes(carry, x.p, x.dir) && Concerns(r, x)
             && !Hidden(x.p.segment)
    ensures Kept(r, carry, x)
  {
    hide Passes, And, SidesValid, ProtoShaped, IsNone, Compatible;
    AndPasses(carry, r.filter, x.p, x.dir);
    AndShaped(carry, r.filter);
    if r.filter.Some? {
      CompatibleCommon(carry, r.filter.value, x.p, x.dir);
    }
    if IsNone(And(carry, r.filter)) {
      NoneEmpty(And(carry, r.filter), x.p, x.dir);
      assert false;
    }
  }

  lemma KeptConcerns(r: FwRule, carry: Filter, x: Case)
    requires LineShaped(r) && Shaped(carry) && Kept(r, carry, x)
    ensures Concerns(r, x)
  {
    hide Passes, And, SidesValid, ProtoShaped, IsNone, Compatible;
  }

  lemma {:induction false} DispatchSame(disp: Program, j: nat, carry: Filter, x: Case)
    requires j <= |disp| && Shaped(carry) && x.p.Valid() && Passes(carry, x.p, x.dir) && !Hidden(x.p.segment)
    requires forall i | 0 <= i < |disp| :: LineShaped(disp[i]) && disp[i].order.Do?
    ensures CarryDispatch(disp, j, carry, x) == Dispatch(disp, j, x)
    decreases |disp| - j
  {
    hide Passes, SidesValid, ProtoShaped, Kept, Concerns;
    if j < |disp| {
      DispatchSame(disp, j + 1, carry, x);
      if Concerns(disp[j], x) {
        KeptUnlessHidden(disp[j], carry, x);
      } else if Kept(disp[j], carry, x) {
        KeptConcerns(disp[j], carry, x);
      }
    }
  }

  lemma {:induction false} CarrySame(prog: Program, disp: Program, i: nat, carry: Filter, x: Case)
    requires i <= |prog| && Sound(prog, disp) && Shaped(carry) && x.p.Valid() && Passes(carry, x.p, x.dir)
             && !Hidden(x.p.segment)
    ensures CarryRun(prog, disp, i, carry, x) == Interpret(prog, disp, i, x)
    decreases |prog| - i
  {
    hide Passes, And, SidesValid, ProtoShaped, Kept, Concerns, Sound;
    if i < |prog| {
      SoundLine(prog, disp, i);
      if Concerns(prog[i], x) {
        KeptUnlessHidden(prog[i], carry, x);
        AndShaped(carry, prog[i].filter);
        BothPass(prog[i], carry, x);
        match prog[i].order
        case Do(a) => CarrySame(prog, disp, i + 1, carry, x);
        case Skip(Dispatcher) => DispatchSame(disp, 0, And(carry, prog[i].filter), x);
        case Skip(Line(n)) => CarrySame(prog, disp, Entry(prog, n), And(carry, prog[i].filter), x);
      } else {
        if Kept(prog[i], carry, x) {
          KeptConcerns(prog[i], carry, x);
        }
        CarrySame(prog, disp, i + 1, carry, x);
      }
    }
  }

  lemma BothPass(r: FwRule, carry: Filter, x: Case)
    requires LineShaped(r) && Shaped(carry) && x.p.Valid() && Passes(carry, x.p, x.dir) && Concerns(r, x)
    ensures Passes(And(carry, r.filter), x.p, x.dir)
  {
    hide Passes, SidesValid, ProtoShaped;
    AndPasses(carry, r.filter, x.p, x.dir);
  }

  // ----- the theorem ------------------------------------------------------------------------

  /** A program that is unwound for the packets of a start filter. */
  ghost predicate Setting(prog: Program, disp: Program, start: Filter, x: Case) {
    Sound(prog, disp) && Complete(prog, disp, x.dir) && Fixed(start) && Passes(start, x.p, x.dir)
  }

  ghost predicate Preserved(prog: Program, disp: Program, start: Filter, x: Case)
    requires Setting(prog, disp, start, x)
  {
    Run(Flatten(prog, disp, 0, start, x.iface), x) == Interpret(prog, disp, 0, x)
  }

  /** Unwinding keeps the actions of every packet of the start filter, except for segments without their header. */
  lemma UnwindPreserves(prog: Program, disp: Program, start: Filter, x: Case)
    requires Setting(prog, disp, start, x) && x.p.Valid() && !Hidden(x.p.segment)
    ensures Preserved(prog, disp, start, x)
  {
    ListInside(prog, disp, 0, start, x);
    CarrySame(prog, disp, 0, start, x);
  }

  // ----- the exception ----------------------------------------------------------------------

  function PortFilter(protocol: nat, port: nat): Filter {
    Filter(None, None, None, None, Some(Proto(Some([(protocol, protocol)]), Some([(port, port)]), None, None)), None)
  }

  /** A jump for one port to a line for another port, then to the dispatcher. */
  function TwoPorts(protocol: nat): Program {
    [FwRule(1, Some(PortFilter(protocol, 0)), Skip(Line(2)), {}),
     FwRule(2, Some(PortFilter(protocol, 1)), Do(Flow(1, None)), {}),
     FwRule(2, None, Skip(Dispatcher), {})]
  }

  function OneFlow(): Program {
    [FwRule(0, None, Do(Flow(2, None)), {})]
  }

  function StartOf(acl: nat): Filter {
    Filter(Some(acl), None, None, None, None, Some(0))
  }

  lemma PortShaped(protocol: nat, port: nat)
    requires protocol in {TCP, UDP, ICMP, ICMPV6}
    ensures Shaped(PortFilter(protocol, port))
  {
    forall v: nat { SingleRange((protocol, protocol), v); }
  }

  lemma PortPasses(p: Packet, port: nat)
    requires Hidden(p.segment)
    ensures Passes(PortFilter(p.segment.protocol, port), p, 0)
  {
    SingleRange((p.segment.protocol, p.segment.protocol), p.segment.protocol);
  }

  lemma TwoPortsEntry(protocol: nat)
    ensures Entry(TwoPorts(protocol), 2) == 1 && Forward(TwoPorts(protocol))
  {
    hide PortFilter;
    var prog := TwoPorts(protocol);
    assert |prog| == 3 && prog[0].no == 1 && prog[1].no == 2 && prog[0].order == Skip(Line(2));
    assert Entry(prog, 2) == 1;
  }

  lemma TwoPortsLines(protocol: nat)
    requires protocol in {TCP, UDP, ICMP, ICMPV6}
    ensures forall i | 0 <= i < |TwoPorts(protocol)| :: LineShaped(TwoPorts(protocol)[i])
  {
    PortShaped(protocol, 0);
    PortShaped(protocol, 1);
    hide Shaped, PortFilter;
  }

  lemma TwoPortsComplete(protocol: nat)
    ensures Complete(TwoPorts(protocol), OneFlow(), 0) && LineShaped(OneFlow()[0])
  {
    hide PortFilter;
    assert CatchAll(OneFlow()[0], 0);
  }

  lemma TwoPortsSound(protocol: nat)
    requires protocol in {TCP, UDP, ICMP, ICMPV6}
    ensures Sound(TwoPorts(protocol), OneFlow()) && Complete(TwoPorts(protocol), OneFlow(), 0)
            && Entry(TwoPorts(protocol), 2) == 1
  {
    hide Entry, Forward, LineShaped, Complete, TwoPorts;
    TwoPortsEntry(protocol);
    TwoPortsLines(protocol);
    TwoPortsComplete(protocol);
  }

  /** The program interprets a segment without header as matching both ports. */
  lemma TwoPortsMeaning(p: Packet)
    requires p.Valid() && Hidden(p.segment)
    ensures Sound(TwoPorts(p.segment.protocol), OneFlow())
    ensures Interpret(TwoPorts(p.segment.protocol), OneFlow(), 0, Case(p, 0, 0)) == [Flow(1, None)]
  {
    var t, x := p.segment.protocol, Case(p, 0, 0);
    TwoPortsSound(t);
    PortPasses(p, 0);
    PortPasses(p, 1);
    var prog, disp := TwoPorts(t), OneFlow();
    hide Passes, PortFilter, Sound, Entry, Hidden;
    assert Concerns(prog[0], x) && Concerns(prog[1], x);
    assert Interpret(prog, disp, 1, x) == [Flow(1, None)];
  }

  /** On the way to the line for the other port the filter is empty. */
  lemma TwoPortsCarry(p: Packet)
    requires p.Valid() && Hidden(p.segment)
    ensures Sound(TwoPorts(p.segment.protocol), OneFlow()) && Shaped(StartOf(p.acl))
    ensures CarryRun(TwoPorts(p.segment.protocol), OneFlow(), 0, StartOf(p.acl), Case(p, 0, 0)) == [Flow(2, None)]
  {
    var t, x, start := p.segment.protocol, Case(p, 0, 0), StartOf(p.acl);
    TwoPortsSound(t);
    PortShaped(t, 0);
    PortShaped(t, 1);
    PortPasses(p, 0);
    var prog, disp := TwoPorts(t), OneFlow();
    var both := And(start, prog[0].filter);
    AndShaped(start, prog[0].filter);
    assert Kept(prog[0], start, x);
    assert AndRange((0, 0), [(1, 1)]) == [];
    assert AndRanges([(0, 0)], [(1, 1)]) == [];
    assert IsNone(And(both, prog[1].filter));
    assert Kept(prog[2], both, x) && Kept(disp[0], both, x);
    assert And(both, None) == both;
    hide Passes, Sound, Entry, Hidden, Shaped, And, IsNone, Kept;
    assert CarryDispatch(disp, 0, both, x) == [Flow(2, None)];
    assert CarryRun(prog, disp, 2, both, x) == [Flow(2, None)];
    NotKept(prog[1], both, x);
    assert CarryRun(prog, disp, 1, both, x) == [Flow(2, None)];
  }

  lemma NotKept(r: FwRule, carry: Filter, x: Case)
    requires LineShaped(r) && Shaped(carry) && IsNone(And(carry, r.filter))
    ensures !Kept(r, carry, x)
  {
  }

  /** The flat list has no rule for both ports, so the segment runs into the dispatcher. */
  lemma TwoPortsFlat(p: Packet)
    requires p.Valid() && Hidden(p.segment)
    ensures Sound(TwoPorts(p.segment.protocol), OneFlow()) && Shaped(StartOf(p.acl)) && Passes(StartOf(p.acl), p, 0)
    ensures Run(Flatten(TwoPorts(p.segment.protocol), OneFlow(), 0, StartOf(p.acl), 0),
                Case(p, 0, 0)) == [Flow(2, None)]
  {
    var prog, disp, start, x := TwoPorts(p.segment.protocol), OneFlow(), StartOf(p.acl), Case(p, 0, 0);
    TwoPortsSound(p.segment.protocol);
    TwoPortsCarry(p);
    assert Passes(start, p, 0);
    hide TwoPorts, Passes, CarryRun, Run, Sound;
    ListInside(prog, disp, 0, start, x);
  }

  ghost predicate AlwaysPreserved(p: Packet) {
    forall prog: Program, disp: Program, start: Filter, x: Case | x.p == p
    && Setting(prog, disp, start, x) :: Preserved(prog, disp, start, x)
  }

  /** Unwinding keeps the actions of a packet for all programs exactly when the packet is not such a segment. */
  lemma UnwindExact(p: Packet)
    requires p.Valid()
    ensures AlwaysPreserved(p) <==> !Hidden(p.segment)
  {
    hide Setting, Preserved, TwoPorts, OneFlow, StartOf;
    if Hidden(p.segment) {
      var prog, disp, start, x := TwoPorts(p.segment.protocol), OneFlow(), StartOf(p.acl), Case(p, 0, 0);
      TwoPortsLost(p);
      assert Setting(prog, disp, start, x) && !Preserved(prog, disp, start, x);
    } else {
      forall prog: Program, disp: Program, start: Filter, x: Case | x.p == p && Setting(prog, disp, start, x)
        ensures Preserved(prog, disp, start, x)
      {
        UnwindPreserves(prog, disp, start, x);
      }
    }
  }

  lemma TwoPortsLost(p: Packet)
    requires p.Valid() && Hidden(p.segment)
    ensures Setting(TwoPorts(p.segment.protocol), OneFlow(), StartOf(p.acl), Case(p, 0, 0))
    ensures !Preserved(TwoPorts(p.segment.protocol), OneFlow(), StartOf(p.acl), Case(p, 0, 0))
  {
    TwoPortsSound(p.segment.protocol);
    TwoPortsMeaning(p);
    TwoPortsFlat(p);
  }
}
