/**
  Flattening a firewall program (`unwind`): lines with `skipto` are replaced by the lines they lead
  to, with the conjunction of all filters on the way.
*/
module Unwind {
  import opened Base
  import opened Actions
  import opened TransportFilter
  import opened Rules
  import opened Filters

  datatype Target = Line(no: nat) | Dispatcher

  datatype Order = Skip(to: Target) | Do(action: Action)

  /** A line of the firewall or of the dispatcher; `via` lists interfaces, none for all. */
  datatype FwRule = FwRule(no: nat, filter: Option<Filter>, order: Order, via: set<nat>) {
    /** The line ends the search for the packets that match it. */
    predicate Leaves() {
      order.Skip? || order.action.Flow?
    }
  }

  /** A rule of the flat list. */
  datatype FlatRule = FlatRule(filter: Filter, action: Action)

  type Program = seq<FwRule>

  // ----- programs ---------------------------------------------------------------------------

  /** The position of the first line with number n or more. */
  function Entry(prog: Program, n: nat): (k: nat)
    ensures k <= |prog| && (forall j | 0 <= j < k :: prog[j].no < n) && (k < |prog| ==> prog[k].no >= n)
  {
    EntryFrom(prog, n, 0)
  }

  function EntryFrom(prog: Program, n: nat, i: nat): (k: nat)
    requires i <= |prog| && forall j | 0 <= j < i :: prog[j].no < n
    ensures i <= k <= |prog| && (forall j | 0 <= j < k :: prog[j].no < n) && (k < |prog| ==> prog[k].no >= n)
    decreases |prog| - i
  {
    if i == |prog| || prog[i].no >= n then i else EntryFrom(prog, n, i + 1)
  }

  ghost predicate LineShaped(r: FwRule) {
    r.filter.Some? ==> Shaped(r.filter.value)
  }

  /** Jumps lead forward, to a line of the program. */
  ghost predicate Forward(prog: Program) {
    forall i | 0 <= i < |prog| && prog[i].order.Skip?
    && prog[i].order.to.Line? :: i < Entry(prog, prog[i].order.to.no) < |prog|
  }

  ghost predicate Sound(prog: Program, disp: Program) {
    && Forward(prog) && (forall i | 0 <= i < |prog| :: LineShaped(prog[i]))
    && (forall i | 0 <= i < |disp| :: LineShaped(disp[i]) && disp[i].order.Do? && disp[i].order.action.Flow?)
  }

  /** The line does not concern the interface. */
  predicate Elsewhere(r: FwRule, iface: nat) {
    r.via != {} && iface !in r.via
  }

  /** The line is left out under the filter of the way to it (`skip_rule`, `is_none`). */
  predicate Drops(r: FwRule, carry: Filter, iface: nat)
    requires LineShaped(r) && Shaped(carry)
  {
    || (r.filter.Some? && !Compatible(carry, r.filter.value)) || Elsewhere(r, iface)
    || IsNone(And(carry, r.filter))
  }

  /** No line after this one can matter. */
  predicate Stops(r: FwRule) {
    IsTerm(r.filter) && r.Leaves()
  }

  // ----- the flat list ----------------------------------------------------------------------

  /** `unwind_dispatcher` */
  function FlatDispatcher(disp: Program, j: nat, carry: Filter, iface: nat): seq<FlatRule>
    requires j <= |disp| && Shaped(carry) && forall i | 0 <= i < |disp| :: LineShaped(disp[i]) && disp[i].order.Do?
    decreases |disp| - j
  {
    if j == |disp| then []
    else if Drops(disp[j], carry, iface) then FlatDispatcher(disp, j + 1, carry, iface)
    else
      [FlatRule(And(carry, disp[j].filter), disp[j].order.action)]
      + if Stops(disp[j]) then [] else FlatDispatcher(disp, j + 1, carry, iface)
  }

  /** `unwind` from position i on. */
  function Flatten(prog: Program, disp: Program, i: nat, carry: Filter, iface: nat): seq<FlatRule>
    requires i <= |prog| && Sound(prog, disp) && Shaped(carry)
    decreases |prog| - i
  {
    if i == |prog| then []
    else if Drops(prog[i], carry, iface) then Flatten(prog, disp, i + 1, carry, iface)
    else
      AndShaped(carry, prog[i].filter);
      Here(prog, disp, i, carry, iface) + if Stops(prog[i]) then [] else Flatten(prog, disp, i + 1, carry, iface)
  }

  /** What one line contributes. */
  function Here(prog: Program, disp: Program, i: nat, carry: Filter, iface: nat): seq<FlatRule>
    requires i < |prog| && Sound(prog, disp) && Shaped(carry) && Shaped(And(carry, prog[i].filter))
    decreases |prog| - i, 0
  {
    var both := And(carry, prog[i].filter);
    match prog[i].order
    case Do(a) => [FlatRule(both, a)]
    case Skip(Dispatcher) => FlatDispatcher(disp, 0, both, iface)
    case Skip(Line(n)) => Flatten(prog, disp, Entry(prog, n), both, iface)
  }

  /** How deep the jumps nest. */
  function Depth(prog: Program, disp: Program, i: nat, carry: Filter, iface: nat): nat
    requires i <= |prog| && Sound(prog, disp) && Shaped(carry)
    decreases |prog| - i
  {
    if i == |prog| then 0
    else if Drops(prog[i], carry, iface) then Depth(prog, disp, i + 1, carry, iface)
    else
      AndShaped(carry, prog[i].filter);
      var here := if prog[i].order.Skip? && prog[i].order.to.Line?
                  then 1 + Depth(prog, disp, Entry(prog, prog[i].order.to.no), And(carry, prog[i].filter), iface)
                      else 0;
      if Stops(prog[i]) then here
      else
        var rest := Depth(prog, disp, i + 1, carry, iface);
        if here > rest then here else rest
  }

  const DEPTH_LIMIT: nat := 1000

  lemma FlattenEnd(prog: Program, disp: Program, carry: Filter, iface: nat)
    requires Sound(prog, disp) && Shaped(carry)
    ensures Flatten(prog, disp, |prog|, carry, iface) == [] && Depth(prog, disp, |prog|, carry, iface) == 0
  {
  }

  lemma FlattenSkip(prog: Program, disp: Program, i: nat, carry: Filter, iface: nat)
    requires i < |prog| && Sound(prog, disp) && Shaped(carry) && LineShaped(prog[i]) && Drops(prog[i], carry, iface)
    ensures Flatten(prog, disp, i, carry, iface) == Flatten(prog, disp, i + 1, carry, iface)
    ensures Depth(prog, disp, i, carry, iface) == Depth(prog, disp, i + 1, carry, iface)
  {
    hide Here, Drops, And, Sound, Shaped;
  }

  lemma FlattenStep(prog: Program, disp: Program, i: nat, carry: Filter, iface: nat, was: seq<FlatRule>)
    requires i < |prog| && Sound(prog, disp) && Shaped(carry) && Shaped(And(carry, prog[i].filter))
             && LineShaped(prog[i])
    requires !Drops(prog[i], carry, iface)
    ensures was + Flatten(prog, disp, i, carry, iface)
         == was + Here(prog, disp, i, carry, iface) + if Stops(prog[i]) then []
                                                      else Flatten(prog, disp, i + 1, carry, iface)
  {
    hide Here, Drops, Stops, And, Sound, Shaped;
  }

  /** The nesting is within the limit exactly when it is for the jump of the line and for the lines behind it. */
  lemma DepthStep(prog: Program, disp: Program, i: nat, carry: Filter, iface: nat, limit: int)
    requires i < |prog| && Sound(prog, disp) && Shaped(carry) && Shaped(And(carry, prog[i].filter))
             && LineShaped(prog[i])
    requires !Drops(prog[i], carry, iface) && limit >= 0
    ensures Depth(prog, disp, i, carry, iface) <= limit
            <==> (prog[i].order.Skip? && prog[i].order.to.Line? ==>
                    1 + Depth(prog, disp, Entry(prog, prog[i].order.to.no), And(carry, prog[i].filter), iface) <= limit)
                 && (!Stops(prog[i]) ==> Depth(prog, disp, i + 1, carry, iface) <= limit)
  {
    hide Drops, Stops, And, Sound, Shaped;
  }

  /** The flat rules that are being gathered. */
  class Unwinder {
    var rules: seq<FlatRule>

    constructor ()
      ensures rules == []
    {
      rules := [];
    }

    method GatherDispatcher(disp: Program, carry: Filter, iface: nat)
      requires Shaped(carry) && forall i | 0 <= i < |disp| :: LineShaped(disp[i]) && disp[i].order.Do?
      modifies this`rules
      ensures rules == old(rules) + FlatDispatcher(disp, 0, carry, iface)
    {
      hide Drops, Stops, And, SidesValid, ProtoShaped;
      var j := 0;
      while j < |disp|
        invariant j <= |disp|
                  && rules + FlatDispatcher(disp, j, carry, iface) == old(rules) + FlatDispatcher(disp, 0, carry, iface)
      {
        if !Drops(disp[j], carry, iface) {
          ghost var was := rules;
          var one := FlatRule(And(carry, disp[j].filter), disp[j].order.action);
          rules := rules + [one];
          if Stops(disp[j]) {
            assert FlatDispatcher(disp, j, carry, iface) == [one];
            return;
          }
          assert was + ([one] + FlatDispatcher(disp, j + 1, carry, iface)) == rules + FlatDispatcher(disp, j + 1, carry,
                iface);
        }
        j := j + 1;
      }
    }

    /** False stands for the error that the jumps nest too deep. */
    method Gather(prog: Program, disp: Program, start: nat, carry: Filter, iface: nat, depth: nat) returns (ok: bool)
      requires start <= |prog| && Sound(prog, disp) && Shaped(carry) && depth <= 1001
      modifies this`rules
      ensures ok <==> depth + Depth(prog, disp, start, carry, iface) <= 1000
      ensures ok ==> rules == old(rules) + Flatten(prog, disp, start, carry, iface)
      decreases DEPTH_LIMIT + 1 - depth
    {
      hide Drops, Stops, And, SidesValid, ProtoShaped, Sound, Flatten, Depth, FlatDispatcher;
      if depth > DEPTH_LIMIT {
        return false;
      }
      var i := start;
      while i < |prog|
        invariant start <= i <= |prog|
        invariant Depth(prog, disp, start, carry, iface) <= DEPTH_LIMIT - depth
                  <==> Depth(prog, disp, i, carry, iface) <= DEPTH_LIMIT - depth
        invariant rules + Flatten(prog, disp, i, carry, iface) == old(rules) + Flatten(prog, disp, start, carry, iface)
      {
        SoundLine(prog, disp, i);
        if Drops(prog[i], carry, iface) {
          FlattenSkip(prog, disp, i, carry, iface);
        } else {
          AndShaped(carry, prog[i].filter);
          var both := And(carry, prog[i].filter);
          FlattenStep(prog, disp, i, carry, iface, rules);
          DepthStep(prog, disp, i, carry, iface, DEPTH_LIMIT - depth);
          ghost var was := rules;
          match prog[i].order {
            case Do(a) =>
              rules := rules + [FlatRule(both, a)];
            case Skip(Dispatcher) =>
              GatherDispatcher(disp, both, iface);
            case Skip(Line(n)) =>
              ok := Gather(prog, disp, Entry(prog, n), both, iface, depth + 1);
              if !ok {
                return false;
              }
          }
          assert rules == was + Here(prog, disp, i, carry, iface);
          if Stops(prog[i]) {
            return true;
          }
        }
        i := i + 1;
      }
      FlattenEnd(prog, disp, carry, iface);
      return true;
    }
  }

  lemma SoundLine(prog: Program, disp: Program, i: nat)
    requires Sound(prog, disp) && i < |prog|
    ensures LineShaped(prog[i])
            && (prog[i].order.Skip? && prog[i].order.to.Line? ==> i < Entry(prog, prog[i].order.to.no) < |prog|)
    ensures forall j | 0 <= j < |disp| :: LineShaped(disp[j]) && disp[j].order.Do?
  {
  }
}
