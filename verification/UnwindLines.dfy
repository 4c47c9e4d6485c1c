/** Which lines of a program are left out of the flat list, which lines it holds, and how deep its jumps nest. */
module UnwindLines {
  import opened Base
  import opened Nets
  import opened TreeGaps
  import opened Flat
  import opened Actions
  import opened TransportFilter
  import opened Rules
  import opened Filters
  import opened Unwind

  // ----- lines that are left out ------------------------------------------------------------

  /** Some number has both. */
  ghost predicate ShareId(a: Option<int>, b: Option<int>) {
    exists n: nat :: IdIs(a, n) && IdIs(b, n)
  }

  /** Some address is on both sides. */
  ghost predicate ShareSide(a: Option<seq<Network>>, b: Option<seq<Network>>) {
    exists v6: bool, x: Bytes :: |x| == Width(v6) && SideIs(a, v6, x) && SideIs(b, v6, x)
  }

  ghost predicate ShareValue(a: Option<Ranges>, b: Option<Ranges>) {
    exists v: nat :: Allows(a, v) && Allows(b, v)
  }

  ghost function KindIn(f: Filter): Option<Ranges> {
    if f.proto.None? then None else f.proto.value.kind
  }

  ghost function FirstIn(f: Filter): Option<Ranges> {
    if f.proto.None? then None else f.proto.value.prm1
  }

  ghost function SecondIn(f: Filter): Option<Ranges> {
    if f.proto.None? then None else f.proto.value.prm2
  }

  /** Acl, direction, addresses, protocols and the first two parameters of the filters have values in common. */
  ghost predicate Shares(a: Filter, b: Filter) {
    && ShareId(a.acl, b.acl) && ShareId(a.dir, b.dir)
    && ShareSide(a.source, b.source) && ShareSide(a.destination, b.destination)
    && ShareValue(KindIn(a), KindIn(b)) && ShareValue(FirstIn(a), FirstIn(b)) && ShareValue(SecondIn(a), SecondIn(b))
  }

  /** A line without filter. */
  ghost function OrOpen(f: Option<Filter>): Filter {
    if f.Some? then f.value else Filter(None, None, None, None, None, None)
  }

  /** The line is for other interfaces, or no value is left for one of the parts. */
  ghost predicate LeftOut(r: FwRule, carry: Filter, iface: nat) {
    (r.via != {} && iface !in r.via) || !Shares(carry, OrOpen(r.filter))
  }

  /** Ranges do not end before they begin. */
  ghost predicate ProperRanges(rs: Option<Ranges>) {
    rs.Some? ==> forall i | 0 <= i < |rs.value| :: rs.value[i].0 <= rs.value[i].1
  }

  ghost predicate Proper(f: Filter) {
    Shaped(f) && ProperRanges(KindIn(f)) && ProperRanges(FirstIn(f)) && ProperRanges(SecondIn(f))
  }

  lemma IdShared(a: Option<int>, b: Option<int>)
    ensures ShareId(a, b) <==> !(AndIds(a, b).Some? && AndIds(a, b).value < 0)
  {
    if AndIds(a, b).None? {
      assert IdIs(a, 0) && IdIs(b, 0);
    } else if AndIds(a, b).value >= 0 {
      var n: nat := AndIds(a, b).value;
      assert IdIs(a, n) && IdIs(b, n);
    }
  }

  lemma SideShared(a: Option<seq<Network>>, b: Option<seq<Network>>)
    requires (a.Some? ==> NetworksValid(a.value)) && (b.Some? ==> NetworksValid(b.value))
    ensures ShareSide(a, b) <==> AndSide(a, b) != Some([])
  {
    hide Covers, AndNetworks;
    forall v6: bool, x: Bytes | |x| == Width(v6)
      ensures SideIs(AndSide(a, b), v6, x) <==> SideIs(a, v6, x) && SideIs(b, v6, x)
    {
      if a.Some? && b.Some? {
        NetworksBoth(a.value, b.value, v6, x);
      }
    }
    if a.Some? && b.Some? {
      NetworksValidBoth(a.value, b.value);
    }
    SideOpen(AndSide(a, b));
    hide AndSide, SideIs;
  }

  /** A side has an address unless its list is empty. */
  lemma SideOpen(a: Option<seq<Network>>)
    requires a.Some? ==> NetworksValid(a.value)
    ensures a != Some([]) <==> exists v6: bool, x: Bytes :: |x| == Width(v6) && SideIs(a, v6, x)
  {
    hide Covers;
    if a.None? {
      var x: Bytes := seq(Width(false), _ => 0);
      assert |x| == Width(false) && SideIs(a, false, x);
    } else if a.value != [] {
      var n := a.value[0];
      CoversItself(n.net);
      assert |n.net.addr| == Width(n.v6) && SideIs(a, n.v6, n.net.addr);
    }
  }

  lemma {:induction false} AndRangeProper(r: (nat, nat), list: Ranges)
    ensures ProperRanges(Some(AndRange(r, list)))
  {
    if list != [] {
      AndRangeProper(r, list[1..]);
    }
  }

  lemma {:induction false} AndRangesProper(a: Ranges, b: Ranges)
    ensures ProperRanges(Some(AndRanges(a, b)))
  {
    hide AndRange;
    if a != [] {
      AndRangesProper(a[1..], b);
      AndRangeProper(a[0], b);
    }
  }

  lemma AndPrmProper(a: Option<Ranges>, b: Option<Ranges>)
    requires ProperRanges(a) && ProperRanges(b)
    ensures ProperRanges(AndPrm(a, b))
  {
    hide AndRanges;
    if a.Some? && b.Some? {
      AndRangesProper(a.value, b.value);
    }
  }

  lemma ValueShared(a: Option<Ranges>, b: Option<Ranges>)
    requires ProperRanges(a) && ProperRanges(b)
    ensures ShareValue(a, b) <==> AndPrm(a, b) != Some([])
  {
    hide AndRanges, InRanges;
    forall v: nat
      ensures Allows(AndPrm(a, b), v) <==> Allows(a, v) && Allows(b, v)
    {
      if a.Some? && b.Some? {
        RangesBoth(a.value, b.value, v);
      }
    }
    AndPrmProper(a, b);
    ValueOpen(AndPrm(a, b));
    hide AndPrm, Allows, ProperRanges;
  }

  lemma ValueOpen(a: Option<Ranges>)
    requires ProperRanges(a)
    ensures a != Some([]) <==> exists v: nat :: Allows(a, v)
  {
    if a.None? {
      assert Allows(a, 0);
    } else if a.value != [] {
      assert InRange(a.value[0], a.value[0].0);
      assert Allows(a, a.value[0].0);
    }
  }

  lemma AndParts(a: Filter, b: Option<Filter>)
    requires SidesValid(a) && (b.Some? ==> SidesValid(b.value))
    ensures SidesValid(OrOpen(b))
    ensures var r, f := And(a, b), OrOpen(b);
            && r.acl == AndIds(a.acl, f.acl) && r.dir == AndIds(a.dir, f.dir)
            && r.source == AndSide(a.source, f.source) && r.destination == AndSide(a.destination, f.destination)
            && KindIn(r) == AndPrm(KindIn(a), KindIn(f)) && FirstIn(r) == AndPrm(FirstIn(a), FirstIn(f))
            && SecondIn(r) == AndPrm(SecondIn(a), SecondIn(f))
  {
    hide AndNetworks, AndRanges, NetworksValid;
  }

  lemma NoneParts(f: Filter)
    ensures IsNone(f)
            <==> (f.acl.Some? && f.acl.value < 0) || (f.dir.Some? && f.dir.value < 0) || f.source == Some([])
                 || f.destination == Some([]) || KindIn(f) == Some([]) || FirstIn(f) == Some([])
                 || SecondIn(f) == Some([])
  {
  }

  lemma ProperOpen(f: Option<Filter>)
    requires f.Some? ==> Proper(f.value)
    ensures Proper(OrOpen(f)) && (f.Some? ==> Shaped(f.value))
  {
    hide InRanges, NetworksValid;
  }

  lemma ProperParts(f: Filter)
    requires Proper(f)
    ensures Shaped(f) && SidesValid(f)
    ensures ProperRanges(KindIn(f)) && ProperRanges(FirstIn(f)) && ProperRanges(SecondIn(f))
    ensures f.source.Some? ==> NetworksValid(f.source.value)
    ensures f.destination.Some? ==> NetworksValid(f.destination.value)
  {
    hide InRanges, NetworksValid, ProperRanges;
  }

  /** The conjunction of two filters is empty exactly if they have no values of one part in common. */
  lemma NoneExact(a: Filter, b: Option<Filter>)
    requires Proper(a) && (b.Some? ==> Proper(b.value))
    ensures SidesValid(a) && (b.Some? ==> SidesValid(b.value))
    ensures IsNone(And(a, b)) <==> !Shares(a, OrOpen(b))
  {
    hide *;
    var f := OrOpen(b);
    ProperOpen(b);
    ProperParts(a);
    ProperParts(f);
    if b.Some? {
      ProperParts(b.value);
    }
    AndParts(a, b);
    NoneParts(And(a, b));
    IdShared(a.acl, f.acl);
    IdShared(a.dir, f.dir);
    SideShared(a.source, f.source);
    SideShared(a.destination, f.destination);
    ValueShared(KindIn(a), KindIn(f));
    ValueShared(FirstIn(a), FirstIn(f));
    ValueShared(SecondIn(a), SecondIn(f));
    SharesIs(a, f);
  }

  lemma SharesIs(a: Filter, b: Filter)
    ensures Shares(a, b)
            <==> ShareId(a.acl, b.acl) && ShareId(a.dir, b.dir) && ShareSide(a.source, b.source)
                 && ShareSide(a.destination, b.destination) && ShareValue(KindIn(a), KindIn(b))
                 && ShareValue(FirstIn(a), FirstIn(b)) && ShareValue(SecondIn(a), SecondIn(b))
  {
    hide ShareId, ShareSide, ShareValue, KindIn, FirstIn, SecondIn;
  }

  /** Incompatible filters have no addresses in common. */
  lemma SharedMeet(a: Option<seq<Network>>, b: Option<seq<Network>>)
    requires (a.Some? ==> NetworksValid(a.value)) && (b.Some? ==> NetworksValid(b.value)) && ShareSide(a, b)
    ensures SidesMeet(a, b)
  {
    hide SideIs, SidesMeet;
    var v6: bool, x: Bytes :| |x| == Width(v6) && SideIs(a, v6, x) && SideIs(b, v6, x);
    SideCommon(a, b, v6, x);
  }

  /** A line is left out exactly if it is for other interfaces or no value is left for one of the parts. */
  lemma DropsExact(r: FwRule, carry: Filter, iface: nat)
    requires Proper(carry) && (r.filter.Some? ==> Proper(r.filter.value))
    ensures LineShaped(r) && Shaped(carry) && (Drops(r, carry, iface) <==> LeftOut(r, carry, iface))
  {
    NoneExact(carry, r.filter);
    ProperParts(carry);
    ProperOpen(r.filter);
    ProperParts(OrOpen(r.filter));
    hide Proper, Shaped, And, IsNone, ShareId, ShareSide, ShareValue, SidesMeet, NetworksValid;
    if r.filter.Some? && Shares(carry, OrOpen(r.filter)) {
      SharedMeet(carry.source, r.filter.value.source);
      SharedMeet(carry.destination, r.filter.value.destination);
    }
  }

  // ----- lines that are taken ---------------------------------------------------------------

  /** No line after this one is looked at: it restricts no addresses, flags or protocols, and ends the search. */
  ghost predicate Final(r: FwRule) {
    && (r.order.Skip? || r.order.action.Flow?)
    && (r.filter.Some? ==> r.filter.value.source.None? && r.filter.value.destination.None?
                           && r.filter.value.flags.None? && r.filter.value.proto.None?)
  }

  /** The line is not left out, and no final line before it is taken. */
  ghost predicate Taken(list: Program, start: nat, carry: Filter, iface: nat, i: nat) {
    && start <= i < |list| && !LeftOut(list[i], carry, iface)
    && forall j | start <= j < i :: LeftOut(list[j], carry, iface) || !Final(list[j])
  }

  ghost predicate ProperLines(list: Program) {
    forall i | 0 <= i < |list| :: list[i].filter.Some? ==> Proper(list[i].filter.value)
  }

  /** The positions are those of the lines that are taken, in their order. */
  ghost predicate TakenAt(list: Program, start: nat, carry: Filter, iface: nat, at: seq<nat>) {
    && (forall k, l | 0 <= k < l < |at| :: at[k] < at[l])
    && forall i: nat :: i in at <==> Taken(list, start, carry, iface, i)
  }

  lemma TakenFirst(list: Program, start: nat, carry: Filter, iface: nat, i: nat)
    requires start < |list|
    ensures Taken(list, start, carry, iface, i)
            <==> (!LeftOut(list[start], carry, iface) && i == start)
                 || ((LeftOut(list[start], carry, iface) || !Final(list[start]))
                     && Taken(list, start + 1, carry, iface, i))
  {
    hide LeftOut, Final;
  }

  lemma TakenNext(list: Program, start: nat, carry: Filter, iface: nat, more: seq<nat>) returns (at: seq<nat>)
    requires start < |list| && TakenAt(list, start + 1, carry, iface, more)
    ensures TakenAt(list, start, carry, iface, at)
    ensures at == if LeftOut(list[start], carry, iface) then more
                  else [start] + if Final(list[start]) then [] else more
  {
    at := if LeftOut(list[start], carry, iface) then more else [start] + if Final(list[start]) then [] else more;
    forall i: nat
      ensures i in at <==> Taken(list, start, carry, iface, i)
    {
      TakenFirst(list, start, carry, iface, i);
      assert i in more <==> Taken(list, start + 1, carry, iface, i);
    }
    hide LeftOut, Final;
    assert forall k | 0 <= k < |more| :: more[k] in more;
  }

  /** What the lines at the positions contribute, one after the other. */
  ghost function Joined(prog: Program, disp: Program, at: seq<nat>, carry: Filter, iface: nat): seq<FlatRule>
    requires Sound(prog, disp) && Shaped(carry) && forall k | 0 <= k < |at| :: at[k] < |prog|
  {
    if at == [] then []
    else
      AndShaped(carry, prog[at[0]].filter);
      Here(prog, disp, at[0], carry, iface) + Joined(prog, disp, at[1..], carry, iface)
  }

  lemma LineExact(list: Program, carry: Filter, iface: nat, i: nat)
    requires ProperLines(list) && Proper(carry) && i < |list|
    ensures Shaped(carry) && LineShaped(list[i])
    ensures Drops(list[i], carry, iface) <==> LeftOut(list[i], carry, iface)
    ensures Stops(list[i]) <==> Final(list[i])
  {
    DropsExact(list[i], carry, iface);
    hide Proper, Shaped, Drops, LeftOut;
  }

  /** The flat list joins what the taken lines contribute, in their order. */
  lemma {:induction false} FlatExact(prog: Program, disp: Program, start: nat, carry: Filter, iface: nat)
    returns (at: seq<nat>)
    requires start <= |prog| && Sound(prog, disp) && ProperLines(prog) && Proper(carry)
    ensures TakenAt(prog, start, carry, iface, at) && (forall k | 0 <= k < |at| :: at[k] < |prog|) && Shaped(carry)
    ensures Flatten(prog, disp, start, carry, iface) == Joined(prog, disp, at, carry, iface)
    decreases |prog| - start
  {
    ProperParts(carry);
    if start == |prog| {
      at := [];
    } else {
      var more := FlatExact(prog, disp, start + 1, carry, iface);
      LineExact(prog, carry, iface, start);
      at := TakenNext(prog, start, carry, iface, more);
      hide *;
      SoundLine(prog, disp, start);
      if Drops(prog[start], carry, iface) {
        FlattenSkip(prog, disp, start, carry, iface);
      } else {
        AndShaped(carry, prog[start].filter);
        FlattenStep(prog, disp, start, carry, iface, []);
        JoinedFirst(prog, disp, start, if Final(prog[start]) then [] else more, carry, iface);
      }
    }
  }

  lemma JoinedFirst(prog: Program, disp: Program, first: nat, rest: seq<nat>, carry: Filter, iface: nat)
    requires Sound(prog, disp) && Shaped(carry) && first < |prog| && (forall k | 0 <= k < |rest| :: rest[k] < |prog|)
    requires LineShaped(prog[first]) && Shaped(And(carry, prog[first].filter))
    ensures Joined(prog, disp, [first] + rest, carry, iface)
         == Here(prog, disp, first, carry, iface) + Joined(prog, disp, rest, carry, iface)
    ensures Joined(prog, disp, [], carry, iface) == []
  {
    hide Sound, Shaped, And, Here;
    assert ([first] + rest)[1..] == rest;
  }

  /** The rules are those of the lines at the positions, with the filter of the way. */
  ghost predicate RulesAt(disp: Program, at: seq<nat>, carry: Filter, list: seq<FlatRule>)
    requires Shaped(carry) && forall i | 0 <= i < |disp| :: LineShaped(disp[i]) && disp[i].order.Do?
  {
    && |list| == |at|
    && forall k | 0 <= k < |at| ::
      && at[k] < |disp| && LineShaped(disp[at[k]])
      && list[k] == FlatRule(And(carry, disp[at[k]].filter), disp[at[k]].order.action)
  }

  lemma RulesFirst(disp: Program, first: nat, at: seq<nat>, carry: Filter, list: seq<FlatRule>)
    requires Shaped(carry) && (forall i | 0 <= i < |disp| :: LineShaped(disp[i]) && disp[i].order.Do?)
    requires first < |disp| && RulesAt(disp, at, carry, list)
    ensures var f := FlatRule(And(carry, disp[first].filter), disp[first].order.action);
            RulesAt(disp, [first] + at, carry, [f] + list) && RulesAt(disp, [first], carry, [f])
  {
    hide And, Shaped;
  }

  /** The rules of the dispatcher are those of the taken lines, in their order. */
  lemma {:induction false} DispatcherExact(disp: Program, start: nat, carry: Filter, iface: nat)
    returns (at: seq<nat>)
    requires start <= |disp| && ProperLines(disp) && Proper(carry)
    requires forall i | 0 <= i < |disp| :: LineShaped(disp[i]) && disp[i].order.Do?
    ensures Shaped(carry) && TakenAt(disp, start, carry, iface, at)
    ensures RulesAt(disp, at, carry, FlatDispatcher(disp, start, carry, iface))
    decreases |disp| - start
  {
    ProperParts(carry);
    if start == |disp| {
      at := [];
    } else {
      hide RulesAt, TakenAt, Drops, Stops, LeftOut, Final, And, Shaped, Proper, ProperLines;
      var more := DispatcherExact(disp, start + 1, carry, iface);
      LineExact(disp, carry, iface, start);
      at := TakenNext(disp, start, carry, iface, more);
      RulesFirst(disp, start, more, carry, FlatDispatcher(disp, start + 1, carry, iface));
      assert [start] + [] == [start];
    }
  }

  // ----- nesting ----------------------------------------------------------------------------

  lemma AndProper(a: Filter, b: Option<Filter>)
    requires Proper(a) && (b.Some? ==> Proper(b.value))
    ensures Shaped(a) && (b.Some? ==> Shaped(b.value)) && Proper(And(a, b))
  {
    ProperParts(a);
    ProperOpen(b);
    ProperParts(OrOpen(b));
    AndShaped(a, b);
    AndParts(a, b);
    AndPrmProper(KindIn(a), KindIn(OrOpen(b)));
    AndPrmProper(FirstIn(a), FirstIn(OrOpen(b)));
    AndPrmProper(SecondIn(a), SecondIn(OrOpen(b)));
    hide Shaped, And, ProperRanges, KindIn, FirstIn, SecondIn, AndPrm;
  }

  /** Jumps to lines of the program, each from a line that is taken where the one before it leads. */
  ghost predicate Jumps(prog: Program, start: nat, carry: Filter, iface: nat, jumps: seq<nat>)
    requires ProperLines(prog) && Proper(carry)
    decreases |jumps|
  {
    jumps != [] ==>
      && Taken(prog, start, carry, iface, jumps[0])
      && prog[jumps[0]].order.Skip? && prog[jumps[0]].order.to.Line?
      && (AndProper(carry, prog[jumps[0]].filter);
          Jumps(prog, Entry(prog, prog[jumps[0]].order.to.no), And(carry, prog[jumps[0]].filter), iface, jumps[1..]))
  }

  lemma LineProper(prog: Program, carry: Filter, i: nat)
    requires ProperLines(prog) && Proper(carry) && i < |prog|
    ensures Shaped(carry) && LineShaped(prog[i]) && SidesValid(carry)
    ensures prog[i].filter.Some? ==> Proper(prog[i].filter.value) && SidesValid(prog[i].filter.value)
    ensures Proper(And(carry, prog[i].filter)) && Shaped(And(carry, prog[i].filter))
  {
    AndProper(carry, prog[i].filter);
    ProperParts(carry);
    if prog[i].filter.Some? {
      ProperParts(prog[i].filter.value);
    }
    ProperParts(And(carry, prog[i].filter));
    hide Proper, Shaped, And;
  }

  /** A chain of jumps that begins at this line. */
  lemma JumpsHere(prog: Program, start: nat, carry: Filter, iface: nat, jumps: seq<nat>)
    requires ProperLines(prog) && Proper(carry) && start < |prog| && jumps != [] && jumps[0] == start
    ensures Shaped(carry) && LineShaped(prog[start]) && Proper(And(carry, prog[start].filter))
    ensures Jumps(prog, start, carry, iface, jumps)
            <==> && !Drops(prog[start], carry, iface) && prog[start].order.Skip? && prog[start].order.to.Line?
                 && Jumps(prog, Entry(prog, prog[start].order.to.no), And(carry, prog[start].filter), iface,
                          jumps[1..])
  {
    AndProper(carry, prog[start].filter);
    LineExact(prog, carry, iface, start);
    TakenFirst(prog, start, carry, iface, start);
    TakenAfter(prog, start + 1, carry, iface, start);
    hide Drops, Stops, LeftOut, Final, And, Shaped, Proper, ProperLines, Taken, Entry;
  }

  /** A chain of jumps that begins at a later line. */
  lemma JumpsLater(prog: Program, start: nat, carry: Filter, iface: nat, jumps: seq<nat>)
    requires ProperLines(prog) && Proper(carry) && start < |prog| && jumps != [] && jumps[0] > start
    ensures Shaped(carry) && LineShaped(prog[start])
    ensures Jumps(prog, start, carry, iface, jumps)
            <==> (Drops(prog[start], carry, iface) || !Stops(prog[start]))
                 && Jumps(prog, start + 1, carry, iface, jumps)
  {
    LineExact(prog, carry, iface, start);
    TakenFirst(prog, start, carry, iface, jumps[0]);
    hide Drops, Stops, LeftOut, Final, And, Shaped, Proper, ProperLines, Taken, Entry;
  }

  lemma TakenAfter(list: Program, start: nat, carry: Filter, iface: nat, i: nat)
    ensures Taken(list, start, carry, iface, i) ==> start <= i < |list|
  {
    hide LeftOut, Final;
  }

  /** No chain of jumps is longer than the depth. */
  lemma {:induction false} DepthBounds(prog: Program, disp: Program, start: nat, carry: Filter, iface: nat,
                                       jumps: seq<nat>)
    requires start <= |prog| && Sound(prog, disp) && ProperLines(prog) && Proper(carry)
    requires Jumps(prog, start, carry, iface, jumps)
    ensures Shaped(carry) && |jumps| <= Depth(prog, disp, start, carry, iface)
    decreases |prog| - start
  {
    hide *;
    ProperParts(carry);
    if jumps != [] {
      JumpsIn(prog, start, carry, iface, jumps);
      SoundLine(prog, disp, start);
      if jumps[0] == start {
        LineProper(prog, carry, start);
        JumpsHere(prog, start, carry, iface, jumps);
        DepthIs(prog, disp, start, carry, iface);
        var both := And(carry, prog[start].filter);
        DepthBounds(prog, disp, Entry(prog, prog[start].order.to.no), both, iface, jumps[1..]);
      } else {
        JumpsLater(prog, start, carry, iface, jumps);
        DepthBounds(prog, disp, start + 1, carry, iface, jumps);
        DepthLater(prog, disp, start, carry, iface);
      }
    }
  }

  lemma DepthLater(prog: Program, disp: Program, i: nat, carry: Filter, iface: nat)
    requires i < |prog| && Sound(prog, disp) && Shaped(carry) && LineShaped(prog[i])
    requires Drops(prog[i], carry, iface) || !Stops(prog[i])
    ensures Depth(prog, disp, i, carry, iface) >= Depth(prog, disp, i + 1, carry, iface)
  {
    hide Drops, Stops, And, Sound, Shaped;
  }

  lemma JumpsIn(prog: Program, start: nat, carry: Filter, iface: nat, jumps: seq<nat>)
    requires ProperLines(prog) && Proper(carry) && Jumps(prog, start, carry, iface, jumps) && jumps != []
    ensures start <= jumps[0] < |prog|
  {
    hide LeftOut, Final, ProperLines, Proper, And;
  }

  /** Some chain of jumps is as long as the depth. */
  lemma {:induction false} DepthReached(prog: Program, disp: Program, start: nat, carry: Filter, iface: nat)
    returns (jumps: seq<nat>)
    requires start <= |prog| && Sound(prog, disp) && ProperLines(prog) && Proper(carry)
    ensures Shaped(carry) && Jumps(prog, start, carry, iface, jumps)
    ensures |jumps| == Depth(prog, disp, start, carry, iface)
    decreases |prog| - start
  {
    hide *;
    ProperParts(carry);
    NoJumps(prog, start, carry, iface);
    if start == |prog| {
      FlattenEnd(prog, disp, carry, iface);
      jumps := [];
    } else {
      SoundLine(prog, disp, start);
      jumps := DepthReached(prog, disp, start + 1, carry, iface);
      if jumps != [] {
        JumpsIn(prog, start + 1, carry, iface, jumps);
        JumpsLater(prog, start, carry, iface, jumps);
      }
      if Drops(prog[start], carry, iface) {
        FlattenSkip(prog, disp, start, carry, iface);
      } else {
        LineProper(prog, carry, start);
        DepthIs(prog, disp, start, carry, iface);
        if Stops(prog[start]) {
          jumps := [];
        }
        if prog[start].order.Skip? && prog[start].order.to.Line? {
          var both := And(carry, prog[start].filter);
          var deep := DepthReached(prog, disp, Entry(prog, prog[start].order.to.no), both, iface);
          if |jumps| <= |deep| {
            jumps := [start] + deep;
            assert jumps[1..] == deep;
            JumpsHere(prog, start, carry, iface, jumps);
          }
        }
      }
    }
  }

  lemma NoJumps(prog: Program, start: nat, carry: Filter, iface: nat)
    requires ProperLines(prog) && Proper(carry)
    ensures Jumps(prog, start, carry, iface, [])
  {
    hide ProperLines, Proper;
  }

  lemma DepthIs(prog: Program, disp: Program, i: nat, carry: Filter, iface: nat)
    requires i < |prog| && Sound(prog, disp) && Shaped(carry) && Shaped(And(carry, prog[i].filter))
             && LineShaped(prog[i])
    requires !Drops(prog[i], carry, iface)
    ensures var rest := if Stops(prog[i]) then 0 else Depth(prog, disp, i + 1, carry, iface);
            Depth(prog, disp, i, carry, iface) ==
            if !(prog[i].order.Skip? && prog[i].order.to.Line?) then rest
            else
              var here := 1 + Depth(prog, disp, Entry(prog, prog[i].order.to.no), And(carry, prog[i].filter), iface);
              if here > rest then here else rest
  {
    hide Drops, Stops, And, Sound, Shaped;
  }
}
