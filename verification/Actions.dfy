/**
  The actions of a packet (`common/actions.h`, `acl_value.cpp`): the actions of the matched rules are
  collected in an intermediate path, and the path is turned into the paths that a packet executes.
*/
module Actions {
  import opened Base

  const MAX_DUMPS: nat := 8
  const MAX_HITS: nat := 10000

  datatype Action =
    | Flow(flow: nat, lasts: Option<nat>)
    | Dump(ring: nat)
    | CheckState(counter: nat)
    | StateTimeout(seconds: nat)
    | HitCount(id: nat)

  /** The paths that are executed; with a check-state action the first one applies to packets of a known state. */
  datatype Path = Default(actions: seq<Action>) | WithCheckState(actions: seq<Action>, known: seq<Action>)

  // ----- what is kept -----------------------------------------------------------------------

  function Front<T>(s: seq<T>): seq<T>
    requires s != []
  {
    s[..|s| - 1]
  }

  function Last<T>(s: seq<T>): T
    requires s != []
  {
    s[|s| - 1]
  }

  function Dumps(list: seq<Action>): nat {
    if list == [] then 0 else Dumps(Front(list)) + if Last(list).Dump? then 1 else 0
  }

  function Hits(list: seq<Action>): nat {
    if list == [] then 0 else Hits(Front(list)) + if Last(list).HitCount? then 1 else 0
  }

  /** The position of the first check-state action. */
  function FirstCheck(list: seq<Action>): (r: Option<nat>)
    ensures r.Some? ==>
              r.value < |list| && list[r.value].CheckState? && forall i | 0 <= i < r.value :: !list[i].CheckState?
    ensures r.None? ==> forall i | 0 <= i < |list| :: !list[i].CheckState?
  {
    if list == [] then None
    else
      var r := FirstCheck(Front(list));
      if r.Some? then r else if Last(list).CheckState? then Some(|list| - 1) else None
  }

  /** The position of the last timeout action. */
  function LastTimeout(list: seq<Action>): (r: Option<nat>)
    ensures r.Some? ==>
              r.value < |list| && list[r.value].StateTimeout?
              && forall i | r.value < i < |list| :: !list[i].StateTimeout?
    ensures r.None? ==> forall i | 0 <= i < |list| :: !list[i].StateTimeout?
  {
    if list == [] then None else if Last(list).StateTimeout? then Some(|list| - 1) else LastTimeout(Front(list))
  }

  ghost predicate NoFlow(list: seq<Action>) {
    forall i | 0 <= i < |list| :: !list[i].Flow?
  }

  /**
    An action that follows the list is kept: dumps and hit counts up to their maximum, the first check-state,
    any flow.
  */
  predicate Keeps(list: seq<Action>, a: Action) {
    match a
    case Flow(_, _) => true
    case Dump(_) => Dumps(list) < MAX_DUMPS
    case CheckState(_) => FirstCheck(list).None?
    case StateTimeout(_) => false
    case HitCount(_) => Hits(list) < MAX_HITS
  }

  /** The kept actions without the timeouts. */
  function Core(list: seq<Action>): seq<Action> {
    if list == [] then [] else Core(Front(list)) + if Keeps(Front(list), Last(list)) then [Last(list)] else []
  }

  /** The kept dumps and hit counts. */
  function Plain(list: seq<Action>): seq<Action> {
    if list == [] then []
    else Plain(Front(list))
         + if (Last(list).Dump? || Last(list).HitCount?) && Keeps(Front(list), Last(list)) then [Last(list)] else []
  }

  /** The position of the kept action number i among the kept ones. */
  function Place(list: seq<Action>, i: nat): nat
    requires i <= |list|
  {
    |Core(list[..i])|
  }

  lemma {:induction false} CorePrefix(list: seq<Action>, i: nat)
    requires i <= |list|
    ensures Core(list[..i]) <= Core(list)
    ensures i < |list| && Keeps(list[..i], list[i]) ==>
              Place(list, i) < |Core(list)| && Core(list)[Place(list, i)] == list[i]
  {
    if i == |list| {
      assert list[..i] == list;
    } else {
      assert Front(list)[..i] == list[..i];
      CorePrefix(Front(list), i);
      if i == |list| - 1 {
        assert Front(list) == list[..i];
      }
    }
  }

  /** The path: the kept actions, with the last timeout in its place. */
  ghost function Placed(list: seq<Action>): seq<Action> {
    var t := LastTimeout(list);
    if t.None? then Core(list)
    else CorePrefix(list, t.value); Insert(Core(list), Place(list, t.value), list[t.value])
  }

  function Insert<T>(s: seq<T>, i: nat, x: T): (r: seq<T>)
    requires i <= |s|
    ensures |r| == |s| + 1
  {
    s[..i] + [x] + s[i..]
  }

  lemma InsertOut<T>(s: seq<T>, i: nat, x: T)
    requires i <= |s|
    ensures Insert(s, i, x)[..i] + Insert(s, i, x)[i + 1..] == s
  {
    var r := Insert(s, i, x);
    assert r[..i] == s[..i] && r[i + 1..] == s[i..];
  }

  lemma InsertMore<T>(s: seq<T>, i: nat, x: T, more: seq<T>)
    requires i <= |s|
    ensures Insert(s + more, i, x) == Insert(s, i, x) + more
  {
  }

  ghost function CheckPlace(list: seq<Action>): Option<nat> {
    var c, t := FirstCheck(list), LastTimeout(list);
    if c.None? then None else Some(Place(list, c.value) + if t.Some? && t.value < c.value then 1 else 0)
  }

  ghost function TimeoutPlace(list: seq<Action>): Option<nat> {
    if LastTimeout(list).None? then None else Some(Place(list, LastTimeout(list).value))
  }

  function Min(a: nat, b: nat): nat {
    if a < b then a else b
  }

  lemma Step(list: seq<Action>, a: Action)
    ensures Core(list + [a]) == Core(list) + if Keeps(list, a) then [a] else []
    ensures Dumps(list + [a]) == Dumps(list) + (if a.Dump? then 1 else 0)
            && Hits(list + [a]) == Hits(list) + if a.HitCount? then 1 else 0
    ensures FirstCheck(list + [a]) == if FirstCheck(list).Some? then FirstCheck(list)
                                      else if a.CheckState? then Some(|list|) else None
    ensures LastTimeout(list + [a]) == if a.StateTimeout? then Some(|list|) else LastTimeout(list)
    ensures forall i | 0 <= i <= |list| :: Place(list + [a], i) == Place(list, i)
  {
    assert Front(list + [a]) == list && Last(list + [a]) == a;
    forall i | 0 <= i <= |list|
      ensures Place(list + [a], i) == Place(list, i)
    {
      assert (list + [a])[..i] == list[..i];
    }
  }

  // ----- the kept actions, position by position ---------------------------------------------

  datatype Sort = All | Untimed | Counted

  /**
    The action at the position stays in the path: dumps with fewer than 8 dumps before them, hit counts with
    fewer than 10000 hit counts before them, the first check-state, the last timeout and any flow.
  */
  ghost predicate Stays(list: seq<Action>, i: nat)
    requires i < |list|
  {
    match list[i]
    case Flow(_, _) => true
    case Dump(_) => |set j: nat | j < i && list[j].Dump?| < 8
    case CheckState(_) => forall j: nat | j < i :: !list[j].CheckState?
    case StateTimeout(_) => forall j: nat | i < j < |list| :: !list[j].StateTimeout?
    case HitCount(_) => |set j: nat | j < i && list[j].HitCount?| < 10000
  }

  ghost predicate Wanted(list: seq<Action>, sort: Sort, i: nat) {
    && i < |list| && Stays(list, i) && (sort != All ==> !list[i].StateTimeout?)
    && (sort == Counted ==> list[i].Dump? || list[i].HitCount?)
  }

  /** The positions, in their order, of the wanted actions. */
  ghost predicate WantedAt(list: seq<Action>, sort: Sort, at: seq<nat>) {
    Increasing(at) && forall i: nat :: i in at <==> Wanted(list, sort, i)
  }

  ghost predicate Picked(list: seq<Action>, at: seq<nat>, kept: seq<Action>) {
    |kept| == |at| && forall k | 0 <= k < |at| :: at[k] < |list| && kept[k] == list[at[k]]
  }

  /** The actions at the positions of the wanted ones, in the order of the list. */
  ghost predicate Picks(list: seq<Action>, sort: Sort, kept: seq<Action>) {
    exists at :: WantedAt(list, sort, at) && Picked(list, at, kept)
  }

  lemma PicksOnce(list: seq<Action>, sort: Sort, a: seq<Action>, b: seq<Action>)
    requires Picks(list, sort, a) && Picks(list, sort, b)
    ensures a == b
  {
    hide Wanted;
    var at: seq<nat> :| WantedAt(list, sort, at) && Picked(list, at, a);
    var at': seq<nat> :| WantedAt(list, sort, at') && Picked(list, at', b);
    SameIncreasing(at, at');
  }

  lemma PicksNext(list: seq<Action>, a: Action, was: Sort, sort: Sort, kept: seq<Action>)
    requires Picks(list, was, kept)
    requires forall i: nat | i < |list| :: Wanted(list + [a], sort, i) <==> Wanted(list, was, i)
    ensures Picks(list + [a], sort, kept + if Wanted(list + [a], sort, |list|) then [a] else [])
  {
    var at: seq<nat> :| WantedAt(list, was, at) && Picked(list, at, kept);
    hide Stays;
    var more := if Wanted(list + [a], sort, |list|) then [|list|] else [];
    forall i: nat
      ensures i in at + more <==> Wanted(list + [a], sort, i)
    {
      assert i in at <==> Wanted(list, was, i);
    }
    hide Wanted;
    assert forall k | 0 <= k < |at| :: at[k] in at;
    assert WantedAt(list + [a], sort, at + more);
    assert Picked(list + [a], at + more, kept + if Wanted(list + [a], sort, |list|) then [a] else []);
  }

  /** The recursive counts are the numbers of positions. */
  lemma {:induction false} CountDumps(list: seq<Action>, n: nat)
    requires n <= |list|
    ensures Dumps(list[..n]) == |set j: nat | j < n && list[j].Dump?|
  {
    var here := set j: nat | j < n && list[j].Dump?;
    if n == 0 {
      assert here == {};
    } else {
      CountDumps(list, n - 1);
      assert Front(list[..n]) == list[..n - 1];
      assert (set j: nat | j < n - 1 && list[j].Dump?) == here - {n - 1};
    }
  }

  lemma {:induction false} CountHits(list: seq<Action>, n: nat)
    requires n <= |list|
    ensures Hits(list[..n]) == |set j: nat | j < n && list[j].HitCount?|
  {
    var here := set j: nat | j < n && list[j].HitCount?;
    if n == 0 {
      assert here == {};
    } else {
      CountHits(list, n - 1);
      assert Front(list[..n]) == list[..n - 1];
      assert (set j: nat | j < n - 1 && list[j].HitCount?) == here - {n - 1};
    }
  }

  /** The next action stays exactly if it is kept. */
  lemma StaysNext(list: seq<Action>, a: Action)
    ensures a.StateTimeout? ==> Stays(list + [a], |list|) && !Keeps(list, a)
    ensures !a.StateTimeout? ==> (Stays(list + [a], |list|) <==> Keeps(list, a))
  {
    var all := list + [a];
    CountDumps(all, |list|);
    CountHits(all, |list|);
    assert all[..|list|] == list;
    hide Dumps, Hits;
    assert FirstCheck(list).None? <==> forall j: nat | j < |list| :: !all[j].CheckState?;
  }

  /** What comes later matters for timeouts only. */
  lemma StaysBefore(list: seq<Action>, a: Action, i: nat)
    requires i < |list|
    ensures (!list[i].StateTimeout? || !a.StateTimeout?) ==> (Stays(list + [a], i) <==> Stays(list, i))
    ensures list[i].StateTimeout? && a.StateTimeout? ==> !Stays(list + [a], i)
  {
    var all := list + [a];
    assert (set j: nat | j < i && all[j].Dump?) == (set j: nat | j < i && list[j].Dump?);
    assert (set j: nat | j < i && all[j].HitCount?) == (set j: nat | j < i && list[j].HitCount?);
    assert forall j | 0 <= j < |list| :: all[j] == list[j];
    if a.StateTimeout? {
      assert all[|list|].StateTimeout?;
    }
  }

  lemma WantedBefore(list: seq<Action>, a: Action, sort: Sort)
    ensures forall i: nat | i < |list| ::
              Wanted(list + [a], sort, i) <==> Wanted(list, if a.StateTimeout? && sort == All then Untimed else sort, i)
  {
    hide Stays;
    forall i: nat | i < |list|
      ensures Wanted(list + [a], sort, i)
              <==> Wanted(list, if a.StateTimeout? && sort == All then Untimed else sort, i)
    {
      StaysBefore(list, a, i);
    }
  }

  /** The recursive definitions are the actions at the positions that are wanted. */
  lemma {:induction false} PicksAre(list: seq<Action>)
    ensures Picks(list, Counted, Plain(list)) && Picks(list, Untimed, Core(list)) && Picks(list, All, Placed(list))
  {
    if list == [] {
      assert WantedAt([], Counted, []) && Picked([], [], []);
      assert WantedAt([], Untimed, []) && WantedAt([], All, []);
    } else {
      var front, a := Front(list), Last(list);
      assert list == front + [a];
      PicksAre(front);
      WantedBefore(front, a, Counted);
      WantedBefore(front, a, Untimed);
      WantedBefore(front, a, All);
      StaysNext(front, a);
      hide Picks, Stays, Placed, LastTimeout, FirstCheck, Keeps;
      PicksNext(front, a, Counted, Counted, Plain(front));
      PicksNext(front, a, Untimed, Untimed, Core(front));
      if a.StateTimeout? {
        PicksNext(front, a, Untimed, All, Core(front));
        PlacedTimeout(front, a);
      } else {
        PicksNext(front, a, All, All, Placed(front));
        PlacedStep(front, a);
      }
    }
  }

  // ----- the intermediate path --------------------------------------------------------------

  class Intermediate {
    var path: seq<Action>
    // Of the counts of added actions only these two are read.
    var dumps: nat
    var hits: nat
    var flow: Option<nat>
    var check: Option<nat>
    var timeout: Option<nat>

    /** The object holds the actions of the list, which ends with its only flow action, if it has one. */
    ghost predicate Holds(list: seq<Action>)
      reads this
    {
      && path == Placed(list) && dumps == Min(Dumps(list), MAX_DUMPS) && hits == Min(Hits(list), MAX_HITS)
      && (list != [] ==> NoFlow(Front(list)))
      && check == CheckPlace(list) && timeout == TimeoutPlace(list)
      && flow == if list != [] && Last(list).Flow? then Some(|path| - 1) else None
    }

    constructor ()
      ensures Holds([])
    {
      path, dumps, hits, flow, check, timeout := [], 0, 0, None, None, None;
    }

    /**
      `remove_action_at`: every other remembered position still names its action, and all other actions
      stay in their order.
    */
    method RemoveAt(i: nat)
      requires i < |path|
      modifies this
      ensures old(flow) != Some(i) ==> Named(path, flow) == old(Named(path, flow))
      ensures old(check) != Some(i) ==> Named(path, check) == old(Named(path, check))
      ensures old(timeout) != Some(i) ==> Named(path, timeout) == old(Named(path, timeout))
      ensures path == old(path)[..i] + old(path)[i + 1..] && dumps == old(dumps) && hits == old(hits)
      ensures flow == Moved(old(flow), i) && check == Moved(old(check), i) && timeout == Moved(old(timeout), i)
    {
      MovedNames(path, i, flow);
      MovedNames(path, i, check);
      MovedNames(path, i, timeout);
      path := path[..i] + path[i + 1..];
      flow, check, timeout := Moved(flow, i), Moved(check, i), Moved(timeout, i);
    }

    /** `add`: the first check-state and the last timeout and flow are kept, the others up to their maximum. */
    method Add(a: Action, ghost list: seq<Action>)
      requires Holds(list) && (NoFlow(list) || a.Flow?)
      modifies this
      ensures Holds((if NoFlow(list) then list else Front(list)) + [a])
      ensures Picks((if NoFlow(list) then list else Front(list)) + [a], All, path)
    {
      PicksAre((if NoFlow(list) then list else Front(list)) + [a]);
      hide Picks, Placed, CheckPlace, TimeoutPlace;
      if a.Flow? {
        AddFlow(a, list);
      } else if a.StateTimeout? {
        AddTimeout(a, list);
      } else {
        AddMore(a, list);
      }
    }

    /** A second flow would replace the first one. */
    method AddFlow(a: Action, ghost list: seq<Action>)
      requires Holds(list) && a.Flow?
      modifies this
      ensures Holds((if NoFlow(list) then list else Front(list)) + [a])
    {
      hide Core, Keeps, Dumps, Hits, FirstCheck, LastTimeout, Placed, CheckPlace, TimeoutPlace, NoFlow;
      NoFlowIff(list);
      ghost var rest := list;
      if flow.Some? {
        rest := Front(list);
        DropFlow(list);
      }
      path := path + [a];
      flow := Some(|path| - 1);
      assert Front(rest + [a]) == rest;
      KeepsFlow(rest, a);
      PlacedStep(rest, a);
      Step(rest, a);
      hide Place;
    }

    method DropFlow(ghost list: seq<Action>)
      requires Holds(list) && flow.Some?
      modifies this
      ensures path == Placed(Front(list)) && dumps == old(dumps) && hits == old(hits)
      ensures check == CheckPlace(Front(list)) && timeout == TimeoutPlace(Front(list))
      ensures dumps == Min(Dumps(Front(list)), MAX_DUMPS) && hits == Min(Hits(Front(list)), MAX_HITS)
    {
      hide Core, Keeps, Dumps, Hits, FirstCheck, LastTimeout, Placed, CheckPlace, TimeoutPlace, Place;
      ghost var rest, last := Front(list), Last(list);
      assert list == rest + [last];
      PlacedStep(rest, last);
      Step(rest, last);
      KeepsFlow(rest, last);
      PlacesIn(rest);
      RemoveAt(flow.value);
    }

    /** Only the last timeout stays. */
    method AddTimeout(a: Action, ghost list: seq<Action>)
      requires Holds(list) && NoFlow(list) && a.StateTimeout?
      modifies this
      ensures Holds(list + [a])
    {
      hide Core, Keeps, Dumps, Hits, FirstCheck, LastTimeout, Placed, CheckPlace, TimeoutPlace, Place;
      PlacedOut(list);
      CheckOut(list);
      if timeout.Some? {
        RemoveAt(timeout.value);
      }
      path := path + [a];
      timeout := Some(|path| - 1);
      assert Front(list + [a]) == list;
      PlacedTimeout(list, a);
      Step(list, a);
    }

    method AddMore(a: Action, ghost list: seq<Action>)
      requires Holds(list) && NoFlow(list) && !a.Flow? && !a.StateTimeout?
      modifies this
      ensures Holds(list + [a])
    {
      hide Core, Dumps, Hits, FirstCheck, LastTimeout, Placed, TimeoutPlace, Place;
      match a {
        case Dump(_) =>
          if dumps < MAX_DUMPS {
            path, dumps := path + [a], dumps + 1;
          }
        case HitCount(_) =>
          if hits < MAX_HITS {
            path, hits := path + [a], hits + 1;
          }
        case CheckState(_) =>
          if check.None? {
            path := path + [a];
            check := Some(|path| - 1);
          }
      }
      assert Front(list + [a]) == list;
      PlacedStep(list, a);
      Step(list, a);
      hide CheckPlace;
    }

    /** `ensure_termination` */
    method EnsureTermination(drop: Action, ghost list: seq<Action>)
      requires Holds(list) && list != [] && drop.Flow?
      modifies this
      ensures Holds(if Last(list).Flow? then list else list + [drop])
    {
      hide Core, Keeps, Dumps, Hits, FirstCheck, LastTimeout, Placed, CheckPlace, TimeoutPlace;
      PathEnds(list);
      if !path[|path| - 1].Flow? {
        AddFlow(drop, list);
      }
    }

    /** `move_timeout_from_state_timeout_to_flow`: the timeout leaves the path and becomes part of the flow. */
    method MoveTimeout(ghost body: seq<Action>, ghost f: Action)
      requires Holds(body + [f]) && f.Flow? && NoFlow(body)
      modifies this
      ensures path == Core(body) + [TimedFlow(body, f)] && check == KeptCheck(body)
    {
      hide Core, Keeps, Dumps, Hits, FirstCheck, LastTimeout, Placed, CheckPlace, TimeoutPlace, KeptCheck;
      PlacedStep(body, f);
      KeepsFlow(body, f);
      PlacedOut(body);
      CheckOut(body);
      TimeoutHere(body);
      if timeout.Some? {
        var t := timeout.value;
        ghost var was := path;
        path := path[flow.value := path[flow.value].(lasts := Some(path[t].seconds))];
        RemoveAt(t);
        assert was[..t] == Placed(body)[..t] && was[t + 1..] == Placed(body)[t + 1..] + [f];
      }
    }

    /** `finalize_actions`: the path up to the check-state action is kept apart, and the action leaves the other one. */
    method Finalize(ghost body: seq<Action>, ghost f: Action) returns (r: Path)
      requires path == Core(body) + [f] && check == KeptCheck(body) && NoFlow(body)
      ensures r.actions == Plain(body) + [f]
      ensures if FirstCheck(body).None? then r.Default?
              else r.WithCheckState?
                   && r.known == Plain(body[..FirstCheck(body).value]) + [body[FirstCheck(body).value]]
    {
      hide Core, Keeps, Dumps, Hits, FirstCheck, Plain, Place;
      CoreParts(body);
      if check.Some? {
        Cut(Core(body), [f], check.value);
        r := WithCheckState(path[..check.value] + path[check.value + 1..], path[..check.value + 1]);
      } else {
        r := Default(path);
      }
    }

    /** One round of `value_t::compile`. */
    method Compile(drop: Action, ghost list: seq<Action>) returns (r: Path)
      requires Holds(list) && list != [] && drop.Flow?
      modifies this
      ensures Executes(r, list, drop)
    {
      ghost var body := Body(list);
      ghost var f := if Last(list).Flow? then Last(list) else drop;
      assert NoFlow(body) && body + [f] == if Last(list).Flow? then list else list + [drop];
      hide Core, Keeps, Dumps, Hits, FirstCheck, LastTimeout, Placed, CheckPlace, TimeoutPlace, KeptCheck, Plain;
      EnsureTermination(drop, list);
      MoveTimeout(body, f);
      r := Finalize(body, TimedFlow(body, f));
      PicksAre(body);
      assert Front(Plain(body) + [TimedFlow(body, f)]) == Plain(body);
      hide Picks;
      if FirstCheck(body).Some? {
        ghost var c := FirstCheck(body).value;
        PicksAre(body[..c]);
        assert Front(Plain(body[..c]) + [body[c]]) == Plain(body[..c]);
      }
    }
  }

  lemma NoFlowIff(list: seq<Action>)
    requires list != [] ==> NoFlow(Front(list))
    ensures NoFlow(list) <==> list == [] || !Last(list).Flow?
  {
  }

  /** The path ends with a flow exactly when the list does. */
  lemma PathEnds(list: seq<Action>)
    requires list != [] && NoFlow(Front(list))
    ensures Placed(list) != [] && (Last(Placed(list)).Flow? <==> Last(list).Flow?)
  {
    var front, a := Front(list), Last(list);
    assert list == front + [a];
    if a.Flow? {
      PlacedStep(front, a);
    } else {
      NoFlowPath(list);
      FirstKept(list);
    }
  }

  lemma NoFlowPath(list: seq<Action>)
    requires NoFlow(list)
    ensures NoFlow(Placed(list))
  {
    NoFlowCore(list);
    var t := LastTimeout(list);
    if t.Some? {
      CorePrefix(list, t.value);
    }
    hide Core, LastTimeout, Place;
  }

  lemma {:induction false} NoFlowCore(list: seq<Action>)
    requires NoFlow(list)
    ensures NoFlow(Core(list))
  {
    if list != [] {
      NoFlowCore(Front(list));
    }
  }

  /** The first action is always kept, so the path is not empty. */
  lemma FirstKept(list: seq<Action>)
    requires list != []
    ensures Placed(list) != []
  {
    var t := LastTimeout(list);
    if t.None? {
      assert list[..0] == [];
      CorePrefix(list, 0);
      hide Core, LastTimeout;
    }
  }

  ghost function TimedFlow(body: seq<Action>, f: Action): Action
    requires f.Flow?
  {
    var t := LastTimeout(body);
    if t.None? then f else f.(lasts := Some(body[t.value].seconds))
  }

  lemma TimeoutHere(list: seq<Action>)
    ensures LastTimeout(list).None? <==> TimeoutPlace(list).None?
    ensures LastTimeout(list).Some? ==>
              TimeoutPlace(list).value < |Placed(list)|
              && Placed(list)[TimeoutPlace(list).value] == list[LastTimeout(list).value]
  {
    var t := LastTimeout(list);
    if t.Some? {
      CorePrefix(list, t.value);
    }
  }

  // ----- compiling a path -------------------------------------------------------------------

  /** The actions before the flow. */
  ghost function Body(list: seq<Action>): seq<Action> {
    if list != [] && Last(list).Flow? then Front(list) else list
  }

  /** The flow of the list, else the default; it carries the last timeout. */
  ghost function FlowOf(list: seq<Action>, drop: Action): Action
    requires drop.Flow?
  {
    TimedFlow(Body(list), if list != [] && Last(list).Flow? then Last(list) else drop)
  }

  /**
    The executed path: the dumps and hit counts that stay, then the flow; and those up to the first
    check-state, then that, if there is one.
  */
  ghost predicate Executes(r: Path, list: seq<Action>, drop: Action)
    requires drop.Flow?
  {
    var body, c := Body(list), FirstCheck(Body(list));
    && r.actions != [] && Picks(body, Counted, Front(r.actions)) && Last(r.actions) == FlowOf(list, drop)
    && if c.None? then r.Default?
       else r.WithCheckState? && r.known != [] && Picks(body[..c.value], Counted, Front(r.known))
            && Last(r.known) == body[c.value]
  }

  /** The list of matched actions determines the executed path. */
  lemma ExecutesOnce(r: Path, r': Path, list: seq<Action>, drop: Action)
    requires drop.Flow? && Executes(r, list, drop) && Executes(r', list, drop)
    ensures r == r'
  {
    hide Picks, FlowOf, FirstCheck;
    var body, c := Body(list), FirstCheck(Body(list));
    PicksOnce(body, Counted, Front(r.actions), Front(r'.actions));
    assert r.actions == Front(r.actions) + [Last(r.actions)] && r'.actions == Front(r'.actions) + [Last(r'.actions)];
    if c.Some? {
      PicksOnce(body[..c.value], Counted, Front(r.known), Front(r'.known));
      assert r.known == Front(r.known) + [Last(r.known)] && r'.known == Front(r'.known) + [Last(r'.known)];
    }
  }

  /** Without flow actions, the kept ones are the plain ones and the first check-state. */
  lemma {:induction false} CoreParts(list: seq<Action>)
    requires NoFlow(list)
    ensures FirstCheck(list).None? ==> Core(list) == Plain(list)
    ensures FirstCheck(list).Some? ==>
              var c, p := FirstCheck(list).value, Place(list, FirstCheck(list).value);
              && p < |Core(list)| && Core(list)[..p + 1] == Plain(list[..c]) + [list[c]]
                 && Core(list)[..p] + Core(list)[p + 1..] == Plain(list)
  {
    if list != [] {
      var front, a := Front(list), Last(list);
      assert list == front + [a] && list[..|front|] == front && NoFlow(front);
      CoreParts(front);
      Step(front, a);
      PlainStep(front, a);
      hide Core, Plain, Keeps, FirstCheck, Dumps, Hits, Place;
      if FirstCheck(front).Some? {
        var c := FirstCheck(front).value;
        assert front[..c] == list[..c];
        Cut(Core(front), if Keeps(front, a) then [a] else [], Place(front, c));
      } else if a.CheckState? {
        PlaceLast(list);
        Cut(Core(front) + [a], [], |Core(front)|);
      }
    }
  }

  /** What follows the first check-state is kept as a plain action or not at all. */
  lemma PlainStep(list: seq<Action>, a: Action)
    ensures Plain(list + [a]) == Plain(list) + if (a.Dump? || a.HitCount?) && Keeps(list, a) then [a] else []
    ensures a.CheckState? ==> (Keeps(list, a) <==> FirstCheck(list).None?)
    ensures a.StateTimeout? ==> !Keeps(list, a)
  {
    assert Front(list + [a]) == list && Last(list + [a]) == a;
  }

  lemma PlaceLast(list: seq<Action>)
    requires list != []
    ensures Place(list, |list| - 1) == |Core(Front(list))|
  {
  }

  lemma Cut(s: seq<Action>, more: seq<Action>, p: nat)
    requires p < |s|
    ensures (s + more)[..p + 1] == s[..p + 1] && (s + more)[..p] + (s + more)[p + 1..] == s[..p] + s[p + 1..] + more
  {
  }

  lemma KeepsFlow(list: seq<Action>, a: Action)
    requires a.Flow?
    ensures Keeps(list, a)
  {
  }

  function Moved(index: Option<nat>, removed: nat): Option<nat> {
    if index.Some? && index.value > removed then Some(index.value - 1) else index
  }

  /** The action at a remembered position. */
  ghost function Named(path: seq<Action>, index: Option<nat>): Option<Action> {
    if index.Some? && index.value < |path| then Some(path[index.value]) else None
  }

  lemma MovedNames(path: seq<Action>, i: nat, index: Option<nat>)
    requires i < |path|
    ensures index != Some(i) ==> Named(path[..i] + path[i + 1..], Moved(index, i)) == Named(path, index)
  {
  }

  lemma PlacedStep(list: seq<Action>, a: Action)
    requires !a.StateTimeout?
    ensures Placed(list + [a]) == Placed(list) + if Keeps(list, a) then [a] else []
    ensures CheckPlace(list + [a])
            == if CheckPlace(list).None? && a.CheckState? then Some(|Placed(list)|) else CheckPlace(list)
    ensures TimeoutPlace(list + [a]) == TimeoutPlace(list)
  {
    hide Core, Keeps, Dumps, Hits, FirstCheck, LastTimeout;
    Step(list, a);
    var t := LastTimeout(list);
    assert list[..|list|] == list;
    if t.Some? {
      CorePrefix(list, t.value);
      assert (list + [a])[t.value] == list[t.value];
      InsertMore(Core(list), Place(list, t.value), list[t.value], if Keeps(list, a) then [a] else []);
    }
    hide Place, Insert;
  }

  /** The remembered positions lie within the path. */
  lemma PlacesIn(list: seq<Action>)
    ensures CheckPlace(list).Some? ==> CheckPlace(list).value < |Placed(list)|
    ensures TimeoutPlace(list).Some? ==> TimeoutPlace(list).value < |Placed(list)|
  {
    var t, c := LastTimeout(list), FirstCheck(list);
    if t.Some? {
      CorePrefix(list, t.value);
    }
    if c.Some? {
      NoCheckBefore(list, c.value);
      CorePrefix(list, c.value);
    }
    hide Core, Dumps, Hits, FirstCheck, LastTimeout, Place;
  }

  /** Taking the timeout out of the path leaves the other kept actions. */
  lemma PlacedOut(list: seq<Action>)
    ensures TimeoutPlace(list).None? ==> Placed(list) == Core(list)
    ensures TimeoutPlace(list).Some? ==>
              var t := TimeoutPlace(list).value;
              t < |Placed(list)| && Placed(list)[..t] + Placed(list)[t + 1..] == Core(list)
  {
    hide Core, LastTimeout, Place;
    var t := LastTimeout(list);
    if t.Some? {
      CorePrefixSize(list, t.value);
      InsertOut(Core(list), Place(list, t.value), list[t.value]);
    }
    hide Insert;
  }

  lemma CorePrefixSize(list: seq<Action>, i: nat)
    requires i <= |list|
    ensures Place(list, i) <= |Core(list)|
  {
    CorePrefix(list, i);
  }

  /** The remembered position of the check-state action follows. */
  lemma CheckOut(list: seq<Action>)
    ensures TimeoutPlace(list).Some? ==> Moved(CheckPlace(list), TimeoutPlace(list).value) == KeptCheck(list)
    ensures TimeoutPlace(list).None? ==> CheckPlace(list) == KeptCheck(list)
  {
    hide LastTimeout, Place;
    var t, c := LastTimeout(list), FirstCheck(list);
    if t.Some? && c.Some? {
      NoCheckBefore(list, c.value);
      if t.value < c.value {
        PlaceOrder(list, t.value, c.value);
      } else {
        PlaceOrder(list, c.value, t.value);
      }
    }
    hide FirstCheck, Keeps;
  }

  ghost function KeptCheck(list: seq<Action>): Option<nat> {
    if FirstCheck(list).Some? then Some(Place(list, FirstCheck(list).value)) else None
  }

  lemma PlaceOrder(list: seq<Action>, i: nat, j: nat)
    requires i < j <= |list|
    ensures Place(list, i) <= Place(list, j)
    ensures Keeps(list[..i], list[i]) ==> Place(list, i) < Place(list, j)
  {
    hide Core, Keeps;
    var front := list[..j];
    assert front[..i] == list[..i] && front[i] == list[i];
    CorePrefix(front, i);
  }

  lemma NoCheckBefore(list: seq<Action>, c: nat)
    requires FirstCheck(list) == Some(c)
    ensures FirstCheck(list[..c]).None? && Keeps(list[..c], list[c])
  {
  }

  lemma PlacedTimeout(list: seq<Action>, a: Action)
    requires a.StateTimeout?
    ensures Placed(list + [a]) == Core(list) + [a] && TimeoutPlace(list + [a]) == Some(|Core(list)|)
    ensures CheckPlace(list + [a]) == KeptCheck(list)
  {
    hide Core, Dumps, Hits, FirstCheck, LastTimeout;
    Step(list, a);
    assert list[..|list|] == list;
  }
}
