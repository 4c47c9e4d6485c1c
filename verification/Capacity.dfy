/**
  When the classifiers of header fields overflow, in terms of the rules: a classifier fails exactly
  when the ranges of its filters tell every two values of the field apart.
*/
module Capacity {
  import opened Base
  import opened Nets
  import opened Flat
  import opened Rules
  import opened TransportFilter
  import opened TransportLayer
  import opened Transports

  // ----- what rules tell apart --------------------------------------------------------------

  /**
    The ranges that a rule brings to a header field: its protocols (0), or parameter i, if the rule is for
    one of the protocols.
  */
  ghost function Restricts(f: Option<Proto>, protocols: set<nat>, i: nat): Ranges {
    if KindOf(f).None? then []
    else if i == 0 then f.value.kind.value
    else if (exists p :: p in protocols && On(f, p)) && Prm(f, i).Some? then Prm(f, i).value
    else []
  }

  ghost predicate RuleTells(rules: seq<Rule>, who: set<nat>, protocols: set<nat>, i: nat, size: nat, u: nat, v: nat) {
    exists k :: k in who && k < |rules| && Tells(Restricts(rules[k].proto, protocols, i), size, u, v)
  }

  /** The ranges of the rules tell every two values of the field apart. */
  ghost predicate Splits(rules: seq<Rule>, who: set<nat>, protocols: set<nat>, i: nat, size: nat) {
    forall u: nat, v: nat | u < v < size :: RuleTells(rules, who, protocols, i, size, u, v)
  }

  /** The rules together split some header field completely, which the group ids of its classifier cannot number. */
  ghost predicate RulesOverflow(rules: seq<Rule>, who: set<nat>) {
    || Splits(rules, who, {}, 0, 256)
    || Splits(rules, who, {TCP}, 1, 65536) || Splits(rules, who, {TCP}, 2, 65536) || Splits(rules, who, {TCP}, 3, 256)
    || Splits(rules, who, {UDP}, 1, 65536) || Splits(rules, who, {UDP}, 2, 65536)
    || Splits(rules, who, {ICMP, ICMPV6}, 1, 65536) || Splits(rules, who, {ICMP, ICMPV6}, 2, 65536)
  }

  /** A field tells two values apart exactly when the parameter does that the rule brings to it. */
  lemma FieldTellsAsRule(field: Ranges, f: Option<Proto>, protocol: nat, i: nat, size: nat, u: nat, v: nat)
    requires FieldIs(field, On(f, protocol), Prm(f, i), size) && i > 0
    ensures Tells(field, size, u, v) <==> Tells(Restricts(f, {protocol}, i), size, u, v)
  {
    hide Visits, InRanges, Within;
    NothingVisited(size);
  }

  lemma NothingVisited(size: nat)
    ensures forall v: nat :: !Visits([], 0, size, v)
  {
  }

  /** One of the rules has filter f. */
  ghost predicate FilterOf(ids: seq<nat>, who: set<nat>, f: nat) {
    exists k :: k in who && k < |ids| && ids[k] == f
  }

  /** The filters `held` are the filters of rules in `who`. */
  ghost predicate HeldBy(held: set<nat>, ids: seq<nat>, who: set<nat>) {
    forall f | f in held :: FilterOf(ids, who, f)
  }

  /** The filters of the rules in `who` are held. */
  ghost predicate HoldsAll(held: set<nat>, ids: seq<nat>, who: set<nat>) {
    forall k | k in who && k < |ids| :: ids[k] in held
  }

  /** Together the two fields of a rule's filter tell apart what the rule does. */
  ghost predicate Mirrors(rules: seq<Rule>, transports: seq<Transport>, ids: seq<nat>, pick: Transport -> Ranges,
                          pick6: Transport -> Ranges,
                          protocols: set<nat>, i: nat, size: nat) {
    && |ids| == |rules|
    && forall k, u: nat, v: nat | 0 <= k < |rules| && ids[k] < |transports| ::
         Tells(pick(transports[ids[k]]), size, u, v) || Tells(pick6(transports[ids[k]]), size, u, v)
         <==> Tells(Restricts(rules[k].proto, protocols, i), size, u, v)
  }

  ghost predicate EitherTells(held: set<nat>, transports: seq<Transport>, pick: Transport -> Ranges,
                              pick6: Transport -> Ranges,
                              size: nat, u: nat, v: nat) {
    FieldTells(held, transports, pick, size, u, v) || FieldTells(held, transports, pick6, size, u, v)
  }

  /** What the filters of a layer tell apart, their rules tell apart. */
  lemma TellsDown(rules: seq<Rule>, transports: seq<Transport>, ids: seq<nat>, held: set<nat>, who: set<nat>,
                  pick: Transport -> Ranges, pick6: Transport -> Ranges, protocols: set<nat>, i: nat, size: nat, u: nat,
                  v: nat)
    requires Mirrors(rules, transports, ids, pick, pick6, protocols, i, size) && HeldBy(held, ids, who)
    requires EitherTells(held, transports, pick, pick6, size, u, v)
    ensures RuleTells(rules, who, protocols, i, size, u, v)
  {
    hide Tells, Restricts;
    var f :| f in held && f < |transports|
        && (Tells(pick(transports[f]), size, u, v) || Tells(pick6(transports[f]), size, u, v));
    assert FilterOf(ids, who, f);
    var k :| k in who && k < |ids| && ids[k] == f;
  }

  /** What the rules tell apart, the filters of a layer that holds theirs tell apart. */
  lemma TellsUp(rules: seq<Rule>, transports: seq<Transport>, ids: seq<nat>, held: set<nat>, who: set<nat>,
                pick: Transport -> Ranges, pick6: Transport -> Ranges, protocols: set<nat>, i: nat, size: nat, u: nat,
                v: nat)
    requires Mirrors(rules, transports, ids, pick, pick6, protocols, i, size) && HoldsAll(held, ids, who)
    requires (forall k | 0 <= k < |ids| :: ids[k] < |transports|) && RuleTells(rules, who, protocols, i, size, u, v)
    ensures EitherTells(held, transports, pick, pick6, size, u, v)
  {
    hide Tells, Restricts;
    var k :| k in who && k < |rules| && Tells(Restricts(rules[k].proto, protocols, i), size, u, v);
    assert ids[k] in held;
  }

  lemma SplitsDown(rules: seq<Rule>, transports: seq<Transport>, ids: seq<nat>, held: set<nat>, who: set<nat>,
                   pick: Transport -> Ranges, pick6: Transport -> Ranges, protocols: set<nat>, i: nat, size: nat)
    requires Mirrors(rules, transports, ids, pick, pick6, protocols, i, size) && HeldBy(held, ids, who)
    requires forall u: nat, v: nat | u < v < size :: EitherTells(held, transports, pick, pick6, size, u, v)
    ensures Splits(rules, who, protocols, i, size)
  {
    hide Mirrors, HeldBy, EitherTells, RuleTells;
    forall u: nat, v: nat | u < v < size
      ensures RuleTells(rules, who, protocols, i, size, u, v)
    {
      TellsDown(rules, transports, ids, held, who, pick, pick6, protocols, i, size, u, v);
    }
  }

  lemma SplitsUp(rules: seq<Rule>, transports: seq<Transport>, ids: seq<nat>, held: set<nat>, who: set<nat>,
                 pick: Transport -> Ranges, pick6: Transport -> Ranges, protocols: set<nat>, i: nat, size: nat)
    requires Mirrors(rules, transports, ids, pick, pick6, protocols, i, size) && HoldsAll(held, ids, who)
    requires (forall k | 0 <= k < |ids| :: ids[k] < |transports|) && Splits(rules, who, protocols, i, size)
    ensures forall u: nat, v: nat | u < v < size ::
              FieldTells(held, transports, pick, size, u, v) || FieldTells(held, transports, pick6, size, u, v)
  {
    hide Mirrors, HoldsAll, FieldTells, RuleTells;
    forall u: nat, v: nat | u < v < size
      ensures FieldTells(held, transports, pick, size, u, v) || FieldTells(held, transports, pick6, size, u, v)
    {
      TellsUp(rules, transports, ids, held, who, pick, pick6, protocols, i, size, u, v);
    }
  }

  /** Every field of a filter tells apart what the rule says about it. */
  lemma MadeTells(t: Transport, f: Option<Proto>, u: nat, v: nat)
    requires MadeFrom(t, f)
    ensures Tells(t.protocol, 256, u, v) <==> Tells(Restricts(f, {}, 0), 256, u, v)
    ensures Tells(t.tcpSource, 65536, u, v) <==> Tells(Restricts(f, {TCP}, 1), 65536, u, v)
    ensures Tells(t.tcpDestination, 65536, u, v) <==> Tells(Restricts(f, {TCP}, 2), 65536, u, v)
    ensures Tells(t.tcpFlags, 256, u, v) <==> Tells(Restricts(f, {TCP}, 3), 256, u, v)
    ensures Tells(t.udpSource, 65536, u, v) <==> Tells(Restricts(f, {UDP}, 1), 65536, u, v)
    ensures Tells(t.udpDestination, 65536, u, v) <==> Tells(Restricts(f, {UDP}, 2), 65536, u, v)
    ensures Tells(t.icmpTypeCode, 65536, u, v) || Tells(t.icmp6TypeCode, 65536, u, v)
            <==> Tells(Restricts(f, {ICMP, ICMPV6}, 1), 65536, u, v)
    ensures Tells(t.icmpIdentifier, 65536, u, v) || Tells(t.icmp6Identifier, 65536, u, v)
            <==> Tells(Restricts(f, {ICMP, ICMPV6}, 2), 65536, u, v)
  {
    hide FieldIs, Tells, Restricts;
    KindTellsAsRule(t.protocol, f, u, v);
    FieldTellsAsRule(t.tcpSource, f, TCP, 1, 65536, u, v);
    FieldTellsAsRule(t.tcpDestination, f, TCP, 2, 65536, u, v);
    FieldTellsAsRule(t.tcpFlags, f, TCP, 3, 256, u, v);
    FieldTellsAsRule(t.udpSource, f, UDP, 1, 65536, u, v);
    FieldTellsAsRule(t.udpDestination, f, UDP, 2, 65536, u, v);
    FieldTellsAsRule(t.icmpTypeCode, f, ICMP, 1, 65536, u, v);
    FieldTellsAsRule(t.icmp6TypeCode, f, ICMPV6, 1, 65536, u, v);
    FieldTellsAsRule(t.icmpIdentifier, f, ICMP, 2, 65536, u, v);
    FieldTellsAsRule(t.icmp6Identifier, f, ICMPV6, 2, 65536, u, v);
    SharedTellsAsRule(f, 1, u, v);
    SharedTellsAsRule(f, 2, u, v);
  }

  lemma KindTellsAsRule(field: Ranges, f: Option<Proto>, u: nat, v: nat)
    requires CutIs(field, true, KindOf(f), 256)
    ensures Tells(field, 256, u, v) <==> Tells(Restricts(f, {}, 0), 256, u, v)
  {
    hide Visits;
    NothingVisited(256);
  }

  lemma SharedTellsAsRule(f: Option<Proto>, i: nat, u: nat, v: nat)
    requires i > 0
    ensures Tells(Restricts(f, {ICMP}, i), 65536, u, v) || Tells(Restricts(f, {ICMPV6}, i), 65536, u, v)
            <==> Tells(Restricts(f, {ICMP, ICMPV6}, i), 65536, u, v)
  {
    hide Visits;
    NothingVisited(65536);
  }

  // ----- layers and rules -------------------------------------------------------------------

  lemma MirrorAll(rules: seq<Rule>, transports: seq<Transport>, ids: seq<nat>, protos: seq<Option<Proto>>)
    requires TransportsFit(rules, transports, ids, protos)
    ensures Mirrors(rules, transports, ids, (t: Transport) => t.protocol, (t: Transport) => t.protocol, {}, 0, 256)
    ensures Mirrors(rules, transports, ids, (t: Transport) => t.tcpSource, (t: Transport) => t.tcpSource, {TCP}, 1,
                    65536)
    ensures Mirrors(rules, transports, ids, (t: Transport) => t.tcpDestination, (t: Transport) => t.tcpDestination,
                    {TCP}, 2, 65536)
    ensures Mirrors(rules, transports, ids, (t: Transport) => t.tcpFlags, (t: Transport) => t.tcpFlags, {TCP}, 3, 256)
    ensures Mirrors(rules, transports, ids, (t: Transport) => t.udpSource, (t: Transport) => t.udpSource, {UDP}, 1,
                    65536)
    ensures Mirrors(rules, transports, ids, (t: Transport) => t.udpDestination, (t: Transport) => t.udpDestination,
                    {UDP}, 2, 65536)
    ensures Mirrors(rules, transports, ids, (t: Transport) => t.icmpTypeCode, (t: Transport) => t.icmp6TypeCode,
                    {ICMP, ICMPV6}, 1, 65536)
    ensures Mirrors(rules, transports, ids, (t: Transport) => t.icmpIdentifier, (t: Transport) => t.icmp6Identifier,
                    {ICMP, ICMPV6}, 2, 65536)
  {
    hide MadeFrom, Tells, Restricts, Unmixed, ProtoSized;
    forall k, u: nat, v: nat | 0 <= k < |rules|
    {
      MadeTells(transports[ids[k]], rules[k].proto, u, v);
    }
  }

  /** If a layer overflows whose filters all belong to rules in `who`, these rules overflow. */
  lemma OverflowDown(rules: seq<Rule>, transports: seq<Transport>, ids: seq<nat>, protos: seq<Option<Proto>>,
                     held: set<nat>, who: set<nat>)
    requires TransportsFit(rules, transports, ids, protos) && HeldBy(held, ids, who) && Overflows(held, transports)
    ensures RulesOverflow(rules, who)
  {
    MirrorAll(rules, transports, ids, protos);
    hide TransportsFit, HeldBy, Mirrors, FieldTells, RuleTells;
    if SplitsAll(held, transports, (t: Transport) => t.protocol, 256) {
      SplitsDown(rules, transports, ids, held, who, (t: Transport) => t.protocol, (t: Transport) => t.protocol, {}, 0,
                 256);
    } else if SplitsAll(held, transports, (t: Transport) => t.tcpSource, 65536) {
      SplitsDown(rules, transports, ids, held, who, (t: Transport) => t.tcpSource, (t: Transport) => t.tcpSource, {TCP},
                 1, 65536);
    } else if SplitsAll(held, transports, (t: Transport) => t.tcpDestination, 65536) {
      SplitsDown(rules, transports, ids, held, who, (t: Transport) => t.tcpDestination,
                 (t: Transport) => t.tcpDestination, {TCP}, 2, 65536);
    } else if SplitsAll(held, transports, (t: Transport) => t.tcpFlags, 256) {
      SplitsDown(rules, transports, ids, held, who, (t: Transport) => t.tcpFlags, (t: Transport) => t.tcpFlags, {TCP},
                 3, 256);
    } else if SplitsAll(held, transports, (t: Transport) => t.udpSource, 65536) {
      SplitsDown(rules, transports, ids, held, who, (t: Transport) => t.udpSource, (t: Transport) => t.udpSource, {UDP},
                 1, 65536);
    } else if SplitsAll(held, transports, (t: Transport) => t.udpDestination, 65536) {
      SplitsDown(rules, transports, ids, held, who, (t: Transport) => t.udpDestination,
                 (t: Transport) => t.udpDestination, {UDP}, 2, 65536);
    } else if SplitsShared(held, transports, (t: Transport) => t.icmpTypeCode, (t: Transport) => t.icmp6TypeCode) {
      SplitsDown(rules, transports, ids, held, who, (t: Transport) => t.icmpTypeCode, (t: Transport) => t.icmp6TypeCode,
                 {ICMP, ICMPV6}, 1, 65536);
    } else {
      SplitsDown(rules, transports, ids, held, who, (t: Transport) => t.icmpIdentifier,
                 (t: Transport) => t.icmp6Identifier, {ICMP, ICMPV6}, 2, 65536);
    }
  }

  /** If rules overflow, so does every layer that holds all their filters. */
  lemma OverflowUp(rules: seq<Rule>, transports: seq<Transport>, ids: seq<nat>, protos: seq<Option<Proto>>,
                   held: set<nat>, who: set<nat>)
    requires TransportsFit(rules, transports, ids, protos) && HoldsAll(held, ids, who) && RulesOverflow(rules, who)
    ensures Overflows(held, transports)
  {
    MirrorAll(rules, transports, ids, protos);
    assert |ids| == |rules| && forall k | 0 <= k < |ids| :: ids[k] < |transports|;
    hide TransportsFit, HoldsAll, Mirrors, FieldTells, RuleTells, Splits;
    if Splits(rules, who, {}, 0, 256) {
      SplitsUp(rules, transports, ids, held, who, (t: Transport) => t.protocol, (t: Transport) => t.protocol, {}, 0,
               256);
    } else if Splits(rules, who, {TCP}, 1, 65536) {
      SplitsUp(rules, transports, ids, held, who, (t: Transport) => t.tcpSource, (t: Transport) => t.tcpSource, {TCP},
               1, 65536);
    } else if Splits(rules, who, {TCP}, 2, 65536) {
      SplitsUp(rules, transports, ids, held, who, (t: Transport) => t.tcpDestination,
               (t: Transport) => t.tcpDestination, {TCP}, 2, 65536);
    } else if Splits(rules, who, {TCP}, 3, 256) {
      SplitsUp(rules, transports, ids, held, who, (t: Transport) => t.tcpFlags, (t: Transport) => t.tcpFlags, {TCP}, 3,
               256);
    } else if Splits(rules, who, {UDP}, 1, 65536) {
      SplitsUp(rules, transports, ids, held, who, (t: Transport) => t.udpSource, (t: Transport) => t.udpSource, {UDP},
               1, 65536);
    } else if Splits(rules, who, {UDP}, 2, 65536) {
      SplitsUp(rules, transports, ids, held, who, (t: Transport) => t.udpDestination,
               (t: Transport) => t.udpDestination, {UDP}, 2, 65536);
    } else if Splits(rules, who, {ICMP, ICMPV6}, 1, 65536) {
      SplitsUp(rules, transports, ids, held, who, (t: Transport) => t.icmpTypeCode, (t: Transport) => t.icmp6TypeCode,
               {ICMP, ICMPV6}, 1, 65536);
    } else {
      SplitsUp(rules, transports, ids, held, who, (t: Transport) => t.icmpIdentifier,
               (t: Transport) => t.icmp6Identifier, {ICMP, ICMPV6}, 2, 65536);
    }
  }

  // ----- how many ranges it takes -----------------------------------------------------------

  /** The values at which the ranges begin, and those behind their ends. */
  ghost function Ends(rs: Ranges): (ends: set<nat>)
    ensures |ends| <= 2 * |rs|
    ensures forall i | 0 <= i < |rs| :: rs[i].0 in ends && rs[i].1 + 1 in ends
  {
    if rs == [] then {}
    else
      var rest := Ends(rs[1..]);
      assert forall i | 0 < i < |rs| :: rs[i] == rs[1..][i - 1];
      rest + {rs[0].0} + {rs[0].1 + 1}
  }

  ghost function AllEnds(filters: seq<Ranges>): (ends: set<nat>)
    ensures |ends| <= 2 * RangeCount(filters)
    ensures forall k, x | 0 <= k < |filters| && x in Ends(filters[k]) :: x in ends
  {
    if filters == [] then {}
    else
      var rest := AllEnds(filters[1..]);
      assert forall k | 0 < k < |filters| :: filters[k] == filters[1..][k - 1];
      rest + Ends(filters[0])
  }

  ghost function RangeCount(filters: seq<Ranges>): nat {
    if filters == [] then 0 else |filters[0]| + RangeCount(filters[1..])
  }

  /** Two neighbours are told apart only by a range that begins or ends between them. */
  lemma NeighbourEnds(rs: Ranges, size: nat, v: nat)
    requires Tells(rs, size, v, v + 1)
    ensures v + 1 in Ends(rs)
  {
    var i :| 0 <= i < |rs| && !(InRange(rs[i], v) <==> InRange(rs[i], v + 1));
  }

  /** The numbers from 1 to n. */
  ghost function UpTo(n: nat): (r: set<nat>)
    ensures |r| == n && forall x :: x in r <==> 0 < x <= n
  {
    if n == 0 then {} else UpTo(n - 1) + {n}
  }

  lemma {:induction false} SubsetSize(a: set<nat>, b: set<nat>)
    requires a <= b
    ensures |a| <= |b|
  {
    if a != {} {
      var x :| x in a;
      SubsetSize(a - {x}, b - {x});
    }
  }

  /** To tell every two of `size` values apart takes at least (size - 1) / 2 ranges. */
  lemma ApartNeeds(filters: seq<Ranges>, size: nat)
    requires AllApart(filters, size) && size > 0
    ensures size <= 2 * RangeCount(filters) + 1
  {
    hide Tells, Ends;
    forall x | x in UpTo(size - 1)
      ensures x in AllEnds(filters)
    {
      assert TellsApart(filters, size, x - 1, x);
      var k :| 0 <= k < |filters| && Tells(filters[k], size, x - 1, x);
      NeighbourEnds(filters[k], size, x - 1);
    }
    SubsetSize(UpTo(size - 1), AllEnds(filters));
  }

  /** The number of ranges in the protocol part of a rule. */
  function RangesIn(f: Option<Proto>): nat {
    if f.None? then 0
    else ListSize(f.value.kind) + ListSize(f.value.prm1) + ListSize(f.value.prm2) + ListSize(f.value.prm3)
  }

  function ListSize(prm: Option<Ranges>): nat {
    if prm.None? then 0 else |prm.value|
  }

  function TotalRanges(rules: seq<Rule>): nat {
    if rules == [] then 0 else RangesIn(rules[0].proto) + TotalRanges(rules[1..])
  }

  ghost function RestrictsAll(rules: seq<Rule>, protocols: set<nat>, i: nat): (r: seq<Ranges>)
    ensures |r| == |rules| && forall k | 0 <= k < |rules| :: r[k] == Restricts(rules[k].proto, protocols, i)
  {
    seq(|rules|, k requires 0 <= k < |rules| => Restricts(rules[k].proto, protocols, i))
  }

  lemma {:induction false} RestrictsCount(rules: seq<Rule>, protocols: set<nat>, i: nat)
    ensures RangeCount(RestrictsAll(rules, protocols, i)) <= TotalRanges(rules)
  {
    if rules != [] {
      RestrictsCount(rules[1..], protocols, i);
      assert RestrictsAll(rules, protocols, i)[1..] == RestrictsAll(rules[1..], protocols, i);
    }
  }

  lemma SplitsNeeds(rules: seq<Rule>, who: set<nat>, protocols: set<nat>, i: nat, size: nat)
    requires Splits(rules, who, protocols, i, size) && size > 0
    ensures size <= 2 * TotalRanges(rules) + 1
  {
    hide Tells, Restricts;
    var filters := RestrictsAll(rules, protocols, i);
    forall u: nat, v: nat | u < v < size
      ensures TellsApart(filters, size, u, v)
    {
      assert RuleTells(rules, who, protocols, i, size, u, v);
      var k :| k in who && k < |rules| && Tells(Restricts(rules[k].proto, protocols, i), size, u, v);
      assert Tells(filters[k], size, u, v);
    }
    ApartNeeds(filters, size);
    RestrictsCount(rules, protocols, i);
  }

  /** Rules with at most 127 ranges in all never overflow. */
  lemma FewRangesFit(rules: seq<Rule>, who: set<nat>)
    requires TotalRanges(rules) < 128
    ensures !RulesOverflow(rules, who)
  {
    hide Splits;
    if Splits(rules, who, {}, 0, 256) {
      SplitsNeeds(rules, who, {}, 0, 256);
    }
    if Splits(rules, who, {TCP}, 3, 256) {
      SplitsNeeds(rules, who, {TCP}, 3, 256);
    }
    if protocols, i :| Splits(rules, who, protocols, i, 65536) {
      SplitsNeeds(rules, who, protocols, i, 65536);
    }
  }

  /** 128 rules, each for a window of 128 protocols. */
  function Windows(rule: Rule, n: nat): (rules: seq<Rule>)
    ensures |rules| == n && forall k | 0 <= k < n :: rules[k] == rule.(proto := Window(k))
  {
    seq(n, k requires 0 <= k < n => rule.(proto := Window(k)))
  }

  function Window(k: nat): Option<Proto> {
    Some(Proto(Some([(k + 1, k + 128)]), None, None, None))
  }

  /** The bound is tight: 128 ranges can tell all protocols apart. */
  lemma WindowsOverflow(rule: Rule, who: set<nat>)
    requires forall k | 0 <= k < 128 :: k in who
    ensures TotalRanges(Windows(rule, 128)) == 128
    ensures RulesOverflow(Windows(rule, 128), who)
  {
    var rules := Windows(rule, 128);
    WindowCount(rule, 128);
    forall u: nat, v: nat | u < v < 256
      ensures RuleTells(rules, who, {}, 0, 256, u, v)
    {
      var k := if v <= 128 then v - 1 else if u < 128 then 127 else u - 128;
      assert k in who;
      WindowTells(k, u, v);
    }
  }

  lemma {:induction false} WindowCount(rule: Rule, n: nat)
    ensures TotalRanges(Windows(rule, n)) == n
  {
    if n > 0 {
      SameRanges(Windows(rule, n)[1..], Windows(rule, n - 1));
      WindowCount(rule, n - 1);
    }
  }

  lemma {:induction false} SameRanges(a: seq<Rule>, b: seq<Rule>)
    requires |a| == |b| && forall k | 0 <= k < |a| :: RangesIn(a[k].proto) == RangesIn(b[k].proto)
    ensures TotalRanges(a) == TotalRanges(b)
  {
    if a != [] {
      SameRanges(a[1..], b[1..]);
    }
  }

  lemma WindowTells(k: nat, u: nat, v: nat)
    requires k < 128 && !(k + 1 <= u <= k + 128 <==> k + 1 <= v <= k + 128)
    ensures Tells(Restricts(Window(k), {}, 0), 256, u, v)
  {
    var rs := Restricts(Window(k), {}, 0);
    assert rs == [(k + 1, k + 128)] && !Full(rs[0], 256);
    assert InRange(rs[0], u) ==> Visits(rs, |rs|, 256, u);
    assert InRange(rs[0], v) ==> Visits(rs, |rs|, 256, v);
  }
}
