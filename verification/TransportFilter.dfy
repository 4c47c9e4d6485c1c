/**
  What a rule matches at transport level (`filter_transport`, `filter_network_flag`): the protocol
  part of a rule becomes one list of ranges per header field.
*/
module TransportFilter {
  import opened Base
  import opened Flat

  const ICMP: nat := 1
  const TCP: nat := 6
  const UDP: nat := 17
  const ICMPV6: nat := 58

  /** The protocol part of a rule; the parameters are ports (TCP, UDP), type and identifier (ICMP), and TCP flags. */
  datatype Proto = Proto(kind: Option<Ranges>, prm1: Option<Ranges>, prm2: Option<Ranges>, prm3: Option<Ranges>)

  /** The transport header of a packet; a fragment that is not the first has none. */
  datatype Segment = Segment(protocol: nat, headless: bool, prm1: nat, prm2: nat, prm3: nat) {
    ghost predicate Valid() {
      protocol < 256 && prm1 < 65536 && prm2 < 65536 && prm3 < 256
    }
  }

  ghost predicate Allows(prm: Option<Ranges>, v: nat) {
    prm.None? || InRanges(prm.value, v)
  }

  /** The segment matches the protocol part of a rule: ICMP is 1, TCP 6, UDP 17 and ICMPv6 58. */
  ghost predicate Matches(f: Option<Proto>, s: Segment) {
    || f.None? || f.value.kind.None?
    || (InRanges(f.value.kind.value, s.protocol)
        && (s.headless
            || (s.protocol in {1, 6, 17, 58} ==>
                  Allows(f.value.prm1, s.prm1) && Allows(f.value.prm2, s.prm2)))
        && (s.headless || (s.protocol == 6 ==> Allows(f.value.prm3, s.prm3))))
  }

  datatype Transport = Transport(protocol: Ranges, tcpSource: Ranges, tcpDestination: Ranges, tcpFlags: Ranges,
                                 udpSource: Ranges, udpDestination: Ranges, icmpTypeCode: Ranges,
                                 icmpIdentifier: Ranges,
                                 icmp6TypeCode: Ranges, icmp6Identifier: Ranges)

  const ANY8: Ranges := [(0, 255)]
  const ANY16: Ranges := [(0, 65535)]

  /**
    The field matches exactly the values that the parameter allows, if the protocol is `on`, and else
    nothing; its ranges that are not full cover what those of the parameter cover.
  */
  ghost predicate FieldIs(field: Ranges, on: bool, prm: Option<Ranges>, size: nat) {
    && Within(field, size) && (forall v: nat | v < size :: InRanges(field, v) <==> on && Allows(prm, v))
    && CutIs(field, on, prm, size)
  }

  ghost predicate CutIs(field: Ranges, on: bool, prm: Option<Ranges>, size: nat) {
    forall v: nat :: Visits(field, |field|, size, v) <==> on && prm.Some? && Visits(prm.value, |prm.value|, size, v)
  }

  ghost predicate On(f: Option<Proto>, protocol: nat) {
    f.None? || f.value.kind.None? || InRanges(f.value.kind.value, protocol)
  }

  /** The parameters count only together with a protocol list. */
  ghost function Prm(f: Option<Proto>, i: nat): Option<Ranges> {
    if f.None? || f.value.kind.None? then None
    else if i == 1 then f.value.prm1 else if i == 2 then f.value.prm2 else f.value.prm3
  }

  ghost function KindOf(f: Option<Proto>): Option<Ranges> {
    if f.None? then None else f.value.kind
  }

  /** The fields hold what the rule says. */
  ghost predicate MadeFrom(t: Transport, f: Option<Proto>) {
    && Within(t.protocol, 256) && (forall v: nat | v < 256 :: InRanges(t.protocol, v) <==> On(f, v))
       && CutIs(t.protocol, true, KindOf(f), 256)
    && FieldIs(t.tcpSource, On(f, TCP), Prm(f, 1), 65536) && FieldIs(t.tcpDestination, On(f, TCP), Prm(f, 2), 65536)
    && FieldIs(t.tcpFlags, On(f, TCP), Prm(f, 3), 256)
    && FieldIs(t.udpSource, On(f, UDP), Prm(f, 1), 65536) && FieldIs(t.udpDestination, On(f, UDP), Prm(f, 2), 65536)
    && FieldIs(t.icmpTypeCode, On(f, ICMP), Prm(f, 1), 65536)
       && FieldIs(t.icmpIdentifier, On(f, ICMP), Prm(f, 2), 65536)
    && FieldIs(t.icmp6TypeCode, On(f, ICMPV6), Prm(f, 1), 65536)
       && FieldIs(t.icmp6Identifier, On(f, ICMPV6), Prm(f, 2), 65536)
  }

  /** Ranges of a rule stay within their field. */
  ghost predicate ProtoSized(f: Option<Proto>) {
    f.Some? ==>
      && (f.value.kind.Some? ==> Within(f.value.kind.value, 256))
      && (f.value.prm1.Some? ==> Within(f.value.prm1.value, 65536))
      && (f.value.prm2.Some? ==> Within(f.value.prm2.value, 65536))
      && (f.value.prm3.Some? ==> Within(f.value.prm3.value, 256))
  }

  /** No filter with parameters mixes UDP with one of the ICMP protocols. */
  ghost predicate Unmixed(f: Option<Proto>) {
    f.Some? && f.value.kind.Some? && On(f, 17) && (On(f, 1) || On(f, 58)) ==>
      f.value.prm1.None? && f.value.prm2.None?
  }

  ghost predicate BadFlags(f: Option<Proto>) {
    f.Some? && f.value.kind.Some? && f.value.prm3.Some? && (On(f, 17) || On(f, 1) || On(f, 58))
  }

  function Any(): Transport {
    Transport(ANY8, ANY16, ANY16, ANY8, ANY16, ANY16, ANY16, ANY16, ANY16, ANY16)
  }

  function Insert(field: Ranges, prm: Option<Ranges>, any: Ranges): Ranges {
    field + if prm.Some? then prm.value else any
  }

  lemma AnyFull(v: nat)
    ensures v < 256 ==> InRanges(ANY8, v)
    ensures v < 65536 ==> InRanges(ANY16, v)
  {
    assert InRange(ANY8[0], v) <==> v < 256;
    assert InRange(ANY16[0], v) <==> v < 65536;
  }

  lemma AnyIs()
    ensures MadeFrom(Any(), None)
    ensures forall p: Proto | p.kind.None? :: MadeFrom(Any(), Some(p))
  {
    forall v: nat { AnyFull(v); }
  }

  lemma InsertIs(field: Ranges, on: bool, prm: Option<Ranges>, any: Ranges, size: nat)
    requires FieldIs(field, on, prm, size) && (size == 256 || size == 65536)
             && any == (if size == 256 then ANY8 else ANY16)
    requires prm.Some? ==> Within(prm.value, size)
    ensures FieldIs(Insert(field, prm, any), true, prm, size)
  {
    var more := if prm.Some? then prm.value else any;
    forall v: nat | v < size
      ensures InRanges(Insert(field, prm, any), v) <==> Allows(prm, v)
    {
      AnyFull(v);
      InBoth(field, more, v);
    }
    forall v: nat
      ensures Visits(field + more, |field + more|, size, v) <==> prm.Some? && Visits(prm.value, |prm.value|, size, v)
    {
      VisitsBoth(field, more, size, v);
    }
  }

  lemma VisitsBoth(a: Ranges, b: Ranges, size: nat, v: nat)
    ensures Visits(a + b, |a + b|, size, v) <==> Visits(a, |a|, size, v) || Visits(b, |b|, size, v)
  {
    if i :| 0 <= i < |a| && !Full(a[i], size) && InRange(a[i], v) {
      assert (a + b)[i] == a[i];
    }
    if i :| 0 <= i < |b| && !Full(b[i], size) && InRange(b[i], v) {
      assert (a + b)[|a| + i] == b[i];
    }
  }

  lemma InBoth(a: Ranges, b: Ranges, v: nat)
    ensures InRanges(a + b, v) <==> InRanges(a, v) || InRanges(b, v)
  {
    if i :| 0 <= i < |a| && InRange(a[i], v) {
      assert InRange((a + b)[i], v);
    }
    if i :| 0 <= i < |b| && InRange(b[i], v) {
      assert InRange((a + b)[|a| + i], v);
    }
  }

  /** The protocols that the loops have met so far. */
  ghost predicate Met(kind: Ranges, k: nat, next: nat, protocol: nat) {
    || (exists i :: 0 <= i < k && i < |kind| && InRange(kind[i], protocol))
    || (k < |kind| && kind[k].0 <= protocol < next)
  }

  ghost predicate MadeTo(t: Transport, p: Proto, k: nat, next: nat)
    requires p.kind.Some?
  {
    && FieldIs(t.tcpSource, Met(p.kind.value, k, next, TCP), p.prm1, 65536)
    && FieldIs(t.tcpDestination, Met(p.kind.value, k, next, TCP), p.prm2, 65536)
    && FieldIs(t.tcpFlags, Met(p.kind.value, k, next, TCP), p.prm3, 256)
    && FieldIs(t.udpSource, Met(p.kind.value, k, next, UDP), p.prm1, 65536)
    && FieldIs(t.udpDestination, Met(p.kind.value, k, next, UDP), p.prm2, 65536)
    && FieldIs(t.icmpTypeCode, Met(p.kind.value, k, next, ICMP), p.prm1, 65536)
    && FieldIs(t.icmpIdentifier, Met(p.kind.value, k, next, ICMP), p.prm2, 65536)
    && FieldIs(t.icmp6TypeCode, Met(p.kind.value, k, next, ICMPV6), p.prm1, 65536)
    && FieldIs(t.icmp6Identifier, Met(p.kind.value, k, next, ICMPV6), p.prm2, 65536)
    && (p.prm3.Some? ==>
          !Met(p.kind.value, k, next, UDP) && !Met(p.kind.value, k, next, ICMP) && !Met(p.kind.value, k, next, ICMPV6))
  }

  /** The body of the loops of the constructor of `filter_transport` for one protocol; None stands for its error. */
  function AddProtocol(t: Transport, p: Proto, protocol: nat): Option<Transport> {
    if protocol == TCP then
      Some(t.(tcpSource := Insert(t.tcpSource, p.prm1, ANY16),
              tcpDestination := Insert(t.tcpDestination, p.prm2, ANY16),
              tcpFlags := Insert(t.tcpFlags, p.prm3, ANY8)))
    else if protocol == UDP then
      if p.prm3.Some? then None
      else Some(t.(udpSource := Insert(t.udpSource, p.prm1, ANY16),
                   udpDestination := Insert(t.udpDestination, p.prm2, ANY16)))
    else if protocol == ICMP then
      if p.prm3.Some? then None
      else Some(t.(icmpTypeCode := Insert(t.icmpTypeCode, p.prm1, ANY16),
                   icmpIdentifier := Insert(t.icmpIdentifier, p.prm2, ANY16)))
    else if protocol == ICMPV6 then
      if p.prm3.Some? then None
      else Some(t.(icmp6TypeCode := Insert(t.icmp6TypeCode, p.prm1, ANY16),
                   icmp6Identifier := Insert(t.icmp6Identifier, p.prm2, ANY16)))
    else Some(t)
  }

  lemma MetStep(kind: Ranges, k: nat, next: nat, protocol: nat)
    requires k < |kind| && InRange(kind[k], next)
    ensures Met(kind, k, next + 1, protocol) <==> Met(kind, k, next, protocol) || protocol == next
  {
  }

  lemma MetNext(kind: Ranges, k: nat, next: nat, protocol: nat)
    requires k < |kind| && next >= kind[k].0 && (next == kind[k].1 + 1 || (next == kind[k].0 && next > kind[k].1))
    ensures Met(kind, k + 1, if k + 1 < |kind| then kind[k + 1].0 else 0, protocol) <==> Met(kind, k, next, protocol)
  {
    if i :| 0 <= i < k + 1 && i < |kind| && InRange(kind[i], protocol) {
      if i == k {
        assert kind[k].0 <= protocol < next;
      }
    }
  }

  lemma AddStep(t: Transport, p: Proto, k: nat, next: nat)
    requires p.kind.Some? && ProtoSized(Some(p)) && MadeTo(t, p, k, next) && k < |p.kind.value|
             && InRange(p.kind.value[k], next)
    ensures var r := AddProtocol(t, p, next);
            if r.Some? then r.value.protocol == t.protocol && MadeTo(r.value, p, k, next + 1) else BadFlags(Some(p))
  {
    hide FieldIs, Within;
    forall protocol: nat { MetStep(p.kind.value, k, next, protocol); }
    hide Met;
    var kind := p.kind.value;
    if next == TCP {
      InsertIs(t.tcpSource, Met(kind, k, next, TCP), p.prm1, ANY16, 65536);
      InsertIs(t.tcpDestination, Met(kind, k, next, TCP), p.prm2, ANY16, 65536);
      InsertIs(t.tcpFlags, Met(kind, k, next, TCP), p.prm3, ANY8, 256);
    } else if next == UDP {
      InsertIs(t.udpSource, Met(kind, k, next, UDP), p.prm1, ANY16, 65536);
      InsertIs(t.udpDestination, Met(kind, k, next, UDP), p.prm2, ANY16, 65536);
    } else if next == ICMP {
      InsertIs(t.icmpTypeCode, Met(kind, k, next, ICMP), p.prm1, ANY16, 65536);
      InsertIs(t.icmpIdentifier, Met(kind, k, next, ICMP), p.prm2, ANY16, 65536);
    } else if next == ICMPV6 {
      InsertIs(t.icmp6TypeCode, Met(kind, k, next, ICMPV6), p.prm1, ANY16, 65536);
      InsertIs(t.icmp6Identifier, Met(kind, k, next, ICMPV6), p.prm2, ANY16, 65536);
    }
  }

  /** What the loops make of the protocols from `next` in range k on. */
  ghost function AddFrom(t: Transport, p: Proto, k: nat, next: nat): Option<Transport>
    requires p.kind.Some?
    decreases |p.kind.value| - k, if k < |p.kind.value| then p.kind.value[k].1 + 1 - next else 0
  {
    var kind := p.kind.value;
    if k >= |kind| then Some(t)
    else if next > kind[k].1 then AddFrom(t, p, k + 1, if k + 1 < |kind| then kind[k + 1].0 else 0)
    else
      var added := AddProtocol(t, p, next);
      if added.None? then None else AddFrom(added.value, p, k, next + 1)
  }

  /** The filter of a rule. */
  ghost function TransportOf(f: Option<Proto>): Option<Transport> {
    if f.None? || f.value.kind.None? then Some(Any())
    else
      var kind := f.value.kind.value;
      AddFrom(Transport(kind, [], [], [], [], [], [], [], [], []), f.value, 0, if kind == [] then 0 else kind[0].0)
  }

  /** The constructor of `filter_transport`; None stands for its error. */
  method Make(f: Option<Proto>) returns (r: Option<Transport>)
    requires ProtoSized(f)
    ensures r.None? <==> BadFlags(f)
    ensures r.Some? ==> MadeFrom(r.value, f)
    ensures r == TransportOf(f)
  {
    hide FieldIs, Met, BadFlags, MadeFrom, AddProtocol, Within, InRanges, Any;
    if f.None? || f.value.kind.None? {
      AnyMade(f);
      return Some(Any());
    }
    var p := f.value;
    var kind := p.kind.value;
    var t := Transport(kind, [], [], [], [], [], [], [], [], []);
    MadeStart(t, p);
    for k := 0 to |kind|
      invariant t.protocol == kind && MadeTo(t, p, k, if k < |kind| then kind[k].0 else 0)
      invariant AddFrom(t, p, k, if k < |kind| then kind[k].0 else 0) == TransportOf(f)
    {
      var next := kind[k].0;
      while next <= kind[k].1
        invariant next >= kind[k].0 && (next <= kind[k].1 + 1 || next == kind[k].0)
        invariant t.protocol == kind && MadeTo(t, p, k, next) && AddFrom(t, p, k, next) == TransportOf(f)
      {
        AddStep(t, p, k, next);
        var added := AddProtocol(t, p, next);
        if added.None? {
          return None;
        }
        t := added.value;
        next := next + 1;
      }
      forall protocol: nat { MetNext(kind, k, next, protocol); }
    }
    MadeAll(t, p);
    return Some(t);
  }

  lemma AnyMade(f: Option<Proto>)
    requires f.None? || f.value.kind.None?
    ensures MadeFrom(Any(), f) && !BadFlags(f)
  {
    hide FieldIs, InRanges, Within;
    AnyIs();
  }

  lemma MadeStart(t: Transport, p: Proto)
    requires p.kind.Some? && t == Transport(p.kind.value, [], [], [], [], [], [], [], [], [])
    ensures MadeTo(t, p, 0, if 0 < |p.kind.value| then p.kind.value[0].0 else 0)
  {
  }

  lemma MadeAll(t: Transport, p: Proto)
    requires p.kind.Some? && ProtoSized(Some(p)) && t.protocol == p.kind.value && MadeTo(t, p, |p.kind.value|, 0)
    ensures MadeFrom(t, Some(p)) && !BadFlags(Some(p))
  {
    var kind := p.kind.value;
    forall protocol: nat
      ensures Met(kind, |kind|, 0, protocol) <==> InRanges(kind, protocol)
    {
    }
    hide Met, InRanges, FieldIs;
  }

  // ----- matching by fields -----------------------------------------------------------------

  /** The segment matches the fields: the part of the header that its protocol has, and else the protocol alone. */
  ghost predicate FieldsMatch(t: Transport, s: Segment) {
    if s.headless then InRanges(t.protocol, s.protocol)
    else if s.protocol == TCP
         then InRanges(t.tcpSource, s.prm1) && InRanges(t.tcpDestination, s.prm2) && InRanges(t.tcpFlags, s.prm3)
    else if s.protocol == UDP then InRanges(t.udpSource, s.prm1) && InRanges(t.udpDestination, s.prm2)
    else if s.protocol == ICMP then InRanges(t.icmpTypeCode, s.prm1) && InRanges(t.icmpIdentifier, s.prm2)
    else if s.protocol == ICMPV6 then InRanges(t.icmp6TypeCode, s.prm1) && InRanges(t.icmp6Identifier, s.prm2)
    else InRanges(t.protocol, s.protocol)
  }

  /** The fields match exactly what the rule matches. */
  lemma FieldsAsRule(t: Transport, f: Option<Proto>, s: Segment)
    requires MadeFrom(t, f) && s.Valid()
    ensures FieldsMatch(t, s) <==> Matches(f, s)
  {
    hide InRanges, Within;
  }

  // ----- fragments --------------------------------------------------------------------------

  /** The three states of a packet with respect to fragmentation. */
  datatype Fragment = NotFragmented | First | NotFirst

  const FLAG_FRAGMENT: nat := 1
  const FLAG_NOT_FIRST: nat := 2
  const FLAG_EXTENSION: nat := 4

  /** The network flags of a packet: bit 2 is set only together with bit 1. */
  ghost predicate FlagsValid(flags: nat) {
    flags < 8 && (flags / 2 % 2 == 1 ==> flags % 2 == 1)
  }

  ghost function StateOf(flags: nat): Fragment {
    if flags % 2 == 0 then NotFragmented else if flags / 2 % 2 == 0 then First else NotFirst
  }

  function FragmentRanges(f: Fragment): Ranges {
    match f
    case NotFragmented => [(0, 0), (FLAG_EXTENSION, FLAG_EXTENSION)]
    case First => [(FLAG_FRAGMENT, FLAG_FRAGMENT), (FLAG_FRAGMENT + FLAG_EXTENSION, FLAG_FRAGMENT + FLAG_EXTENSION)]
    case NotFirst => [(FLAG_FRAGMENT + FLAG_NOT_FIRST, FLAG_FRAGMENT + FLAG_NOT_FIRST),
                      (FLAG_FRAGMENT + FLAG_NOT_FIRST + FLAG_EXTENSION,
                       FLAG_FRAGMENT + FLAG_NOT_FIRST + FLAG_EXTENSION)]
  }

  /** The constructor of `filter_network_flag`: the flag values of the listed states, or all values. */
  method MakeFlags(states: Option<seq<Fragment>>) returns (r: Ranges)
    ensures Within(r, 256)
    ensures forall flags | FlagsValid(flags) :: InRanges(r, flags) <==> states.None? || StateOf(flags) in states.value
    ensures forall i | 0 <= i < |r| :: r[i].1 < 8 || Full(r[i], 256)
  {
    if states.None? {
      r := ANY8;
      forall flags: nat { AnyFull(flags); }
      return;
    }
    r := [];
    for k := 0 to |states.value|
      invariant Within(r, 256) && forall i | 0 <= i < |r| :: r[i].1 < 8 || Full(r[i], 256)
      invariant forall flags | FlagsValid(flags) :: InRanges(r, flags) <==> StateOf(flags) in states.value[..k]
    {
      var more := FragmentRanges(states.value[k]);
      forall flags: nat | FlagsValid(flags)
        ensures InRanges(r + more, flags) <==> StateOf(flags) in states.value[..k + 1]
      {
        InBoth(r, more, flags);
        FragmentIs(states.value[k], flags);
        assert states.value[..k + 1] == states.value[..k] + [states.value[k]];
      }
      r := r + more;
    }
    assert states.value[..|states.value|] == states.value;
  }

  lemma FragmentIs(f: Fragment, flags: nat)
    requires FlagsValid(flags)
    ensures InRanges(FragmentRanges(f), flags) <==> StateOf(flags) == f
  {
    var rs := FragmentRanges(f);
    assert InRanges(rs, flags) <==> InRange(rs[0], flags) || InRange(rs[1], flags);
  }
}
