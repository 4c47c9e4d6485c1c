/**
  The transport table (`transport_table_t`): groups of index tuples (network flags, protocol,
  three header groups, network column), over all layers.
*/
module TransportTable {
  import opened Base
  import opened Flat
  import opened TransportFilter
  import opened TransportLayer

  /** The header part of an index: protocol group (from 0) and the groups of the header fields (0 for none). */
  datatype Header = Header(protocol: nat, group1: nat, group2: nat, group3: nat)

  // ----- the headers of a filter ------------------------------------------------------------

  ghost predicate TcpHeader(t: LayerTables, i: FieldIds, h: Header)
    requires Listable(t, i)
  {
    && h.protocol + 1 == t.protocol.values[TCP] && h.group1 in t.tcpSource.groups[i.tcpSource]
    && h.group2 in t.tcpDestination.groups[i.tcpDestination] && h.group3 in t.tcpFlags.groups[i.tcpFlags]
  }

  ghost predicate UdpHeader(t: LayerTables, i: FieldIds, h: Header)
    requires Listable(t, i)
  {
    && h.protocol + 1 == t.protocol.values[UDP] && h.group1 in t.udpSource.groups[i.udpSource]
    && h.group2 in t.udpDestination.groups[i.udpDestination] && h.group3 == 0
  }

  ghost predicate IcmpHeader(t: LayerTables, i: FieldIds, h: Header)
    requires Listable(t, i)
  {
    && h.protocol + 1 == t.protocol.values[ICMP] && h.group1 in t.icmpTypeCode.groups[i.icmpTypeCode]
    && h.group2 in t.icmpIdentifier.groups[i.icmpIdentifier] && h.group3 == 0
  }

  ghost predicate Icmp6Header(t: LayerTables, i: FieldIds, h: Header)
    requires Listable(t, i)
  {
    && h.protocol + 1 == t.protocol.values[ICMPV6] && h.group1 in t.icmpTypeCode.groups[i.icmp6TypeCode]
    && h.group2 in t.icmpIdentifier.groups[i.icmp6Identifier] && h.group3 == 0
  }

  ghost predicate PlainHeader(t: LayerTables, i: FieldIds, h: Header)
    requires Listable(t, i)
  {
    h.protocol + 1 in t.protocol.groups[i.protocol] && h.group1 == h.group2 == h.group3 == 0
  }

  /** The headers that the loops of `compile` and `populate` visit for a transport filter. */
  ghost predicate HeaderOf(t: LayerTables, i: FieldIds, h: Header)
    requires Listable(t, i)
  {
    PlainHeader(t, i, h) || TcpHeader(t, i, h) || UdpHeader(t, i, h) || IcmpHeader(t, i, h) || Icmp6Header(t, i, h)
  }

  ghost predicate Listable(t: LayerTables, i: FieldIds) {
    && t.protocol.Fits(256) && t.tcpSource.Fits(65536) && t.tcpDestination.Fits(65536) && t.tcpFlags.Fits(256)
    && t.udpSource.Fits(65536) && t.udpDestination.Fits(65536) && t.icmpTypeCode.Fits(65536)
       && t.icmpIdentifier.Fits(65536)
    && i.protocol < |t.protocol.groups| && i.tcpSource < |t.tcpSource.groups|
       && i.tcpDestination < |t.tcpDestination.groups|
    && i.tcpFlags < |t.tcpFlags.groups| && i.udpSource < |t.udpSource.groups|
       && i.udpDestination < |t.udpDestination.groups|
    && i.icmpTypeCode < |t.icmpTypeCode.groups| && i.icmpIdentifier < |t.icmpIdentifier.groups|
    && i.icmp6TypeCode < |t.icmpTypeCode.groups| && i.icmp6Identifier < |t.icmpIdentifier.groups|
  }

  /** All headers with the protocol and one group of each list, in the order of nested loops. */
  method Product(protocol: nat, xs: seq<nat>, ys: seq<nat>, zs: seq<nat>) returns (r: seq<Header>)
    ensures forall h :: h in r <==> h.protocol == protocol && h.group1 in xs && h.group2 in ys && h.group3 in zs
  {
    r := [];
    for i := 0 to |xs|
      invariant forall h ::
                  h in r <==> h.protocol == protocol && h.group1 in xs[..i] && h.group2 in ys && h.group3 in zs
    {
      var was := r;
      for j := 0 to |ys|
        invariant forall h ::
                    h in r
                    <==> h in was
                         || (h.protocol == protocol && h.group1 == xs[i] && h.group2 in ys[..j] && h.group3 in zs)
      {
        var before := r;
        for k := 0 to |zs|
          invariant forall h ::
                      h in r
                      <==> h in before
                           || (h.protocol == protocol && h.group1 == xs[i] && h.group2 == ys[j] && h.group3 in zs[..k])
        {
          assert zs[..k + 1] == zs[..k] + [zs[k]];
          r := r + [Header(protocol, xs[i], ys[j], zs[k])];
        }
        assert zs[..|zs|] == zs && ys[..j + 1] == ys[..j] + [ys[j]];
      }
      assert ys[..|ys|] == ys && xs[..i + 1] == xs[..i] + [xs[i]];
    }
    assert xs[..|xs|] == xs;
  }

  method Plain(groups: seq<nat>) returns (r: seq<Header>)
    requires forall g | g in groups :: g >= 1
    ensures forall h :: h in r <==> h.protocol + 1 in groups && h.group1 == h.group2 == h.group3 == 0
  {
    r := [];
    for i := 0 to |groups|
      invariant forall h :: h in r <==> h.protocol + 1 in groups[..i] && h.group1 == h.group2 == h.group3 == 0
    {
      assert groups[i] in groups && groups[..i + 1] == groups[..i] + [groups[i]];
      r := r + [Header(groups[i] - 1, 0, 0, 0)];
    }
    assert groups[..|groups|] == groups;
  }

  method Headers(t: LayerTables, i: FieldIds) returns (r: seq<Header>)
    requires Listable(t, i)
    ensures forall h :: h in r <==> HeaderOf(t, i, h)
  {
    hide InFirstOrder, Occurs, InRanges;
    var values := t.protocol.values;
    var plain := Plain(t.protocol.groups[i.protocol]);
    var tcp := Product(values[TCP] - 1, t.tcpSource.groups[i.tcpSource], t.tcpDestination.groups[i.tcpDestination],
                       t.tcpFlags.groups[i.tcpFlags]);
    var udp := Product(values[UDP] - 1, t.udpSource.groups[i.udpSource], t.udpDestination.groups[i.udpDestination],
                       [0]);
    var icmp := Product(values[ICMP] - 1, t.icmpTypeCode.groups[i.icmpTypeCode],
                        t.icmpIdentifier.groups[i.icmpIdentifier], [0]);
    var icmp6 := Product(values[ICMPV6] - 1, t.icmpTypeCode.groups[i.icmp6TypeCode],
                         t.icmpIdentifier.groups[i.icmp6Identifier], [0]);
    r := plain + tcp + udp + icmp + icmp6;
    hide FlatFits;
  }

  // ----- the header of a packet -------------------------------------------------------------

  /**
    The groups that the dataplane looks up for a packet: no header groups for headless fragments and other
    protocols.
  */
  function HeaderFor(t: LayerTables, s: Segment): Header
    requires s.protocol < |t.protocol.values| && t.protocol.values[s.protocol] >= 1
    requires s.prm1 < |t.tcpSource.values| && s.prm2 < |t.tcpDestination.values| && s.prm3 < |t.tcpFlags.values|
    requires s.prm1 < |t.udpSource.values| && s.prm2 < |t.udpDestination.values|
    requires s.prm1 < |t.icmpTypeCode.values| && s.prm2 < |t.icmpIdentifier.values|
  {
    var p := t.protocol.values[s.protocol] - 1;
    if s.headless then Header(p, 0, 0, 0)
    else if s.protocol == TCP
         then Header(p, t.tcpSource.values[s.prm1], t.tcpDestination.values[s.prm2], t.tcpFlags.values[s.prm3])
    else if s.protocol == UDP then Header(p, t.udpSource.values[s.prm1], t.udpDestination.values[s.prm2], 0)
    else if s.protocol == ICMP
         || s.protocol == ICMPV6 then Header(p, t.icmpTypeCode.values[s.prm1], t.icmpIdentifier.values[s.prm2], 0)
    else Header(p, 0, 0, 0)
  }

  ghost predicate AllMade(held: set<nat>, filters: seq<Transport>, protos: seq<Option<Proto>>) {
    |protos| == |filters| && forall f | f in held
    && f < |filters| :: MadeFrom(filters[f], protos[f]) && Unmixed(protos[f])
  }

  lemma InList(t: FlatTable, size: nat, i: nat, rs: Ranges, v: nat)
    requires t.Fits(size) && Is(t, i, rs) && v < size
    ensures i < |t.groups| && |t.values| == size && t.values[v] >= 1
    ensures InRanges(rs, v) <==> t.values[v] in t.groups[i]
  {
    hide InRanges, InFirstOrder, Occurs;
  }

  lemma ListPositive(t: FlatTable, size: nat, i: nat)
    requires t.Fits(size) && i < |t.groups|
    ensures 0 !in t.groups[i]
  {
    hide InRanges, InFirstOrder, Occurs;
  }

  lemma FitsListable(t: LayerTables, held: set<nat>, filters: seq<Transport>, f: nat)
    requires LayerFits(t, held, filters) && f in held
    ensures f < |filters| && f in t.ids && Listable(t, t.ids[f]) && IdsFit(t, t.ids[f], filters[f])
  {
    hide InRanges, InFirstOrder, Occurs;
  }

  /** Two protocols of one group are treated alike by every filter of the layer. */
  lemma SameProtocol(t: LayerTables, held: set<nat>, filters: seq<Transport>, protos: seq<Option<Proto>>, f: nat,
                     p: nat, q: nat)
    requires LayerFits(t, held, filters) && AllMade(held, filters, protos) && f in held && p < 256 && q < 256
    requires |t.protocol.values| == 256 && t.protocol.values[p] == t.protocol.values[q]
    ensures f < |protos| && (On(protos[f], p) <==> On(protos[f], q))
  {
    hide FlatFits, FieldIs, Unmixed, On;
    FitsListable(t, held, filters, f);
    InList(t.protocol, 256, t.ids[f].protocol, filters[f].protocol, p);
    InList(t.protocol, 256, t.ids[f].protocol, filters[f].protocol, q);
  }

  /** The header of a packet is one of the headers of a filter exactly when the filter matches the packet. */
  lemma HeaderMatch(t: LayerTables, held: set<nat>, filters: seq<Transport>, protos: seq<Option<Proto>>, f: nat,
                    s: Segment)
    requires LayerFits(t, held, filters) && AllMade(held, filters, protos) && f in held && s.Valid()
    requires Looks(t)
    ensures f < |protos| && f in t.ids && Listable(t, t.ids[f])
    ensures HeaderOf(t, t.ids[f], HeaderFor(t, s)) <==> Matches(protos[f], s)
  {
    FitsListable(t, held, filters, f);
    FieldsAsRule(filters[f], protos[f], s);
    if s.headless || s.protocol !in {TCP, UDP, ICMP, ICMPV6} {
      PlainMatch(t, held, filters, f, s);
    } else if s.protocol == TCP {
      TcpMatch(t, held, filters, f, s);
    } else if s.protocol == UDP {
      UdpMatch(t, held, filters, protos, f, s);
    } else {
      IcmpMatch(t, held, filters, protos, f, s);
    }
  }

  /** The classifiers cover their fields. */
  ghost predicate Looks(t: LayerTables) {
    && |t.protocol.values| == 256 && (forall v | 0 <= v < 256 :: t.protocol.values[v] >= 1)
    && |t.tcpSource.values| == |t.tcpDestination.values| == 65536 && |t.tcpFlags.values| == 256
    && |t.udpSource.values| == |t.udpDestination.values| == 65536
    && |t.icmpTypeCode.values| == |t.icmpIdentifier.values| == 65536
  }

  lemma FitsLooks(t: LayerTables, held: set<nat>, filters: seq<Transport>)
    requires LayerFits(t, held, filters)
    ensures Looks(t)
  {
    hide InRanges, InFirstOrder, Occurs;
  }

  lemma PlainMatch(t: LayerTables, held: set<nat>, filters: seq<Transport>, f: nat, s: Segment)
    requires LayerFits(t, held, filters) && f in held && s.Valid() && Looks(t) && f < |filters| && f in t.ids
             && Listable(t, t.ids[f])
    requires s.headless || s.protocol !in {TCP, UDP, ICMP, ICMPV6}
    ensures HeaderOf(t, t.ids[f], HeaderFor(t, s)) <==> FieldsMatch(filters[f], s)
  {
    FitsListable(t, held, filters, f);
    hide FlatFits, LayerFits, Looks;
    var i := t.ids[f];
    InList(t.protocol, 256, i.protocol, filters[f].protocol, s.protocol);
    ListPositive(t.tcpSource, 65536, i.tcpSource);
    ListPositive(t.udpSource, 65536, i.udpSource);
    ListPositive(t.icmpTypeCode, 65536, i.icmpTypeCode);
    ListPositive(t.icmpTypeCode, 65536, i.icmp6TypeCode);
  }

  lemma TcpMatch(t: LayerTables, held: set<nat>, filters: seq<Transport>, f: nat, s: Segment)
    requires LayerFits(t, held, filters) && f in held && s.Valid() && Looks(t) && f < |filters| && f in t.ids
             && Listable(t, t.ids[f])
    requires !s.headless && s.protocol == TCP
    ensures HeaderOf(t, t.ids[f], HeaderFor(t, s)) <==> FieldsMatch(filters[f], s)
  {
    FitsListable(t, held, filters, f);
    hide FlatFits, LayerFits, Looks;
    var i := t.ids[f];
    InList(t.tcpSource, 65536, i.tcpSource, filters[f].tcpSource, s.prm1);
    InList(t.tcpDestination, 65536, i.tcpDestination, filters[f].tcpDestination, s.prm2);
    InList(t.tcpFlags, 256, i.tcpFlags, filters[f].tcpFlags, s.prm3);
  }

  lemma UdpMatch(t: LayerTables, held: set<nat>, filters: seq<Transport>, protos: seq<Option<Proto>>, f: nat,
                 s: Segment)
    requires LayerFits(t, held, filters) && AllMade(held, filters, protos) && f in held && s.Valid() && Looks(t)
    requires f < |filters| && f in t.ids && Listable(t, t.ids[f]) && !s.headless && s.protocol == UDP
    ensures HeaderOf(t, t.ids[f], HeaderFor(t, s)) <==> FieldsMatch(filters[f], s)
  {
    FitsListable(t, held, filters, f);
    var i := t.ids[f];
    InList(t.udpSource, 65536, i.udpSource, filters[f].udpSource, s.prm1);
    InList(t.udpDestination, 65536, i.udpDestination, filters[f].udpDestination, s.prm2);
    ListPositive(t.tcpFlags, 256, i.tcpFlags);
    var h := HeaderFor(t, s);
    hide FlatFits, LayerFits, AllMade;
    if IcmpHeader(t, i, h) {
      SharedGroup(t, held, filters, protos, f, s, ICMP);
    }
    if Icmp6Header(t, i, h) {
      SharedGroup(t, held, filters, protos, f, s, ICMPV6);
    }
  }

  /** If UDP shares its group with an ICMP protocol that the filter lists, the filter has no parameters. */
  lemma SharedGroup(t: LayerTables, held: set<nat>, filters: seq<Transport>, protos: seq<Option<Proto>>, f: nat,
                    s: Segment, icmp: nat)
    requires LayerFits(t, held, filters) && AllMade(held, filters, protos) && f in held && s.Valid() && Looks(t)
    requires f < |filters| && f in t.ids && Listable(t, t.ids[f]) && !s.headless && s.protocol == UDP
    requires (icmp == ICMP && IcmpHeader(t, t.ids[f], HeaderFor(t, s)))
             || (icmp == ICMPV6 && Icmp6Header(t, t.ids[f], HeaderFor(t, s)))
    ensures FieldsMatch(filters[f], s)
  {
    SomeListed(t, held, filters, protos, f, icmp, HeaderFor(t, s).group1);
    SameProtocol(t, held, filters, protos, f, UDP, icmp);
    hide FlatFits, LayerFits, InRanges, Within;
  }

  /** A listed group of the ICMP classifier means that the filter lists the protocol. */
  lemma SomeListed(t: LayerTables, held: set<nat>, filters: seq<Transport>, protos: seq<Option<Proto>>, f: nat,
                   icmp: nat, g: nat)
    requires LayerFits(t, held, filters) && AllMade(held, filters, protos) && f in held && f < |filters| && f in t.ids
             && Listable(t, t.ids[f])
    requires (icmp == ICMP && g in t.icmpTypeCode.groups[t.ids[f].icmpTypeCode])
             || (icmp == ICMPV6 && g in t.icmpTypeCode.groups[t.ids[f].icmp6TypeCode])
    ensures On(protos[f], icmp)
  {
    FitsListable(t, held, filters, f);
    hide LayerFits, InFirstOrder, Unmixed, On, InRanges;
    var i := t.ids[f];
    assert Occurs(t.icmpTypeCode.values, 65536, g);
    var v :| 0 <= v < 65536 && v < |t.icmpTypeCode.values| && t.icmpTypeCode.values[v] == g;
    hide FlatFits;
    InList(t.icmpTypeCode, 65536, i.icmpTypeCode, filters[f].icmpTypeCode, v);
    InList(t.icmpTypeCode, 65536, i.icmp6TypeCode, filters[f].icmp6TypeCode, v);
  }

  lemma IcmpMatch(t: LayerTables, held: set<nat>, filters: seq<Transport>, protos: seq<Option<Proto>>, f: nat,
                  s: Segment)
    requires LayerFits(t, held, filters) && AllMade(held, filters, protos) && f in held && s.Valid() && Looks(t)
    requires f < |filters| && f in t.ids && Listable(t, t.ids[f]) && !s.headless && s.protocol in {ICMP, ICMPV6}
    ensures HeaderOf(t, t.ids[f], HeaderFor(t, s)) <==> FieldsMatch(filters[f], s)
  {
    FitsListable(t, held, filters, f);
    var i, h := t.ids[f], HeaderFor(t, s);
    InList(t.icmpTypeCode, 65536, i.icmpTypeCode, filters[f].icmpTypeCode, s.prm1);
    InList(t.icmpIdentifier, 65536, i.icmpIdentifier, filters[f].icmpIdentifier, s.prm2);
    InList(t.icmpTypeCode, 65536, i.icmp6TypeCode, filters[f].icmp6TypeCode, s.prm1);
    InList(t.icmpIdentifier, 65536, i.icmp6Identifier, filters[f].icmp6Identifier, s.prm2);
    ListPositive(t.tcpFlags, 256, i.tcpFlags);
    hide FlatFits, LayerFits, AllMade;
    if UdpHeader(t, i, h) {
      UdpGroup(t, held, filters, protos, f, s);
    }
    if IcmpHeader(t, i, h) && s.protocol == ICMPV6 {
      OtherIcmp(t, held, filters, protos, f, s);
    }
    if Icmp6Header(t, i, h) && s.protocol == ICMP {
      OtherIcmp(t, held, filters, protos, f, s);
    }
  }

  lemma UdpGroup(t: LayerTables, held: set<nat>, filters: seq<Transport>, protos: seq<Option<Proto>>, f: nat,
                 s: Segment)
    requires LayerFits(t, held, filters) && AllMade(held, filters, protos) && f in held && s.Valid() && Looks(t)
    requires f < |filters| && f in t.ids && Listable(t, t.ids[f]) && !s.headless && s.protocol in {ICMP, ICMPV6}
    requires UdpHeader(t, t.ids[f], HeaderFor(t, s))
    ensures FieldsMatch(filters[f], s)
  {
    UdpListed(t, held, filters, protos, f, HeaderFor(t, s).group1);
    SameProtocol(t, held, filters, protos, f, UDP, s.protocol);
    hide FlatFits, LayerFits, InRanges, Within;
  }

  lemma UdpListed(t: LayerTables, held: set<nat>, filters: seq<Transport>, protos: seq<Option<Proto>>, f: nat, g: nat)
    requires LayerFits(t, held, filters) && AllMade(held, filters, protos) && f in held && f < |filters| && f in t.ids
             && Listable(t, t.ids[f])
    requires g in t.udpSource.groups[t.ids[f].udpSource]
    ensures On(protos[f], UDP)
  {
    FitsListable(t, held, filters, f);
    hide LayerFits, InFirstOrder, Unmixed, On, InRanges;
    var i := t.ids[f];
    assert Occurs(t.udpSource.values, 65536, g);
    var v :| 0 <= v < 65536 && v < |t.udpSource.values| && t.udpSource.values[v] == g;
    hide FlatFits;
    InList(t.udpSource, 65536, i.udpSource, filters[f].udpSource, v);
  }

  /** If the two ICMP protocols share a group, a filter lists both, with the same parameters. */
  lemma OtherIcmp(t: LayerTables, held: set<nat>, filters: seq<Transport>, protos: seq<Option<Proto>>, f: nat,
                  s: Segment)
    requires LayerFits(t, held, filters) && AllMade(held, filters, protos) && f in held && s.Valid() && Looks(t)
    requires f < |filters| && f in t.ids && Listable(t, t.ids[f]) && !s.headless && s.protocol in {ICMP, ICMPV6}
    requires if s.protocol == ICMPV6 then IcmpHeader(t, t.ids[f], HeaderFor(t, s))
             else Icmp6Header(t, t.ids[f], HeaderFor(t, s))
    ensures FieldsMatch(filters[f], s)
  {
    FitsListable(t, held, filters, f);
    var i := t.ids[f];
    InList(t.icmpTypeCode, 65536, i.icmpTypeCode, filters[f].icmpTypeCode, s.prm1);
    InList(t.icmpIdentifier, 65536, i.icmpIdentifier, filters[f].icmpIdentifier, s.prm2);
    InList(t.icmpTypeCode, 65536, i.icmp6TypeCode, filters[f].icmp6TypeCode, s.prm1);
    InList(t.icmpIdentifier, 65536, i.icmp6Identifier, filters[f].icmp6Identifier, s.prm2);
    SameProtocol(t, held, filters, protos, f, ICMP, ICMPV6);
    hide FlatFits, LayerFits, InRanges, Within, Unmixed, On;
  }
}
