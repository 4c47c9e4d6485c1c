/** The classifiers of one transport layer (`transport_t::layer`), one per header field. */
module TransportLayer {
  import opened Base
  import opened Flat
  import opened TransportFilter

  /** For one transport filter the numbers of its ranges in the eight classifiers. */
  datatype FieldIds = FieldIds(protocol: nat, tcpSource: nat, tcpDestination: nat, tcpFlags: nat, udpSource: nat,
                               udpDestination: nat,
                               icmpTypeCode: nat, icmpIdentifier: nat, icmp6TypeCode: nat, icmp6Identifier: nat)

  datatype LayerTables = LayerTables(protocol: FlatTable, tcpSource: FlatTable, tcpDestination: FlatTable,
                                     tcpFlags: FlatTable,
                                     udpSource: FlatTable, udpDestination: FlatTable, icmpTypeCode: FlatTable,
                                     icmpIdentifier: FlatTable,
                                     ids: map<nat, FieldIds>)

  /** The ranges of a filter are filter number i of the classifier. */
  ghost predicate Is(t: FlatTable, i: nat, rs: Ranges) {
    i < |t.filters| && t.filters[i] == rs
  }

  ghost predicate IdsFit(l: LayerTables, i: FieldIds, t: Transport) {
    && Is(l.protocol, i.protocol, t.protocol) && Is(l.tcpSource, i.tcpSource, t.tcpSource)
    && Is(l.tcpDestination, i.tcpDestination, t.tcpDestination) && Is(l.tcpFlags, i.tcpFlags, t.tcpFlags)
    && Is(l.udpSource, i.udpSource, t.udpSource) && Is(l.udpDestination, i.udpDestination, t.udpDestination)
    && Is(l.icmpTypeCode, i.icmpTypeCode, t.icmpTypeCode) && Is(l.icmpIdentifier, i.icmpIdentifier, t.icmpIdentifier)
    && Is(l.icmpTypeCode, i.icmp6TypeCode, t.icmp6TypeCode)
       && Is(l.icmpIdentifier, i.icmp6Identifier, t.icmp6Identifier)
  }

  /** The layer classifies the header fields for the transport filters `held`. */
  ghost predicate LayerFits(l: LayerTables, held: set<nat>, filters: seq<Transport>) {
    && l.protocol.Fits(256) && l.tcpSource.Fits(65536) && l.tcpDestination.Fits(65536) && l.tcpFlags.Fits(256)
    && l.udpSource.Fits(65536) && l.udpDestination.Fits(65536) && l.icmpTypeCode.Fits(65536)
       && l.icmpIdentifier.Fits(65536)
    && (forall f | f in held :: f < |filters| && f in l.ids && IdsFit(l, l.ids[f], filters[f]))
  }

  ghost predicate Sized(t: Transport) {
    && Within(t.protocol, 256) && Within(t.tcpSource, 65536) && Within(t.tcpDestination, 65536)
       && Within(t.tcpFlags, 256)
    && Within(t.udpSource, 65536) && Within(t.udpDestination, 65536) && Within(t.icmpTypeCode, 65536)
       && Within(t.icmpIdentifier, 65536)
    && Within(t.icmp6TypeCode, 65536) && Within(t.icmp6Identifier, 65536)
  }

  /** A classifier that collects filters. */
  ghost predicate Fresh(c: FlatClassifier, size: nat)
    reads c, c.values
  {
    c.Valid() && c.size == size && c.groupId == 1 && forall v | 0 <= v < size :: c.values[v] == 0
  }

  ghost predicate Has(filters: seq<Ranges>, i: nat, rs: Ranges) {
    i < |filters| && filters[i] == rs
  }

  /** The ranges of one field of all filters of a layer are collected in order and classified. */
  method Field(size: nat, ranges: seq<Ranges>) returns (r: Option<FlatTable>, ids: seq<nat>)
    requires forall k | 0 <= k < |ranges| :: Within(ranges[k], size)
    ensures |ids| == |ranges|
    ensures r.Some? ==> r.value.Fits(size) && forall k | 0 <= k < |ranges| :: Is(r.value, ids[k], ranges[k])
    ensures r.None? <==> AllApart(ranges, size)
  {
    var c := new FlatClassifier(size);
    ids := [];
    for k := 0 to |ranges|
      invariant fresh(c) && fresh(c.values) && Fresh(c, size)
      invariant forall rs :: rs in c.filters <==> rs in ranges[..k]
      invariant |ids| == k && forall j | 0 <= j < k :: Has(c.filters, ids[j], ranges[j])
    {
      var id := c.Collect(ranges[k]);
      ids := ids + [id];
      assert ranges[..k + 1] == ranges[..k] + [ranges[k]];
    }
    assert ranges[..|ranges|] == ranges;
    ApartSame(c.filters, ranges, size);
    r := c.Finish();
  }

  lemma ApartSame(filters: seq<Ranges>, ranges: seq<Ranges>, size: nat)
    requires forall rs :: rs in filters <==> rs in ranges
    ensures AllApart(filters, size) <==> AllApart(ranges, size)
  {
    forall u: nat, v: nat
      ensures TellsApart(filters, size, u, v) <==> TellsApart(ranges, size, u, v)
    {
      hide Tells;
      if k :| 0 <= k < |filters| && Tells(filters[k], size, u, v) {
        assert filters[k] in ranges;
      }
      if k :| 0 <= k < |ranges| && Tells(ranges[k], size, u, v) {
        assert ranges[k] in filters;
      }
    }
  }

  /** Some filter of the layer tells the two values of the field apart. */
  ghost predicate FieldTells(held: set<nat>, filters: seq<Transport>, pick: Transport -> Ranges, size: nat, u: nat,
                             v: nat) {
    exists f :: f in held && f < |filters| && Tells(pick(filters[f]), size, u, v)
  }

  /** The filters of the layer put every value of the field into a group of its own. */
  ghost predicate SplitsAll(held: set<nat>, filters: seq<Transport>, pick: Transport -> Ranges, size: nat) {
    forall u: nat, v: nat | u < v < size :: FieldTells(held, filters, pick, size, u, v)
  }

  ghost predicate SplitsShared(held: set<nat>, filters: seq<Transport>, pick: Transport -> Ranges,
                               pick6: Transport -> Ranges) {
    forall u: nat, v: nat | u < v < 65536 ::
      FieldTells(held, filters, pick, 65536, u, v) || FieldTells(held, filters, pick6, 65536, u, v)
  }

  /** The overflow error of a layer. */
  ghost predicate Overflows(held: set<nat>, filters: seq<Transport>) {
    || SplitsAll(held, filters, (t: Transport) => t.protocol, 256)
       || SplitsAll(held, filters, (t: Transport) => t.tcpSource, 65536)
    || SplitsAll(held, filters, (t: Transport) => t.tcpDestination, 65536)
       || SplitsAll(held, filters, (t: Transport) => t.tcpFlags, 256)
    || SplitsAll(held, filters, (t: Transport) => t.udpSource, 65536)
       || SplitsAll(held, filters, (t: Transport) => t.udpDestination, 65536)
    || SplitsShared(held, filters, (t: Transport) => t.icmpTypeCode, (t: Transport) => t.icmp6TypeCode)
    || SplitsShared(held, filters, (t: Transport) => t.icmpIdentifier, (t: Transport) => t.icmp6Identifier)
  }

  /** A field of the filters of a layer. */
  method FieldOf(size: nat, list: seq<nat>, filters: seq<Transport>, pick: Transport -> Ranges, ghost held: set<nat>)
    returns (r: Option<FlatTable>, ids: seq<nat>)
    requires size > 0 && forall f: nat :: f in list <==> f in held
    requires forall k | 0 <= k < |list| :: list[k] < |filters| && Within(pick(filters[list[k]]), size)
    ensures |ids| == |list|
    ensures r.Some? ==> r.value.Fits(size) && forall k | 0 <= k < |list| :: Is(r.value, ids[k], pick(filters[list[k]]))
    ensures r.None? <==> SplitsAll(held, filters, pick, size)
  {
    var ranges := seq(|list|, k requires 0 <= k < |list| => pick(filters[list[k]]));
    forall u: nat, v: nat
      ensures TellsApart(ranges, size, u, v) <==> FieldTells(held, filters, pick, size, u, v)
    {
      hide Tells;
      if k :| 0 <= k < |ranges| && Tells(ranges[k], size, u, v) {
        assert list[k] in held;
      }
      if f :| f in held && f < |filters| && Tells(pick(filters[f]), size, u, v) {
        var k :| 0 <= k < |list| && list[k] == f;
        assert Tells(ranges[k], size, u, v);
      }
    }
    hide TellsApart, FieldTells;
    r, ids := Field(size, ranges);
  }

  /** A field that the two ICMP protocols share. */
  method SharedField(list: seq<nat>, filters: seq<Transport>, pick: Transport -> Ranges, pick6: Transport -> Ranges,
                     ghost held: set<nat>)
    returns (r: Option<FlatTable>, ids: seq<nat>, ids6: seq<nat>)
    requires forall f: nat :: f in list <==> f in held
    requires forall k | 0 <= k < |list| ::
               list[k] < |filters| && Within(pick(filters[list[k]]), 65536) && Within(pick6(filters[list[k]]), 65536)
    ensures |ids| == |ids6| == |list|
    ensures r.Some? ==> r.value.Fits(65536)
    ensures r.Some? ==> forall k | 0 <= k < |list| :: Is(r.value, ids[k], pick(filters[list[k]]))
    ensures r.Some? ==> forall k | 0 <= k < |list| :: Is(r.value, ids6[k], pick6(filters[list[k]]))
    ensures r.None? <==> SplitsShared(held, filters, pick, pick6)
  {
    hide Within, Is, Tells;
    var n := |list|;
    var all;
    var ranges := seq(2 * n, k requires 0 <= k < 2 * n => if k % 2 == 0 then pick(filters[list[k / 2]])
                                                          else pick6(filters[list[k / 2]]));
    r, all := Field(65536, ranges);
    ids, ids6 := seq(n, k requires 0 <= k < n => all[2 * k]), seq(n, k requires 0 <= k < n => all[2 * k + 1]);
    forall k | 0 <= k < n
      ensures ranges[2 * k] == pick(filters[list[k]]) && ranges[2 * k + 1] == pick6(filters[list[k]])
    {
      Halves(k);
    }
    forall u: nat, v: nat
      ensures TellsApart(ranges, 65536, u, v)
              <==> FieldTells(held, filters, pick, 65536, u, v) || FieldTells(held, filters, pick6, 65536, u, v)
    {
      SharedTells(list, filters, pick, pick6, held, ranges, u, v);
    }
    hide TellsApart, FieldTells;
  }

  lemma SharedTells(list: seq<nat>, filters: seq<Transport>, pick: Transport -> Ranges, pick6: Transport -> Ranges,
                    held: set<nat>,
                    ranges: seq<Ranges>, u: nat, v: nat)
    requires (forall f: nat :: f in list <==> f in held) && |ranges| == 2 * |list|
             && forall k | 0 <= k < |list| :: list[k] < |filters|
    requires forall k | 0 <= k < |list| ::
               ranges[2 * k] == pick(filters[list[k]]) && ranges[2 * k + 1] == pick6(filters[list[k]])
    ensures TellsApart(ranges, 65536, u, v)
            <==> FieldTells(held, filters, pick, 65536, u, v) || FieldTells(held, filters, pick6, 65536, u, v)
  {
    hide Tells;
    if i :| 0 <= i < |ranges| && Tells(ranges[i], 65536, u, v) {
      var k := i / 2;
      assert list[k] in held && (i == 2 * k || i == 2 * k + 1);
    }
    if f :| f in held && f < |filters| && Tells(pick(filters[f]), 65536, u, v) {
      var k :| 0 <= k < |list| && list[k] == f;
      assert Tells(ranges[2 * k], 65536, u, v);
    }
    if f :| f in held && f < |filters| && Tells(pick6(filters[f]), 65536, u, v) {
      var k :| 0 <= k < |list| && list[k] == f;
      assert Tells(ranges[2 * k + 1], 65536, u, v);
    }
  }

  /** `compile` and `populate` of one layer; None stands for an overflow error. */
  method Build(held: set<nat>, filters: seq<Transport>) returns (r: Option<LayerTables>)
    requires forall f | f in held :: f < |filters| && Sized(filters[f])
    ensures r.Some? ==> LayerFits(r.value, held, filters)
    ensures r.None? <==> Overflows(held, filters)
  {
    hide Within, Is, FlatFits, SplitsAll, SplitsShared;
    var list := Ascending(held, |filters|);
    var n := |list|;
    assert forall k | 0 <= k < n :: list[k] in held;
    var protocol, protocolIds := FieldOf(256, list, filters, (t: Transport) => t.protocol, held);
    var tcpSource, tcpSourceIds := FieldOf(65536, list, filters, (t: Transport) => t.tcpSource, held);
    var tcpDestination, tcpDestinationIds := FieldOf(65536, list, filters, (t: Transport) => t.tcpDestination, held);
    var tcpFlags, tcpFlagsIds := FieldOf(256, list, filters, (t: Transport) => t.tcpFlags, held);
    var udpSource, udpSourceIds := FieldOf(65536, list, filters, (t: Transport) => t.udpSource, held);
    var udpDestination, udpDestinationIds := FieldOf(65536, list, filters, (t: Transport) => t.udpDestination, held);
    var typeCode, typeCodeIds, typeCode6Ids :=
      SharedField(list, filters, (t: Transport) => t.icmpTypeCode, (t: Transport) => t.icmp6TypeCode, held);
    var identifier, identifierIds, identifier6Ids :=
      SharedField(list, filters, (t: Transport) => t.icmpIdentifier, (t: Transport) => t.icmp6Identifier, held);
    if protocol.None? || tcpSource.None? || tcpDestination.None? || tcpFlags.None? || udpSource.None?
    || udpDestination.None?
       || typeCode.None? || identifier.None? {
      return None;
    }
    var l := LayerTables(protocol.value, tcpSource.value, tcpDestination.value, tcpFlags.value, udpSource.value,
                         udpDestination.value,
                         typeCode.value, identifier.value, map[]);
    var rows := seq(n, k requires 0 <= k < n =>
      FieldIds(protocolIds[k], tcpSourceIds[k], tcpDestinationIds[k], tcpFlagsIds[k], udpSourceIds[k],
               udpDestinationIds[k],
               typeCodeIds[k], identifierIds[k], typeCode6Ids[k], identifier6Ids[k]));
    var ids := ByFilter(l, list, rows, filters);
    hide IdsFit;
    LayerDone(l, ids, held, filters, list);
    return Some(l.(ids := ids));
  }

  /** The rows of numbers by filter. */
  method ByFilter(ghost l: LayerTables, list: seq<nat>, rows: seq<FieldIds>,
                  ghost filters: seq<Transport>) returns (ids: map<nat, FieldIds>)
    requires |rows| == |list| && forall k | 0 <= k < |list| ::
               list[k] < |filters| && IdsFit(l, rows[k], filters[list[k]])
    ensures forall k | 0 <= k < |list| :: list[k] in ids && IdsFit(l, ids[list[k]], filters[list[k]])
  {
    hide IdsFit;
    ids := map[];
    for k := 0 to |list|
      invariant forall j | 0 <= j < k :: list[j] in ids && IdsFit(l, ids[list[j]], filters[list[j]])
    {
      ids := ids[list[k] := rows[k]];
    }
  }

  lemma LayerDone(l: LayerTables, ids: map<nat, FieldIds>, held: set<nat>, filters: seq<Transport>, list: seq<nat>)
    requires l.protocol.Fits(256) && l.tcpSource.Fits(65536) && l.tcpDestination.Fits(65536) && l.tcpFlags.Fits(256)
    requires l.udpSource.Fits(65536) && l.udpDestination.Fits(65536) && l.icmpTypeCode.Fits(65536)
             && l.icmpIdentifier.Fits(65536)
    requires (forall f: nat :: f in list <==> f in held) && forall f | f in held :: f < |filters|
    requires forall k | 0 <= k < |list| ::
               list[k] < |filters| && list[k] in ids && IdsFit(l, ids[list[k]], filters[list[k]])
    ensures LayerFits(l.(ids := ids), held, filters)
  {
    hide FlatFits, Is;
    var result := l.(ids := ids);
    forall f | f in held
      ensures f in result.ids && IdsFit(result, result.ids[f], filters[f])
    {
      var k :| 0 <= k < |list| && list[k] == f;
    }
  }

  lemma Halves(k: nat)
    ensures 2 * k % 2 == 0 && 2 * k / 2 == k && (2 * k + 1) % 2 == 1 && (2 * k + 1) / 2 == k
  {
  }
}
