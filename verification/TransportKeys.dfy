/**
  The cells that a filter of the transport table visits, layer by layer, and what they mean for a
  packet (`thread_t::compile`, `thread_t::populate`).
*/
module TransportKeys {
  import opened Base
  import opened Flat
  import opened TransportFilter
  import opened TransportLayer
  import opened TransportTable
  import opened Layers

  /** A layer of the transport table: its classifiers, the filters it holds and its network columns. */
  datatype TableLayer = TableLayer(tables: LayerTables, filters: set<nat>, nets: seq<nat>, columns: map<nat, nat>)

  /** An index of the table: network flags count from 0 here. */
  datatype Key = Key(layer: nat, flags: nat, header: Header, column: nat)

  /** The three parts of a rule: numbers of its network table, network flags and transport filters. */
  datatype TableFilter = TableFilter(net: nat, flags: nat, transport: nat)

  // ----- columns ----------------------------------------------------------------------------

  /** The network group of a packed network id. */
  function GroupOf(net: nat, shift: nat): nat {
    Quotient(net, Pow2(shift))
  }

  /** `lookup_remap_map`: the column of a packed network id, 0 if it has none. */
  function ColumnOf(columns: map<nat, nat>, net: nat, shift: nat): nat {
    if GroupOf(net, shift) in columns then columns[GroupOf(net, shift)] else 0
  }

  /** `prepare_remap_map`: columns are numbered in the order of the network ids, by their group. */
  method Columns(nets: seq<nat>, shift: nat) returns (columns: map<nat, nat>)
    requires forall i, j | 0 <= i < |nets| && 0 <= j < |nets|
             && GroupOf(nets[i], shift) == GroupOf(nets[j], shift) :: i == j
    ensures forall i | 0 <= i < |nets| :: ColumnOf(columns, nets[i], shift) == i
  {
    hide GroupOf;
    columns := map[];
    for i := 0 to |nets|
      invariant forall j | 0 <= j < i :: GroupOf(nets[j], shift) in columns && columns[GroupOf(nets[j], shift)] == j
    {
      columns := columns[GroupOf(nets[i], shift) := i];
    }
  }

  ghost predicate ColumnsFit(l: TableLayer, shift: nat) {
    forall i | 0 <= i < |l.nets| :: ColumnOf(l.columns, l.nets[i], shift) == i
  }

  lemma ColumnUnique(l: TableLayer, shift: nat, net: nat, net': nat)
    requires ColumnsFit(l, shift) && net in l.nets && net' in l.nets
             && ColumnOf(l.columns, net, shift) == ColumnOf(l.columns, net', shift)
    ensures net == net' && ColumnOf(l.columns, net, shift) < |l.nets| && l.nets[ColumnOf(l.columns, net, shift)] == net
  {
    var i :| 0 <= i < |l.nets| && l.nets[i] == net;
    var j :| 0 <= j < |l.nets| && l.nets[j] == net';
  }

  // ----- the keys of a filter ---------------------------------------------------------------

  ghost predicate LayerReady(l: TableLayer, filters: seq<Transport>, shift: nat) {
    LayerFits(l.tables, l.filters, filters) && ColumnsFit(l, shift)
  }

  ghost predicate Ready(layers: seq<TableLayer>, filters: seq<Transport>, shift: nat) {
    && (forall l | 0 <= l < |layers| :: LayerReady(layers[l], filters, shift))
    && (forall l, m, net | 0 <= l < |layers| && 0 <= m < |layers| && net in layers[l].nets
        && net in layers[m].nets :: l == m)
  }

  ghost predicate HeaderIn(l: TableLayer, f: nat, h: Header) {
    f in l.tables.ids && Listable(l.tables, l.tables.ids[f]) && HeaderOf(l.tables, l.tables.ids[f], h)
  }

  ghost predicate NetIn(l: TableLayer, nets: set<nat>, shift: nat, column: nat) {
    exists net :: net in nets && net in l.nets && column == ColumnOf(l.columns, net, shift)
  }

  /** Key k is one of the keys of the filter. */
  ghost predicate KeyOf(f: TableFilter, layers: seq<TableLayer>, nets: set<nat>, flags: seq<nat>, shift: nat, k: Key) {
    && k.layer < |layers| && f.transport in layers[k.layer].filters
    && NetIn(layers[k.layer], nets, shift, k.column) && k.flags + 1 in flags
       && HeaderIn(layers[k.layer], f.transport, k.header)
  }

  ghost function Elements(list: seq<nat>): set<nat> {
    set n | n in list
  }

  /** All keys with a header, a flags group and a network column of the lists. */
  method LayerKeys(layer: nat, headers: seq<Header>, flags: seq<nat>, columns: seq<nat>) returns (r: seq<Key>)
    requires forall g | g in flags :: g >= 1
    ensures forall k ::
              k in r <==> k.layer == layer && k.header in headers && k.flags + 1 in flags && k.column in columns
  {
    r := [];
    for i := 0 to |headers|
      invariant forall k ::
                  k in r
                  <==> k.layer == layer && k.header in headers[..i] && k.flags + 1 in flags && k.column in columns
    {
      var was := r;
      for j := 0 to |flags|
        invariant forall k ::
                    k in r
                    <==> k in was || (k.layer == layer && k.header == headers[i] && k.flags + 1 in flags[..j]
                                      && k.column in columns)
      {
        assert flags[j] in flags;
        var before := r;
        for n := 0 to |columns|
          invariant forall k ::
                      k in r
                      <==> k in before || (k.layer == layer && k.header == headers[i] && k.flags + 1 == flags[j]
                                           && k.column in columns[..n])
        {
          assert columns[..n + 1] == columns[..n] + [columns[n]];
          r := r + [Key(layer, flags[j] - 1, headers[i], columns[n])];
        }
        assert columns[..|columns|] == columns && flags[..j + 1] == flags[..j] + [flags[j]];
      }
      assert flags[..|flags|] == flags && headers[..i + 1] == headers[..i] + [headers[i]];
    }
    assert headers[..|headers|] == headers;
  }

  /** The columns of the ids that lie in the layer, and the ids that do not. */
  method Split(l: TableLayer, rest: seq<nat>, shift: nat) returns (columns: seq<nat>, rest': seq<nat>)
    ensures forall c: nat ::
              c in columns <==> exists net :: net in rest && net in l.nets && c == ColumnOf(l.columns, net, shift)
    ensures forall net: nat :: net in rest' <==> net in rest && net !in l.nets
  {
    columns, rest' := [], [];
    for i := 0 to |rest|
      invariant forall c: nat ::
                  c in columns
                  <==> exists net :: net in rest[..i] && net in l.nets && c == ColumnOf(l.columns, net, shift)
      invariant forall net: nat :: net in rest' <==> net in rest[..i] && net !in l.nets
    {
      assert rest[..i + 1] == rest[..i] + [rest[i]];
      if rest[i] in l.nets {
        columns := columns + [ColumnOf(l.columns, rest[i], shift)];
      } else {
        rest' := rest' + [rest[i]];
      }
    }
    assert rest[..|rest|] == rest;
  }

  /** The network ids that are still to be placed before layer l: the others lie in earlier layers. */
  ghost predicate Rest(layers: seq<TableLayer>, nets: seq<nat>, rest: seq<nat>, l: nat) {
    && l <= |layers| && (forall n: nat | n in rest :: n in nets)
    && (forall n: nat | n in nets && n !in rest :: Earlier(layers, n, l))
  }

  ghost predicate Earlier(layers: seq<TableLayer>, n: nat, l: nat) {
    exists m :: 0 <= m < l && m < |layers| && n in layers[m].nets
  }

  /**
    The keys of a filter in all layers: in every layer that holds its transport filter, its network ids of
    that layer.
  */
  method FilterKeys(f: TableFilter, layers: seq<TableLayer>, nets: seq<nat>, flags: seq<nat>, shift: nat,
                    ghost filters: seq<Transport>)
    returns (r: seq<Key>)
    requires Ready(layers, filters, shift) && forall g | g in flags :: g >= 1
    ensures forall k :: k in r <==> KeyOf(f, layers, Elements(nets), flags, shift, k)
  {
    hide Rest, KeyOf, LayerFits, Listable, HeaderOf, ColumnsFit;
    r := [];
    var rest := nets;
    ghost var all := Elements(nets);
    var l := 0;
    RestStart(layers, nets);
    while l < |layers| && rest != []
      invariant 0 <= l <= |layers| && Rest(layers, nets, rest, l)
      invariant forall k :: k in r <==> k.layer < l && KeyOf(f, layers, all, flags, shift, k)
    {
      if f.transport in layers[l].filters {
        assert LayerReady(layers[l], filters, shift);
        FitsListable(layers[l].tables, layers[l].filters, filters, f.transport);
        var headers := Headers(layers[l].tables, layers[l].tables.ids[f.transport]);
        var columns, rest' := Split(layers[l], rest, shift);
        var keys := LayerKeys(l, headers, flags, columns);
        StepKeys(f, layers, nets, rest, flags, shift, l, headers, columns, keys, filters);
        RestStep(layers, nets, rest, rest', l);
        r := r + keys;
        rest := rest';
      } else {
        SkipKeys(f, layers, all, flags, shift, l);
        RestSkip(layers, nets, rest, l);
      }
      l := l + 1;
    }
    forall k: Key | KeyOf(f, layers, all, flags, shift, k)
      ensures k.layer < l
    {
      NoMoreKeys(f, layers, nets, rest, flags, shift, l, k, filters);
    }
  }

  lemma RestStart(layers: seq<TableLayer>, nets: seq<nat>)
    ensures Rest(layers, nets, nets, 0)
  {
  }

  lemma RestStep(layers: seq<TableLayer>, nets: seq<nat>, rest: seq<nat>, rest': seq<nat>, l: nat)
    requires l < |layers| && Rest(layers, nets, rest, l)
             && forall net: nat :: net in rest' <==> net in rest && net !in layers[l].nets
    ensures Rest(layers, nets, rest', l + 1)
  {
    forall n: nat | n in nets && n !in rest'
      ensures Earlier(layers, n, l + 1)
    {
      if n in rest {
        assert 0 <= l < l + 1 && n in layers[l].nets;
      } else {
        assert Earlier(layers, n, l);
        var m :| 0 <= m < l && m < |layers| && n in layers[m].nets;
        assert 0 <= m < l + 1;
      }
    }
  }

  lemma RestSkip(layers: seq<TableLayer>, nets: seq<nat>, rest: seq<nat>, l: nat)
    requires l < |layers| && Rest(layers, nets, rest, l)
    ensures Rest(layers, nets, rest, l + 1)
  {
    forall n: nat | n in nets && n !in rest
      ensures Earlier(layers, n, l + 1)
    {
      assert Earlier(layers, n, l);
      var m :| 0 <= m < l && m < |layers| && n in layers[m].nets;
      assert 0 <= m < l + 1;
    }
  }

  lemma SkipKeys(f: TableFilter, layers: seq<TableLayer>, all: set<nat>, flags: seq<nat>, shift: nat, l: nat)
    requires l < |layers| && f.transport !in layers[l].filters
    ensures forall k: Key :: k.layer == l ==> !KeyOf(f, layers, all, flags, shift, k)
  {
    hide NetIn, HeaderIn;
  }

  lemma NoMoreKeys(f: TableFilter, layers: seq<TableLayer>, nets: seq<nat>, rest: seq<nat>, flags: seq<nat>, shift: nat,
                   l: nat, k: Key,
                   filters: seq<Transport>)
    requires Ready(layers, filters, shift) && Rest(layers, nets, rest, l) && (l == |layers| || rest == [])
    requires KeyOf(f, layers, Elements(nets), flags, shift, k)
    ensures k.layer < l
  {
    hide HeaderIn, LayerReady;
  }

  lemma StepKeys(f: TableFilter, layers: seq<TableLayer>, nets: seq<nat>, rest: seq<nat>, flags: seq<nat>, shift: nat,
                 l: nat,
                 headers: seq<Header>, columns: seq<nat>, keys: seq<Key>, filters: seq<Transport>)
    requires Ready(layers, filters, shift) && l < |layers| && f.transport in layers[l].filters
             && Rest(layers, nets, rest, l)
    requires f.transport in layers[l].tables.ids && Listable(layers[l].tables, layers[l].tables.ids[f.transport])
    requires forall h :: h in headers <==> HeaderOf(layers[l].tables, layers[l].tables.ids[f.transport], h)
    requires forall c: nat ::
               c in columns
               <==> exists net :: net in rest && net in layers[l].nets && c == ColumnOf(layers[l].columns, net, shift)
    requires forall k ::
               k in keys <==> k.layer == l && k.header in headers && k.flags + 1 in flags && k.column in columns
    ensures forall k :: k in keys <==> k.layer == l && KeyOf(f, layers, Elements(nets), flags, shift, k)
  {
    hide Listable, HeaderOf, LayerReady, ColumnOf;
    var all := Elements(nets);
    forall c: nat
      ensures c in columns <==> NetIn(layers[l], all, shift, c)
    {
      if NetIn(layers[l], all, shift, c) {
        var net :| net in all && net in layers[l].nets && c == ColumnOf(layers[l].columns, net, shift);
        assert !Earlier(layers, net, l);
      }
    }
    hide NetIn;
  }

  // ----- the key of a packet ----------------------------------------------------------------

  /** The key of a packet with network id `net` in layer l and flags group `flags`. */
  function KeyFor(layers: seq<TableLayer>, l: nat, net: nat, flags: nat, s: Segment, shift: nat): Key
    requires l < |layers| && Looks(layers[l].tables) && flags >= 1
    requires s.protocol < 256 && s.prm1 < 65536 && s.prm2 < 65536 && s.prm3 < 256
  {
    Key(l, flags - 1, HeaderFor(layers[l].tables, s), ColumnOf(layers[l].columns, net, shift))
  }

  /** The key of a packet is one of the keys of a filter exactly when all three parts of the filter match it. */
  lemma PacketKey(f: TableFilter, layers: seq<TableLayer>, nets: set<nat>, flags: seq<nat>, shift: nat,
                  filters: seq<Transport>,
                  protos: seq<Option<Proto>>, l: nat, net: nat, flagsId: nat, s: Segment)
    requires Ready(layers, filters, shift) && l < |layers| && net in layers[l].nets && flagsId >= 1 && s.Valid()
    requires AllMade(layers[l].filters, filters, protos) && f.transport < |protos| && Looks(layers[l].tables)
    ensures KeyOf(f, layers, nets, flags, shift, KeyFor(layers, l, net, flagsId, s, shift))
            <==> net in nets && flagsId in flags && f.transport in layers[l].filters && Matches(protos[f.transport], s)
  {
    var layer := layers[l];
    assert LayerReady(layer, filters, shift);
    NetHere(layer, nets, shift, net);
    hide LayerFits, Listable, HeaderOf, AllMade, ColumnOf, Matches, HeaderFor, Looks, Ready, NetIn, ColumnsFit;
    if f.transport in layer.filters {
      HeaderMatch(layer.tables, layer.filters, filters, protos, f.transport, s);
    }
  }

  lemma NetHere(layer: TableLayer, nets: set<nat>, shift: nat, net: nat)
    requires ColumnsFit(layer, shift) && net in layer.nets
    ensures NetIn(layer, nets, shift, ColumnOf(layer.columns, net, shift)) <==> net in nets
  {
    hide ColumnOf;
    if NetIn(layer, nets, shift, ColumnOf(layer.columns, net, shift)) {
      var net' :| net' in nets && net' in layer.nets
          && ColumnOf(layer.columns, net, shift) == ColumnOf(layer.columns, net', shift);
      ColumnUnique(layer, shift, net, net');
    }
  }

  // ----- the dimensions of the table --------------------------------------------------------

  function Largest(a: nat, b: nat, c: nat): nat {
    if a >= b && a >= c then a else if b >= c then b else c
  }

  /** The key lies within the dimensions that `thread_t::prepare` gives the table of the layer. */
  ghost predicate KeyInside(layer: TableLayer, flags: FlatTable, k: Key) {
    var t := layer.tables;
    && k.flags + 1 < flags.next && k.header.protocol + 1 < t.protocol.next
    && k.header.group1 < Largest(t.tcpSource.next, t.udpSource.next, t.icmpTypeCode.next)
    && k.header.group2 < Largest(t.tcpDestination.next, t.udpDestination.next, t.icmpIdentifier.next)
    && k.header.group3 < t.tcpFlags.next && k.column < |layer.nets|
  }

  /** The key of a packet lies within the table of its layer, and its column is that of its network id. */
  lemma PacketKeyInTable(layers: seq<TableLayer>, l: nat, net: nat, flags: FlatTable, v: nat, s: Segment, shift: nat,
                         filters: seq<Transport>)
    requires Ready(layers, filters, shift) && l < |layers| && net in layers[l].nets && s.Valid() && flags.Fits(256)
             && v < 256
    requires Looks(layers[l].tables) && |flags.values| == 256 && flags.values[v] >= 1
    ensures var k := KeyFor(layers, l, net, flags.values[v], s, shift);
            KeyInside(layers[l], flags, k) && layers[l].nets[k.column] == net
  {
    var layer := layers[l];
    assert LayerReady(layer, filters, shift);
    ColumnUnique(layer, shift, net, net);
    NextAbove(layer.tables.tcpFlags, 256);
    NextAbove(layer.tables.tcpSource, 65536);
    NextAbove(layer.tables.tcpDestination, 65536);
    hide InRanges, InFirstOrder, Occurs, ColumnOf, Ready, ColumnsFit;
  }

  lemma NextAbove(t: FlatTable, size: nat)
    requires t.Fits(size) && size > 0
    ensures t.next >= 2
  {
    assert 1 <= t.values[0] < t.next;
  }

  /** All cells that a filter visits lie within the tables of their layers. */
  lemma FilterKeyInTable(f: TableFilter, layers: seq<TableLayer>, nets: set<nat>, flags: FlatTable, group: nat,
                         shift: nat, filters: seq<Transport>, k: Key)
    requires Ready(layers, filters, shift) && flags.Fits(256) && group < |flags.groups|
             && KeyOf(f, layers, nets, flags.groups[group], shift, k)
    ensures KeyInside(layers[k.layer], flags, k)
  {
    var layer := layers[k.layer];
    assert LayerReady(layer, filters, shift);
    var net :| net in nets && net in layer.nets && k.column == ColumnOf(layer.columns, net, shift);
    ColumnUnique(layer, shift, net, net);
    hide InRanges, InFirstOrder, Occurs, ColumnOf, Ready, ColumnsFit;
    HeaderInside(layer.tables, layer.tables.ids[f.transport], k.header);
  }

  lemma HeaderInside(t: LayerTables, i: FieldIds, h: Header)
    requires Listable(t, i) && HeaderOf(t, i, h)
    ensures h.protocol + 1 < t.protocol.next
            && h.group1 < Largest(t.tcpSource.next, t.udpSource.next, t.icmpTypeCode.next)
    ensures h.group2 < Largest(t.tcpDestination.next, t.udpDestination.next, t.icmpIdentifier.next)
            && h.group3 < t.tcpFlags.next
  {
    NextAbove(t.tcpFlags, 256);
    NextAbove(t.tcpSource, 65536);
    NextAbove(t.tcpDestination, 65536);
    hide InRanges, InFirstOrder, Occurs;
  }
}
