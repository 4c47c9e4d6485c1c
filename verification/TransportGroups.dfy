/** The transport table over all rules (`transport_table_compile`), and the rules of the group of a packet. */
module TransportGroups {
  import opened Base
  import opened Nets
  import opened Flat
  import opened GroupTable
  import opened NetworkTable
  import opened Rules
  import opened Networks
  import opened Layers
  import opened Packing
  import opened TransportFilter
  import opened TransportLayer
  import opened TransportTable
  import opened TransportKeys
  import opened Transports
  import opened NetworkIds

  /** The number of every rule in the table, the cells, and for every group the filters that list it. */
  datatype TableStage = TableStage(ids: seq<nat>, cells: map<Key, nat>, listed: map<nat, seq<nat>>)

  // ----- filters by group -------------------------------------------------------------------

  /** Filter f is listed for group g. */
  ghost predicate HasFilter(listed: map<nat, seq<nat>>, g: nat, f: nat) {
    g in listed && f in listed[g]
  }

  ghost predicate ByGroup(listed: map<nat, seq<nat>>, groups: seq<set<nat>>, k: nat) {
    && (forall g: nat, f: nat :: HasFilter(listed, g, f) <==> f < k && f < |groups| && g in groups[f])
    && (forall g | g in listed :: listed[g] != [] && Increasing(listed[g]))
  }

  /** `group_id_filter_ids`: filters are visited in order. */
  method Listing(groups: seq<set<nat>>) returns (listed: map<nat, seq<nat>>)
    ensures ByGroup(listed, groups, |groups|)
  {
    listed := map[];
    for f := 0 to |groups|
      invariant ByGroup(listed, groups, f)
    {
      var was := listed;
      listed := was + map g | g in groups[f] :: (if g in was then was[g] else []) + [f];
      ListingStep(was, listed, groups, f);
    }
  }

  lemma ListingStep(was: map<nat, seq<nat>>, listed: map<nat, seq<nat>>, groups: seq<set<nat>>, f: nat)
    requires f < |groups| && ByGroup(was, groups, f)
    requires listed == was + map g | g in groups[f] :: (if g in was then was[g] else []) + [f]
    ensures ByGroup(listed, groups, f + 1)
  {
    forall g: nat, e: nat
      ensures HasFilter(listed, g, e) <==> e < f + 1 && e < |groups| && g in groups[e]
    {
      assert HasFilter(was, g, e) <==> e < f && e < |groups| && g in groups[e];
    }
    forall g | g in listed
      ensures listed[g] != [] && Increasing(listed[g])
    {
      ListGrows(was, listed, groups, f, g);
    }
    hide HasFilter, Increasing;
  }

  lemma ListGrows(was: map<nat, seq<nat>>, listed: map<nat, seq<nat>>, groups: seq<set<nat>>, f: nat, g: nat)
    requires f < |groups| && ByGroup(was, groups, f) && g in listed
    requires listed[g] == if g in groups[f] then (if g in was then was[g] else []) + [f]
                          else (if g in was then was[g] else [])
    requires g in was || g in groups[f]
    ensures listed[g] != [] && Increasing(listed[g])
  {
    var list := if g in was then was[g] else [];
    forall i | 0 <= i < |list|
      ensures list[i] < f
    {
      assert HasFilter(was, g, list[i]);
    }
    hide ByGroup;
  }

  // ----- the cells of all rules -------------------------------------------------------------

  ghost predicate RowKnown(f: TableFilter, t: IdStage, flags: FlatTable) {
    f.net < |t.groups| && f.flags < |flags.groups| && forall g | g in flags.groups[f.flags] :: g >= 1
  }

  ghost predicate KeysOf(f: TableFilter, t: IdStage, flags: FlatTable, keys: seq<Key>)
    requires RowKnown(f, t, flags)
  {
    forall k: Key :: k in keys <==> KeyOf(f, t.layers, t.groups[f.net], flags.groups[f.flags], t.shift, k)
  }

  method AllKeys(rows: seq<TableFilter>, t: IdStage, flags: FlatTable,
                 ghost transports: seq<Transport>) returns (lists: seq<seq<Key>>)
    requires Ready(t.layers, transports, t.shift) && forall r | 0 <= r < |rows| :: RowKnown(rows[r], t, flags)
    ensures |lists| == |rows| && forall r | 0 <= r < |rows| :: KeysOf(rows[r], t, flags, lists[r])
  {
    hide Ready, KeyOf;
    lists := [];
    for r := 0 to |rows|
      invariant |lists| == r && forall q | 0 <= q < r :: KeysOf(rows[q], t, flags, lists[q])
    {
      var f := rows[r];
      var nets := ListOf(t.groups[f.net]);
      assert Elements(nets) == t.groups[f.net];
      var keys := FilterKeys(f, t.layers, nets, flags.groups[f.flags], t.shift, transports);
      assert KeysOf(f, t, flags, keys);
      hide KeysOf;
      lists := lists + [keys];
    }
  }

  /** The table: a filter is listed for the group of a key exactly when the key is one of its keys. */
  ghost predicate GroupsListed(s: TableStage, rows: seq<TableFilter>, distinct: seq<TableFilter>, t: IdStage,
                               flags: FlatTable) {
    && NumbersOf(rows, distinct, s.ids) && (forall r | 0 <= r < |distinct| :: RowKnown(distinct[r], t, flags))
    && (forall r, k: Key | 0 <= r < |distinct| :: FilterListed(s, distinct, t, flags, r, k))
    && (forall g | g in s.listed ::
          Increasing(s.listed[g]) && s.listed[g] != [] && forall r: nat | r in s.listed[g] :: r < |distinct|)
  }

  ghost predicate FilterListed(s: TableStage, distinct: seq<TableFilter>, t: IdStage, flags: FlatTable, r: nat, k: Key)
    requires r < |distinct| && RowKnown(distinct[r], t, flags)
  {
    KeyOf(distinct[r], t.layers, t.groups[distinct[r].net], flags.groups[distinct[r].flags], t.shift, k)
    <==> HasFilter(s.listed, At(s.cells, k), r)
  }

  /** The filter visits the cell. */
  ghost predicate VisitsKey(f: TableFilter, t: IdStage, flags: FlatTable, k: Key) {
    RowKnown(f, t, flags) && KeyOf(f, t.layers, t.groups[f.net], flags.groups[f.flags], t.shift, k)
  }

  lemma VisitsInside(f: TableFilter, t: IdStage, flags: FlatTable, transports: seq<Transport>, k: Key)
    requires Ready(t.layers, transports, t.shift) && flags.Fits(256) && VisitsKey(f, t, flags, k)
    ensures k.layer < |t.layers| && KeyInside(t.layers[k.layer], flags, k)
  {
    hide Ready, FlatFits, NetIn, HeaderIn, KeyInside;
    FilterKeyInTable(f, t.layers, t.groups[f.net], flags, f.flags, t.shift, transports, k);
  }

  /** `transport_table_compile`: all visited cells lie within the tables of their layers. */
  method Build(rows: seq<TableFilter>, t: IdStage, flags: FlatTable, ghost transports: seq<Transport>)
    returns (s: TableStage, ghost distinct: seq<TableFilter>)
    requires Ready(t.layers, transports, t.shift) && flags.Fits(256)
             && forall r | 0 <= r < |rows| :: RowKnown(rows[r], t, flags)
    ensures GroupsListed(s, rows, distinct, t, flags)
    ensures forall r, k: Key | 0 <= r < |distinct|
            && VisitsKey(distinct[r], t, flags, k) :: k.layer < |t.layers| && KeyInside(t.layers[k.layer], flags, k)
  {
    hide Ready, KeyOf, RowKnown, KeysOf, TableFits, FlatFits, KeyInside, VisitsKey;
    forall r, k: Key | 0 <= r < |rows| && VisitsKey(rows[r], t, flags, k)
      ensures k.layer < |t.layers| && KeyInside(t.layers[k.layer], flags, k)
    {
      VisitsInside(rows[r], t, flags, transports, k);
    }
    var filters, ids := CollectAll(rows);
    distinct := filters;
    forall r | 0 <= r < |filters|
      ensures RowKnown(filters[r], t, flags)
    {
      assert filters[r] in rows;
    }
    var lists := AllKeys(filters, t, flags, transports);
    var table := new Table<Key>();
    table.Compile(lists);
    var groups := table.Populate(lists);
    var listed := Listing(groups);
    s := TableStage(ids, table.cells, listed);
    Listed(s, rows, filters, t, flags, lists, groups, table.groupId);
  }

  lemma Listed(s: TableStage, rows: seq<TableFilter>, distinct: seq<TableFilter>, t: IdStage, flags: FlatTable,
               lists: seq<seq<Key>>,
               groups: seq<set<nat>>, next: nat)
    requires NumbersOf(rows, distinct, s.ids) && |lists| == |distinct|
    requires forall r | 0 <= r < |distinct| ::
               RowKnown(distinct[r], t, flags) && KeysOf(distinct[r], t, flags, lists[r])
    requires TableFits(s.cells, lists, groups, next) && ByGroup(s.listed, groups, |groups|)
    ensures GroupsListed(s, rows, distinct, t, flags)
  {
    hide RowKnown, KeyOf, At;
    forall r, k: Key | 0 <= r < |distinct|
      ensures FilterListed(s, distinct, t, flags, r, k)
    {
      assert KeysOf(distinct[r], t, flags, lists[r]);
      assert k in lists[r] <==> At(s.cells, k) in groups[r];
    }
    forall g, r: nat | g in s.listed && r in s.listed[g]
      ensures r < |distinct|
    {
      assert HasFilter(s.listed, g, r);
    }
    hide FilterListed, TableFits;
  }
}
