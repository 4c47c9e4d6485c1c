/**
  The network table (`network_table_t`): groups of pairs (source group, destination group), and
  the packing of a group with the layer it was given (`remap`).
*/
module NetworkTable {
  import opened Base
  import opened Partition
  import opened GroupTable

  /** A cell of the table: source group and destination group. */
  type Pair = (nat, nat)

  /** For each address family the source and the destination filter. */
  datatype NetFilter = NetFilter(source4: nat, destination4: nat, source6: nat, destination6: nat)

  /** The lists of group ids of the four network classifiers. */
  datatype NetGroups = NetGroups(source4: seq<seq<nat>>, destination4: seq<seq<nat>>, source6: seq<seq<nat>>,
                                 destination6: seq<seq<nat>>)

  ghost predicate Known(f: NetFilter, g: NetGroups) {
    f.source4 < |g.source4| && f.destination4 < |g.destination4| && f.source6 < |g.source6|
    && f.destination6 < |g.destination6|
  }

  ghost predicate Bounded(g: NetGroups, height: nat, width: nat) {
    && (forall k, x | 0 <= k < |g.source4| && x in g.source4[k] :: x < height)
    && (forall k, x | 0 <= k < |g.source6| && x in g.source6[k] :: x < height)
    && (forall k, x | 0 <= k < |g.destination4| && x in g.destination4[k] :: x < width)
    && (forall k, x | 0 <= k < |g.destination6| && x in g.destination6[k] :: x < width)
  }

  /** The cell belongs to the filter: in one family both its groups are listed. */
  ghost predicate InNets(f: NetFilter, g: NetGroups, c: Pair)
    requires Known(f, g)
  {
    || (c.0 in g.source4[f.source4] && c.1 in g.destination4[f.destination4])
    || (c.0 in g.source6[f.source6] && c.1 in g.destination6[f.destination6])
  }

  /** The width of the table: the least power of two that is large enough. */
  method PowerWidth(width: nat) returns (w: nat)
    requires width > 0
    ensures w >= width && IsPower(w) && (w > 1 ==> w < 2 * width)
  {
    w := 1;
    while w < width
      invariant IsPower(w) && (w > 1 ==> w < 2 * width)
    {
      w := 2 * w;
    }
  }

  predicate IsPower(n: nat) {
    n == 1 || (n > 1 && n % 2 == 0 && IsPower(n / 2))
  }

  method Cross(xs: seq<nat>, ys: seq<nat>) returns (r: seq<Pair>)
    ensures forall c: Pair :: c in r <==> c.0 in xs && c.1 in ys
  {
    r := [];
    for i := 0 to |xs|
      invariant forall c: Pair :: c in r <==> c.0 in xs[..i] && c.1 in ys
    {
      var was := r;
      for j := 0 to |ys|
        invariant forall c: Pair :: c in r <==> c in was || (c.0 == xs[i] && c.1 in ys[..j])
      {
        assert ys[..j + 1] == ys[..j] + [ys[j]];
        r := r + [(xs[i], ys[j])];
      }
      assert ys[..|ys|] == ys;
      assert xs[..i + 1] == xs[..i] + [xs[i]];
    }
    assert xs[..|xs|] == xs;
  }

  /** The cells of a filter, in the order of the loops of `compile` and `populate`. */
  method CellsOf(f: NetFilter, g: NetGroups) returns (cells: seq<Pair>)
    requires Known(f, g)
    ensures forall c: Pair :: c in cells <==> InNets(f, g, c)
  {
    var v4 := Cross(g.source4[f.source4], g.destination4[f.destination4]);
    var v6 := Cross(g.source6[f.source6], g.destination6[f.destination6]);
    cells := v4 + v6;
  }

  /**
    The finished table: a cell is in a filter exactly when its group is one of the groups of the
    filter, and two cells have one group exactly when the same filters contain them.
  */
  ghost predicate NetTable(cells: map<Pair, nat>, filters: seq<NetFilter>, g: NetGroups, groups: seq<set<nat>>) {
    && |groups| == |filters| && (forall k | 0 <= k < |filters| :: Known(filters[k], g))
    && (forall c: Pair, k | 0 <= k < |filters| :: InNets(filters[k], g, c) <==> At(cells, c) in groups[k])
    && (forall c: Pair, c': Pair :: At(cells, c) == At(cells, c') <==> SameNets(filters, g, c, c'))
    && (forall k, x | 0 <= k < |groups| :: x in groups[k] <==> NetGroup(cells, filters[k], g, x))
    && (forall k | 0 <= k < |groups| :: 0 !in groups[k])
  }

  ghost predicate SameNets(filters: seq<NetFilter>, g: NetGroups, c: Pair, c': Pair)
    requires forall k | 0 <= k < |filters| :: Known(filters[k], g)
  {
    forall k | 0 <= k < |filters| :: InNets(filters[k], g, c) <==> InNets(filters[k], g, c')
  }

  ghost predicate NetGroup(cells: map<Pair, nat>, f: NetFilter, g: NetGroups, x: nat)
    requires Known(f, g)
  {
    exists c: Pair :: At(cells, c) == x && InNets(f, g, c)
  }

  /** `prepare`, `compile` and `populate` of the network table of `height` rows and at least `width` columns. */
  method Build(filters: seq<NetFilter>, g: NetGroups, height: nat, width: nat) returns (cells: map<Pair, nat>,
                                                                                        groups: seq<set<nat>>,
                                                                                        columns: nat)
    requires (forall k | 0 <= k < |filters| :: Known(filters[k], g)) && Bounded(g, height, width)
    ensures NetTable(cells, filters, g, groups)
    ensures forall k, c: Pair | 0 <= k < |filters| && InNets(filters[k], g, c) :: c.0 < height && c.1 < columns
    ensures width <= columns && (height > 0 && width > 0 ==> IsPower(columns) && (columns > 1 ==> columns < 2 * width))
  {
    columns := width;
    if height > 0 && width > 0 {
      columns := PowerWidth(width);
    }
    forall k, c: Pair | 0 <= k < |filters| && InNets(filters[k], g, c)
      ensures c.0 < height && c.1 < columns
    {
      InBounds(filters[k], g, height, width, c);
    }
    hide Bounded, IsPower;
    var lists: seq<seq<Pair>> := [];
    for k := 0 to |filters|
      invariant |lists| == k
      invariant forall i, c: Pair | 0 <= i < k :: c in lists[i] <==> InNets(filters[i], g, c)
    {
      var list := CellsOf(filters[k], g);
      lists := lists + [list];
    }
    var table := new Table<Pair>();
    table.Compile(lists);
    groups := table.Populate(lists);
    cells := table.cells;
    TableNets(cells, filters, g, lists, groups, table.groupId);
  }

  /** The indexes of the cells that are written stay within the table of `height` rows and `width` columns. */
  lemma InBounds(f: NetFilter, g: NetGroups, height: nat, width: nat, c: Pair)
    requires Known(f, g) && Bounded(g, height, width) && InNets(f, g, c)
    ensures c.0 < height && c.1 < width
  {
  }

  lemma TableNets(cells: map<Pair, nat>, filters: seq<NetFilter>, g: NetGroups, lists: seq<seq<Pair>>,
                  groups: seq<set<nat>>, next: nat)
    requires |lists| == |filters| && forall k | 0 <= k < |filters| :: Known(filters[k], g)
    requires forall i, c: Pair | 0 <= i < |lists| :: c in lists[i] <==> InNets(filters[i], g, c)
    requires TableFits(cells, lists, groups, next)
    ensures NetTable(cells, filters, g, groups)
  {
    hide InNets, Known, At;
    forall c: Pair, c': Pair
      ensures At(cells, c) == At(cells, c') <==> SameNets(filters, g, c, c')
    {
      assert SameFilters(lists, c, c') <==> SameNets(filters, g, c, c');
    }
    forall k, x | 0 <= k < |groups|
      ensures x in groups[k] <==> NetGroup(cells, filters[k], g, x)
    {
      assert x in groups[k] <==> HasId(cells, lists[k], x);
    }
  }
}
