/**
  The tables of groups over index tuples: the network table and the transport table share one
  way of inserting a cell (`table_insert`) and of reading the groups of a filter (`table_get`).
*/
module GroupTable {
  import opened Base
  import opened Partition

  ghost function SetOf<K(!new)>(keys: seq<K>): iset<K> {
    iset k | k in keys
  }

  ghost function SetsOf<K(!new)>(lists: seq<seq<K>>): (sets: seq<iset<K>>)
    ensures |sets| == |lists|
  {
    seq(|lists|, i requires 0 <= i < |lists| => SetOf(lists[i]))
  }

  /** The id of a cell; a cell that was never written has id 0. */
  function At<K(==)>(cells: map<K, nat>, k: K): nat {
    if k in cells then cells[k] else 0
  }

  ghost function LabelsOf<K(!new)>(cells: map<K, nat>): imap<K, nat> {
    imap k: K | true :: At(cells, k)
  }

  /** Every filter lists exactly the ids of its cells, and a cell is in a filter exactly when its id is listed. */
  ghost predicate TableFits<K(!new)>(cells: map<K, nat>, filters: seq<seq<K>>, groups: seq<set<nat>>, next: nat) {
    && |groups| == |filters|
    && (forall c :: At(cells, c) < next)
    && (forall c, d :: At(cells, c) == At(cells, d) <==> SameFilters(filters, c, d))
    && (forall k, g | 0 <= k < |groups| :: g in groups[k] <==> HasId(cells, filters[k], g))
    && (forall c, k | 0 <= k < |filters| :: c in filters[k] <==> At(cells, c) in groups[k])
    && (forall k | 0 <= k < |groups| :: 0 !in groups[k])
  }

  ghost predicate SameFilters<K(!new)>(filters: seq<seq<K>>, c: K, d: K) {
    forall k | 0 <= k < |filters| :: c in filters[k] <==> d in filters[k]
  }

  class Table<K(==, !new)> {
    var cells: map<K, nat>
    var groupId: nat
    var initial: nat
    var remap: map<nat, nat>

    constructor ()
      ensures cells == map[] && groupId == 1
    {
      cells, groupId, initial, remap := map[], 1, 1, map[];
    }

    ghost function Ids(): imap<K, nat>
      reads this
    {
      LabelsOf(cells)
    }

    /** `table_insert`: a cell whose group predates the filter moves to the remapped group. */
    method Insert(k: K, ghost before: imap<K, nat>, ghost done: iset<K>)
      requires Splitting(before, Ids(), done, remap, initial, groupId)
      modifies this`cells, this`groupId, this`remap
      ensures Splitting(before, Ids(), done + iset{k}, remap, initial, groupId)
    {
      ghost var ids, was, next := Ids(), remap, groupId;
      var value := At(cells, k);
      if value >= initial {
        SplitSeen(before, ids, done, iset{k}, remap, initial, groupId);
        return;
      }
      if value !in remap {
        remap := remap[value := groupId];
        cells := cells[k := groupId];
        groupId := groupId + 1;
      } else {
        cells := cells[k := remap[value]];
      }
      SplitMove(before, ids, Ids(), done, iset{k}, was, remap, initial, next, groupId, value);
    }

    /** One filter of `compile`: all its cells are inserted. */
    method CompileFilter(keys: seq<K>, ghost filters: seq<seq<K>>)
      requires groupId >= 1 && Classifies(Ids(), SetsOf(filters), groupId) && ZeroOutside(Ids(), SetsOf(filters))
      modifies this
      ensures groupId >= 1
      ensures Classifies(Ids(), SetsOf(filters + [keys]), groupId) && ZeroOutside(Ids(), SetsOf(filters + [keys]))
    {
      hide Splitting, Classifies, LabelsOf, ZeroOutside;
      ghost var before, lo := Ids(), groupId;
      remap := map[];
      initial := groupId;
      LabelsBelow(before, SetsOf(filters), lo);
      SplitStart(before, lo);
      assert SetOf(keys[..0]) == iset{};
      for i := 0 to |keys|
        invariant initial == lo
        invariant Splitting(before, Ids(), SetOf(keys[..i]), remap, lo, groupId)
      {
        Insert(keys[i], before, SetOf(keys[..i]));
        assert SetOf(keys[..i]) + iset{keys[i]} == SetOf(keys[..i + 1]);
      }
      assert keys[..|keys|] == keys;
      ZeroKept(before, Ids(), SetsOf(filters), SetOf(keys), remap, lo, groupId);
      SplitTable(before, Ids(), SetsOf(filters), SetOf(keys), remap, lo, groupId);
      assert SetsOf(filters + [keys]) == SetsOf(filters) + [SetOf(keys)];
    }

    /** `compile`: two cells get one group exactly when the same filters contain them. */
    method Compile(filters: seq<seq<K>>)
      requires groupId == 1 && cells == map[]
      modifies this
      ensures groupId >= 1
      ensures Classifies(Ids(), SetsOf(filters), groupId) && ZeroOutside(Ids(), SetsOf(filters))
    {
      assert Classifies(Ids(), SetsOf(filters[..0]), 1);
      hide Classifies, ZeroOutside;
      for i := 0 to |filters|
        invariant groupId >= 1
        invariant Classifies(Ids(), SetsOf(filters[..i]), groupId) && ZeroOutside(Ids(), SetsOf(filters[..i]))
      {
        CompileFilter(filters[i], filters[..i]);
        assert filters[..i + 1] == filters[..i] + [filters[i]];
      }
      assert filters[..|filters|] == filters;
    }

    /** `populate`: the groups of every filter. */
    method Populate(filters: seq<seq<K>>) returns (groups: seq<set<nat>>)
      requires Classifies(Ids(), SetsOf(filters), groupId) && ZeroOutside(Ids(), SetsOf(filters))
      ensures TableFits(cells, filters, groups, groupId)
    {
      groups := [];
      for i := 0 to |filters|
        invariant |groups| == i
        invariant forall j, g | 0 <= j < i :: g in groups[j] <==> HasId(cells, filters[j], g)
      {
        var ids: set<nat> := {};
        for j := 0 to |filters[i]|
          invariant forall g :: g in ids <==> HasId(cells, filters[i][..j], g)
        {
          assert filters[i][..j + 1] == filters[i][..j] + [filters[i][j]];
          ids := ids + {At(cells, filters[i][j])};
        }
        assert filters[i][..|filters[i]|] == filters[i];
        groups := groups + [ids];
      }
      TableListed(cells, filters, groups, groupId);
    }
  }

  ghost predicate HasId<K(!new)>(cells: map<K, nat>, keys: seq<K>, g: nat) {
    exists c :: c in keys && At(cells, c) == g
  }

  lemma LabelsBelow<K(!new)>(labels: imap<K, nat>, sets: seq<iset<K>>, next: nat)
    requires Classifies(labels, sets, next)
    ensures forall c | c in labels :: labels[c] < next
  {
  }

  lemma SplitTable<K(!new)>(before: imap<K, nat>, now: imap<K, nat>, sets: seq<iset<K>>, filter: iset<K>,
                            remap: map<nat, nat>, lo: nat, next: nat)
    requires Splitting(before, now, filter, remap, lo, next) && lo >= 1 && Classifies(before, sets, lo)
    ensures Classifies(now, sets + [filter], next) && next >= 1
  {
    SplitClassifies(before, now, sets, filter, filter, remap, lo, next);
  }

  lemma TableListed<K(!new)>(cells: map<K, nat>, filters: seq<seq<K>>, groups: seq<set<nat>>, next: nat)
    requires Classifies(LabelsOf(cells), SetsOf(filters), next) && ZeroOutside(LabelsOf(cells), SetsOf(filters))
             && |groups| == |filters|
    requires forall k, g | 0 <= k < |groups| :: g in groups[k] <==> HasId(cells, filters[k], g)
    ensures TableFits(cells, filters, groups, next)
  {
    forall c, d
      ensures At(cells, c) == At(cells, d) <==> SameFilters(filters, c, d)
    {
      SameIds(cells, filters, next, c, d);
    }
    forall c
      ensures At(cells, c) < next
    {
      SameIds(cells, filters, next, c, c);
    }
    forall c, k | 0 <= k < |filters| && c in filters[k]
      ensures At(cells, c) != 0
    {
      assert c in LabelsOf(cells) && c in SetsOf(filters)[k];
    }
    hide Classifies, LabelsOf, SetsOf, At;
    forall c, k | 0 <= k < |filters|
      ensures c in filters[k] <==> At(cells, c) in groups[k]
    {
      if HasId(cells, filters[k], At(cells, c)) {
        var d :| d in filters[k] && At(cells, d) == At(cells, c);
        assert SameFilters(filters, c, d);
      }
    }
  }

  lemma SameIds<K(!new)>(cells: map<K, nat>, filters: seq<seq<K>>, next: nat, c: K, d: K)
    requires Classifies(LabelsOf(cells), SetsOf(filters), next)
    ensures At(cells, c) == At(cells, d) <==> SameFilters(filters, c, d)
    ensures At(cells, c) < next
  {
    var labels, sets := LabelsOf(cells), SetsOf(filters);
    assert c in labels && d in labels && labels[c] == At(cells, c) && labels[d] == At(cells, d);
    assert Alike(sets, c, d) <==> SameFilters(filters, c, d) by {
      forall k | 0 <= k < |filters|
        ensures c in sets[k] <==> c in filters[k]
        ensures d in sets[k] <==> d in filters[k]
      {
      }
    }
  }
}
