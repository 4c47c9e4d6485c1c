/**
  The total table (`total_table_t`): for every acl and transport group the actions of the rules that
  match, in the order of the rules, up to the first terminating one; and the store of these
  actions (`value_t`).
*/
module TotalTable {
  import opened Base
  import opened Actions
  import opened Rules
  import opened TransportGroups

  // ----- the store of actions ---------------------------------------------------------------

  /** The actions with the given numbers. */
  function Select(actions: seq<Action>, list: seq<nat>): (r: seq<Action>)
    requires forall i | 0 <= i < |list| :: list[i] < |actions|
    ensures |r| == |list|
  {
    seq(|list|, i requires 0 <= i < |list| => actions[list[i]])
  }

  class Store {
    /** Number 0 is the default action, number k + 1 the action of rule k. */
    const actions: seq<Action>
    var vector: seq<Intermediate>
    ghost var lists: seq<seq<nat>>

    /** Every entry holds the actions of its list; all but the last action do not end the search. */
    ghost predicate Valid()
      reads this, vector
    {
      && |vector| == |lists| && actions != [] && actions[0].Flow?
      && (forall i, j | 0 <= i < |vector| && 0 <= j < |vector| && vector[i] == vector[j] :: i == j)
      && (forall i | 0 <= i < |vector| :: Known(actions, lists[i]) && vector[i].Holds(Select(actions, lists[i])))
    }

    constructor (rules: seq<Rule>, drop: Action)
      requires drop.Flow?
      ensures Valid() && vector == []
              && actions == [drop] + seq(|rules|, k requires 0 <= k < |rules| => rules[k].action)
    {
      actions := [drop] + seq(|rules|, k requires 0 <= k < |rules| => rules[k].action);
      vector, lists := [], [];
    }

    /** `collect`: a new entry with one action. */
    method Collect(a: nat) returns (id: nat)
      requires Valid() && a < |actions|
      modifies this`vector, this`lists
      ensures Valid() && id == |old(vector)| == |old(lists)| && lists == old(lists) + [[a]]
      ensures |vector| == id + 1 && vector[..id] == old(vector) && fresh(vector[id])
    {
      hide Picks, Intermediate.Holds;
      var entry := new Intermediate();
      assert Select(actions, [a]) == [actions[a]];
      assert NoFlow([]);
      entry.Add(actions[a], []);
      assert [] + [actions[a]] == Select(actions, [a]);
      id := |vector|;
      vector, lists := vector + [entry], lists + [[a]];
    }

    /** `append_to_last` */
    method AppendToLast(a: nat)
      requires Valid() && a < |actions| && vector != [] && NoFlow(Select(actions, Last(lists)))
      modifies this`lists, vector[|vector| - 1]
      ensures Valid() && lists == Front(old(lists)) + [Last(old(lists)) + [a]]
    {
      hide Picks, Intermediate.Holds;
      var entry := vector[|vector| - 1];
      ghost var list := Last(lists);
      entry.Add(actions[a], Select(actions, list));
      assert Select(actions, list) + [actions[a]] == Select(actions, list + [a]);
      lists := Front(lists) + [list + [a]];
    }

    /** `value_t::compile`: the paths of all entries. */
    method Compile() returns (paths: seq<Path>)
      requires Valid()
      modifies this.vector
      ensures |paths| == |old(lists)|
      ensures forall i | 0 <= i < |paths| ::
                Known(actions, old(lists)[i]) && Executes(paths[i], Select(actions, old(lists)[i]), actions[0])
    {
      hide Executes;
      paths := [];
      for i := 0 to |vector|
        invariant |paths| == i && lists == old(lists) && vector == old(vector)
        invariant forall j | 0 <= j < |vector| :: Known(actions, lists[j])
        invariant forall j | i <= j < |vector| :: vector[j].Holds(Select(actions, lists[j]))
        invariant forall j | 0 <= j < i :: Executes(paths[j], Select(actions, lists[j]), actions[0])
      {
        var path := vector[i].Compile(actions[0], Select(actions, lists[i]));
        paths := paths + [path];
      }
    }
  }

  ghost predicate Known(actions: seq<Action>, list: seq<nat>) {
    list != [] && forall i | 0 <= i < |list| :: list[i] < |actions|
  }

  // ----- the rules of a group ---------------------------------------------------------------

  /** Rule r of the acl has a filter that is listed for the group. */
  ghost predicate Hit(rules: seq<Rule>, ids: seq<nat>, listed: map<nat, seq<nat>>, acl: nat, g: nat, r: nat) {
    r < |rules| && r < |ids| && rules[r].acl == acl && HasFilter(listed, g, ids[r])
  }

  /** No hit before rule r ends the search. */
  ghost predicate Open(rules: seq<Rule>, ids: seq<nat>, listed: map<nat, seq<nat>>, acl: nat, g: nat, r: nat) {
    forall q: nat | q < r && Hit(rules, ids, listed, acl, g, q) :: !rules[q].Terminating()
  }

  /** The hits in order, up to and including the first that ends the search. */
  ghost predicate FirstHits(rules: seq<Rule>, ids: seq<nat>, listed: map<nat, seq<nat>>, acl: nat, g: nat,
                            list: seq<nat>) {
    && Increasing(list)
    && forall r: nat :: r in list <==> Hit(rules, ids, listed, acl, g, r) && Open(rules, ids, listed, acl, g, r)
  }

  /** `filter_id_acl_id_rule_ids` */
  type ByFilter = map<nat, map<nat, set<nat>>>

  ghost predicate InFilter(index: ByFilter, f: nat, acl: nat, r: nat) {
    f in index && acl in index[f] && r in index[f][acl]
  }

  ghost predicate Gathered(index: ByFilter, rules: seq<Rule>, ids: seq<nat>, n: nat)
    requires n <= |rules| && n <= |ids|
  {
    && (forall f, acl, r: nat :: InFilter(index, f, acl, r) <==> r < n && ids[r] == f && rules[r].acl == acl)
    && (forall f, acl | f in index && acl in index[f] :: index[f][acl] != {})
  }

  /** `total_table_t::collect` for all rules. */
  method Gather(rules: seq<Rule>, ids: seq<nat>) returns (index: ByFilter)
    requires |ids| == |rules|
    ensures Gathered(index, rules, ids, |rules|)
  {
    index := map[];
    for r := 0 to |rules|
      invariant Gathered(index, rules, ids, r)
    {
      var f, acl, was := ids[r], rules[r].acl, index;
      var inner := if f in index then index[f] else map[];
      index := index[f := inner[acl := (if acl in inner then inner[acl] else {}) + {r}]];
      forall f', acl', q: nat
        ensures InFilter(index, f', acl', q) <==> InFilter(was, f', acl', q) || (f' == f && acl' == acl && q == r)
      {
      }
    }
  }

  ghost predicate HitsTo(hits: map<nat, set<nat>>, index: ByFilter, filters: seq<nat>, n: nat) {
    && (forall acl, r: nat :: InHits(hits, acl, r) <==> HitBy(index, filters, n, acl, r))
    && (forall acl | acl in hits :: hits[acl] != {})
  }

  ghost predicate InHits(hits: map<nat, set<nat>>, acl: nat, r: nat) {
    acl in hits && r in hits[acl]
  }

  ghost predicate HitBy(index: ByFilter, filters: seq<nat>, n: nat, acl: nat, r: nat) {
    exists i :: 0 <= i < n && i < |filters| && InFilter(index, filters[i], acl, r)
  }

  /** The rules of a group, by acl. */
  method HitsOf(index: ByFilter, filters: seq<nat>) returns (hits: map<nat, set<nat>>)
    requires forall f, acl | f in index && acl in index[f] :: index[f][acl] != {}
    ensures HitsTo(hits, index, filters, |filters|)
  {
    hits := map[];
    for i := 0 to |filters|
      invariant HitsTo(hits, index, filters, i)
    {
      var was := hits;
      if filters[i] in index {
        var inner := index[filters[i]];
        hits := was + map acl | acl in inner :: (if acl in was then was[acl] else {}) + inner[acl];
      }
      HitsStep(was, hits, index, filters, i);
    }
  }

  lemma HitsStep(was: map<nat, set<nat>>, hits: map<nat, set<nat>>, index: ByFilter, filters: seq<nat>, i: nat)
    requires i < |filters| && HitsTo(was, index, filters, i) && forall f, acl | f in index
             && acl in index[f] :: index[f][acl] != {}
    requires hits == if filters[i] in index
                     then was + map acl | acl in index[filters[i]] ::
                            (if acl in was then was[acl] else {}) + index[filters[i]][acl] else was
    ensures HitsTo(hits, index, filters, i + 1)
  {
    var n := i + 1;
    forall acl, r: nat
      ensures InHits(hits, acl, r) <==> HitBy(index, filters, n, acl, r)
    {
      HitByMore(index, filters, i, acl, r);
      hide HitBy;
      assert InHits(was, acl, r) <==> HitBy(index, filters, i, acl, r);
    }
    hide HitBy, InHits, InFilter;
  }

  lemma HitByMore(index: ByFilter, filters: seq<nat>, i: nat, acl: nat, r: nat)
    requires i < |filters|
    ensures HitBy(index, filters, i + 1, acl, r)
            <==> HitBy(index, filters, i, acl, r) || InFilter(index, filters[i], acl, r)
  {
    hide InFilter;
  }

  lemma HitsAre(rules: seq<Rule>, ids: seq<nat>, listed: map<nat, seq<nat>>, index: ByFilter,
                hits: map<nat, set<nat>>, g: nat, acl: nat, r: nat)
    requires |ids| == |rules| && Gathered(index, rules, ids, |rules|) && g in listed
             && HitsTo(hits, index, listed[g], |listed[g]|)
    ensures InHits(hits, acl, r) <==> Hit(rules, ids, listed, acl, g, r)
  {
    assert InHits(hits, acl, r) <==> HitBy(index, listed[g], |listed[g]|, acl, r);
    if Hit(rules, ids, listed, acl, g, r) {
      var i :| 0 <= i < |listed[g]| && listed[g][i] == ids[r];
      assert InFilter(index, listed[g][i], acl, r);
    }
    if HitBy(index, listed[g], |listed[g]|, acl, r) {
      var i :| 0 <= i < |listed[g]| && InFilter(index, listed[g][i], acl, r);
      assert listed[g][i] in listed[g];
    }
  }

  // ----- filling the table ------------------------------------------------------------------

  /** The numbers of the actions of the rules. */
  ghost function ActionIds(list: seq<nat>): (r: seq<nat>)
    ensures |r| == |list|
  {
    seq(|list|, i requires 0 <= i < |list| => list[i] + 1)
  }

  /** The elements of the set in order, up to and including the first terminating rule. */
  ghost predicate FirstOf(rules: seq<Rule>, hits: set<nat>, list: seq<nat>) {
    && Increasing(list) && list != []
    && forall r: nat ::
         r in list
         <==> r < |rules| && r in hits && forall q: nat | q < r && q < |rules| && q in hits :: !rules[q].Terminating()
  }

  ghost predicate StoreOf(rules: seq<Rule>, actions: seq<Action>) {
    |actions| == |rules| + 1 && forall k | 0 <= k < |rules| :: actions[k + 1] == rules[k].action
  }

  /** One key: the first rule opens the entry, the others follow until one terminates. */
  method Fill(rules: seq<Rule>, hits: set<nat>, store: Store) returns (id: nat, list: seq<nat>)
    requires store.Valid() && StoreOf(rules, store.actions) && hits != {} && forall r: nat | r in hits :: r < |rules|
    modifies store`vector, store`lists
    ensures store.Valid() && id == |old(store.vector)| == |old(store.lists)|
            && store.lists == old(store.lists) + [ActionIds(list)]
    ensures |store.vector| == id + 1 && store.vector[..id] == old(store.vector) && fresh(store.vector[id])
    ensures FirstOf(rules, hits, list)
  {
    hide *;
    var order := Ascending(hits, |rules|);
    OrderIn(order, hits);
    StoreSize(rules, store.actions);
    var n := 1;
    id := store.Collect(order[0] + 1);
    ActionIdsMore(order, 0);
    while n < |order| && !rules[order[n - 1]].Terminating()
      invariant 1 <= n <= |order| && store.Valid() && store.lists == old(store.lists) + [ActionIds(order[..n])]
      invariant |store.vector| == id + 1 && store.vector[..id] == old(store.vector) && fresh(store.vector[id])
      invariant forall i | 0 <= i < n - 1 :: !rules[order[i]].Terminating()
    {
      NoFlowYet(rules, store.actions, order, n);
      FrontLast(old(store.lists), ActionIds(order[..n]));
      store.AppendToLast(order[n] + 1);
      ActionIdsMore(order, n);
      n := n + 1;
    }
    list := order[..n];
    OrderIncreasing(order);
    CutOff(rules, hits, order, n);
  }

  lemma StoreSize(rules: seq<Rule>, actions: seq<Action>)
    requires StoreOf(rules, actions)
    ensures |actions| == |rules| + 1
  {
  }

  lemma ActionIdsMore(order: seq<nat>, n: nat)
    requires n < |order|
    ensures (n == 0 ==> ActionIds(order[..1]) == [order[0] + 1])
            && ActionIds(order[..n]) + [order[n] + 1] == ActionIds(order[..n + 1])
  {
  }

  lemma FrontLast(s: seq<seq<nat>>, x: seq<nat>)
    ensures Front(s + [x]) == s && Last(s + [x]) == x
  {
  }

  lemma OrderIncreasing(order: seq<nat>)
    requires forall i, j | 0 <= i < j < |order| :: order[i] < order[j]
    ensures Increasing(order)
  {
  }

  lemma OrderIn(order: seq<nat>, hits: set<nat>)
    requires (forall r: nat :: r in order <==> r in hits) && hits != {}
    ensures |order| > 0 && forall i | 0 <= i < |order| :: order[i] in hits
  {
    var r :| r in hits;
    assert r in order;
    assert forall i | 0 <= i < |order| :: order[i] in order;
  }

  lemma NoFlowYet(rules: seq<Rule>, actions: seq<Action>, order: seq<nat>, n: nat)
    requires StoreOf(rules, actions) && n <= |order|
             && forall i | 0 <= i < n :: order[i] < |rules| && !rules[order[i]].Terminating()
    ensures forall i | 0 <= i < |ActionIds(order[..n])| :: ActionIds(order[..n])[i] < |actions|
    ensures NoFlow(Select(actions, ActionIds(order[..n])))
  {
  }

  lemma CutOff(rules: seq<Rule>, hits: set<nat>, order: seq<nat>, n: nat)
    requires (forall r: nat :: r in order <==> r in hits) && Increasing(order) && 1 <= n <= |order|
    requires forall i | 0 <= i < |order| :: order[i] < |rules|
    requires (forall i | 0 <= i < n - 1 :: !rules[order[i]].Terminating())
             && (n == |order| || rules[order[n - 1]].Terminating())
    ensures FirstOf(rules, hits, order[..n])
  {
    var list := order[..n];
    forall r: nat
      ensures r in list
              <==> r < |rules| && r in hits && forall q: nat | q < r && q < |rules|
                   && q in hits :: !rules[q].Terminating()
    {
      if r in list {
        var i :| 0 <= i < n && order[i] == r;
        assert r in order;
        forall q: nat | q < r && q < |rules| && q in hits
          ensures !rules[q].Terminating()
        {
          assert q in order;
          var j :| 0 <= j < |order| && order[j] == q;
        }
      } else if r in hits {
        CutAway(order, n, r);
        assert order[n - 1] in hits;
      }
    }
  }

  lemma CutAway(order: seq<nat>, n: nat, r: nat)
    requires Increasing(order) && 1 <= n <= |order| && r in order && r !in order[..n]
    ensures n < |order| && order[n - 1] < r && order[n - 1] in order
  {
    var i :| 0 <= i < |order| && order[i] == r;
  }

  ghost predicate SomeHit(rules: seq<Rule>, ids: seq<nat>, listed: map<nat, seq<nat>>, acl: nat, g: nat) {
    exists r: nat :: Hit(rules, ids, listed, acl, g, r)
  }

  ghost predicate EntryFits(rules: seq<Rule>, ids: seq<nat>, listed: map<nat, seq<nat>>, table: map<(nat, nat), nat>,
                            lists: seq<seq<nat>>,
                            acl: nat, g: nat)
    requires (acl, g) in table
  {
    table[(acl, g)] < |lists| && FirstHits(rules, ids, listed, acl, g, lists[table[(acl, g)]])
  }

  /** Every key has the list of its rules. */
  ghost predicate EntriesFit(rules: seq<Rule>, ids: seq<nat>, listed: map<nat, seq<nat>>, table: map<(nat, nat), nat>,
                             lists: seq<seq<nat>>) {
    forall acl: nat, g: nat | (acl, g) in table :: EntryFits(rules, ids, listed, table, lists, acl, g)
  }

  ghost predicate Stored(lists: seq<seq<nat>>, stored: seq<seq<nat>>) {
    |stored| == |lists| && forall i | 0 <= i < |lists| :: stored[i] == ActionIds(lists[i])
  }

  lemma EntryMore(rules: seq<Rule>, ids: seq<nat>, listed: map<nat, seq<nat>>, table: map<(nat, nat), nat>,
                  lists: seq<seq<nat>>,
                  acl: nat, g: nat, list: seq<nat>)
    requires EntriesFit(rules, ids, listed, table, lists) && FirstHits(rules, ids, listed, acl, g, list)
    ensures EntriesFit(rules, ids, listed, table[(acl, g) := |lists|], lists + [list])
  {
    hide FirstHits;
    var table', lists' := table[(acl, g) := |lists|], lists + [list];
    forall a: nat, h: nat | (a, h) in table'
      ensures EntryFits(rules, ids, listed, table', lists', a, h)
    {
      if (a, h) != (acl, g) {
        assert EntryFits(rules, ids, listed, table, lists, a, h);
      }
    }
  }

  lemma StoredSize(lists: seq<seq<nat>>, stored: seq<seq<nat>>)
    requires Stored(lists, stored)
    ensures |lists| == |stored|
  {
  }

  lemma StoredMore(lists: seq<seq<nat>>, stored: seq<seq<nat>>, list: seq<nat>)
    requires Stored(lists, stored)
    ensures Stored(lists + [list], stored + [ActionIds(list)])
  {
  }

  lemma HitsFirst(rules: seq<Rule>, ids: seq<nat>, listed: map<nat, seq<nat>>, index: ByFilter,
                  hits: map<nat, set<nat>>, g: nat, acl: nat,
                  list: seq<nat>)
    requires |ids| == |rules| && Gathered(index, rules, ids, |rules|) && g in listed
             && HitsTo(hits, index, listed[g], |listed[g]|)
    requires acl in hits && FirstOf(rules, hits[acl], list)
    ensures FirstHits(rules, ids, listed, acl, g, list)
  {
    forall r: nat
      ensures r < |rules| && r in hits[acl] <==> Hit(rules, ids, listed, acl, g, r)
    {
      HitsAre(rules, ids, listed, index, hits, g, acl, r);
    }
    hide Hit, HitsTo, Gathered, Increasing;
    forall r: nat
      ensures Open(rules, ids, listed, acl, g, r)
              <==> forall q: nat | q < r && q < |rules| && q in hits[acl] :: !rules[q].Terminating()
    {
    }
  }

  lemma HitsSome(rules: seq<Rule>, ids: seq<nat>, listed: map<nat, seq<nat>>, index: ByFilter,
                 hits: map<nat, set<nat>>, g: nat, acl: nat)
    requires |ids| == |rules| && Gathered(index, rules, ids, |rules|) && g in listed
             && HitsTo(hits, index, listed[g], |listed[g]|)
    ensures acl in hits <==> SomeHit(rules, ids, listed, acl, g)
    ensures acl in hits ==> hits[acl] != {} && forall r: nat | r in hits[acl] :: r < |rules|
  {
    forall r: nat
      ensures InHits(hits, acl, r) <==> Hit(rules, ids, listed, acl, g, r)
    {
      HitsAre(rules, ids, listed, index, hits, g, acl, r);
    }
    if acl in hits {
      var r :| r in hits[acl];
      assert InHits(hits, acl, r);
      forall q: nat | q in hits[acl]
        ensures q < |rules|
      {
        assert InHits(hits, acl, q);
      }
    }
    hide Gathered;
  }

  /** All keys of one group. */
  method FillGroup(rules: seq<Rule>, ids: seq<nat>, ghost listed: map<nat, seq<nat>>, ghost index: ByFilter,
                   hits: map<nat, set<nat>>, g: nat,
                   table: map<(nat, nat), nat>, store: Store, ghost lists: seq<seq<nat>>)
    returns (table': map<(nat, nat), nat>, ghost lists': seq<seq<nat>>)
    requires |ids| == |rules| && Gathered(index, rules, ids, |rules|) && g in listed
             && HitsTo(hits, index, listed[g], |listed[g]|)
    requires store.Valid() && StoreOf(rules, store.actions) && Stored(lists, store.lists)
             && EntriesFit(rules, ids, listed, table, lists)
    modifies store`vector, store`lists
    ensures store.Valid() && Stored(lists', store.lists) && EntriesFit(rules, ids, listed, table', lists')
    ensures forall acl: nat, h: nat ::
              (acl, h) in table' <==> (acl, h) in table || (h == g && SomeHit(rules, ids, listed, acl, g))
    ensures forall o | o in store.vector :: o in old(store.vector) || fresh(o)
  {
    hide *;
    table', lists' := table, lists;
    var todo := hits.Keys;
    while todo != {}
      invariant todo <= hits.Keys && store.Valid() && Stored(lists', store.lists)
                && EntriesFit(rules, ids, listed, table', lists')
      invariant forall acl: nat, h: nat ::
                  (acl, h) in table' <==> (acl, h) in table || (h == g && acl in hits && acl !in todo)
      invariant forall o | o in store.vector :: o in old(store.vector) || fresh(o)
    {
      var acl :| acl in todo;
      HitsSome(rules, ids, listed, index, hits, g, acl);
      ghost var was, stored := store.vector, store.lists;
      var id, list := Fill(rules, hits[acl], store);
      assert forall o | o in store.vector :: o in was || o == store.vector[id];
      StoredSize(lists', stored);
      HitsFirst(rules, ids, listed, index, hits, g, acl, list);
      EntryMore(rules, ids, listed, table', lists', acl, g, list);
      StoredMore(lists', stored, list);
      table', lists', todo := table'[(acl, g) := id], lists' + [list], todo - {acl};
    }
    forall acl: nat { HitsSome(rules, ids, listed, index, hits, g, acl); }
  }

  /** `total_table_t::compile`: the keys are the acls and groups with a rule, each with the list of its rules. */
  method Compile(rules: seq<Rule>, ids: seq<nat>, listed: map<nat, seq<nat>>, store: Store)
    returns (table: map<(nat, nat), nat>, ghost lists: seq<seq<nat>>)
    requires |ids| == |rules| && store.Valid() && StoreOf(rules, store.actions) && store.vector == []
    modifies store`vector, store`lists
    ensures store.Valid() && Stored(lists, store.lists) && EntriesFit(rules, ids, listed, table, lists)
    ensures forall acl: nat, g: nat :: (acl, g) in table <==> SomeHit(rules, ids, listed, acl, g)
    ensures forall i | 0 <= i < |store.vector| :: fresh(store.vector[i])
  {
    var index := Gather(rules, ids);
    table, lists := map[], [];
    assert Stored(lists, store.lists) && EntriesFit(rules, ids, listed, table, lists);
    assert forall acl: nat, g: nat | SomeHit(rules, ids, listed, acl, g) :: g in listed;
    assert forall f, acl | f in index && acl in index[f] :: index[f][acl] != {};
    hide *;
    var todo := listed.Keys;
    while todo != {}
      invariant todo <= listed.Keys && store.Valid() && Stored(lists, store.lists)
                && EntriesFit(rules, ids, listed, table, lists)
      invariant forall acl: nat, g: nat ::
                  (acl, g) in table <==> g in listed && g !in todo && SomeHit(rules, ids, listed, acl, g)
      invariant forall o | o in store.vector :: fresh(o)
    {
      var g :| g in todo;
      var hits := HitsOf(index, listed[g]);
      table, lists := FillGroup(rules, ids, listed, index, hits, g, table, store, lists);
      todo := todo - {g};
    }
    forall i | 0 <= i < |store.vector|
      ensures fresh(store.vector[i])
    {
      assert store.vector[i] in store.vector;
    }
  }
}
