/**
  Every stage of the ACL compiler plays the same game: cells carry group ids, and each filter
  splits the groups it cuts through.  A filter visits its cells in some order; a cell whose id
  predates the filter is moved to the id that `remap` holds for its old id (allocated on first
  use), and a cell that already carries an id of this filter is left alone.

  This module states what such a run means (`Splitting`), and that after any list of filters two
  cells carry the same id exactly when they lie in the same filters (`Classifies`).
*/
module Partition {

  /** The cells c and d lie in the same filters. */
  ghost predicate Alike<C>(filters: seq<iset<C>>, c: C, d: C) {
    forall k | 0 <= k < |filters| :: c in filters[k] <==> d in filters[k]
  }

  /** Ids are below `next`, and equal ids mean equal membership in every filter. */
  ghost predicate Classifies<C(!new)>(labels: imap<C, nat>, filters: seq<iset<C>>, next: nat) {
    && (forall c | c in labels :: labels[c] < next)
    && (forall c, d | c in labels && d in labels :: labels[c] == labels[d] <==> Alike(filters, c, d))
  }

  /** `now` is `before` with the cells of `done` moved by the injective `remap` to ids in [lo, next). */
  ghost predicate Splitting<C(!new)>(before: imap<C, nat>, now: imap<C, nat>, done: iset<C>,
                                     remap: map<nat, nat>, lo: nat, next: nat)
  {
    && before.Keys == now.Keys
    && lo <= next
    && (forall c | c in before :: before[c] < lo)
    && (forall c | c in now && c !in done :: now[c] == before[c])
    && (forall c | c in now && c in done :: before[c] in remap && now[c] == remap[before[c]])
    && (forall l | l in remap :: lo <= remap[l] < next)
    && (forall l, m | l in remap && m in remap && remap[l] == remap[m] :: l == m)
  }

  /** The map held by a vector in which 0 stands for "not assigned yet". */
  function Assigned(vec: seq<nat>): (m: map<nat, nat>)
  {
    map l: nat | l < |vec| && vec[l] != 0 :: vec[l]
  }

  /** A run starts with nothing visited and nothing remapped. */
  lemma SplitStart<C(!new)>(labels: imap<C, nat>, lo: nat)
    requires forall c | c in labels :: labels[c] < lo
    ensures Splitting(labels, labels, iset{}, map[], lo, lo)
  {
  }

  /** Visiting cells that already carry an id of this run changes nothing. */
  lemma SplitSeen<C(!new)>(before: imap<C, nat>, now: imap<C, nat>, done: iset<C>, cells: iset<C>,
                           remap: map<nat, nat>, lo: nat, next: nat)
    requires Splitting(before, now, done, remap, lo, next)
    requires forall c | c in cells && c in now :: now[c] >= lo
    ensures Splitting(before, now, done + cells, remap, lo, next)
  {
  }

  /** Visiting cells that share the older id `id` moves them to the id remapped from it. */
  lemma SplitMove<C(!new)>(before: imap<C, nat>, now: imap<C, nat>, now': imap<C, nat>,
                           done: iset<C>, cells: iset<C>, remap: map<nat, nat>, remap': map<nat, nat>,
                           lo: nat, next: nat, next': nat, id: nat)
    requires Splitting(before, now, done, remap, lo, next)
    requires id < lo
    requires forall c | c in cells && c in now :: now[c] == id
    requires if id in remap then remap' == remap && next' == next
             else remap' == remap[id := next] && next' == next + 1
    requires now'.Keys == now.Keys
    requires forall c | c in now :: now'[c] == if c in cells then remap'[id] else now[c]
    ensures Splitting(before, now', done + cells, remap', lo, next')
  {
  }

  /** A finished run turns a classification by `filters` into one by `filters` and the new filter. */
  lemma SplitClassifies<C(!new)>(before: imap<C, nat>, now: imap<C, nat>, filters: seq<iset<C>>, filter: iset<C>,
                                 done: iset<C>, remap: map<nat, nat>, lo: nat, next: nat)
    requires Classifies(before, filters, lo)
    requires Splitting(before, now, done, remap, lo, next)
    requires forall c | c in before :: c in done <==> c in filter
    ensures Classifies(now, filters + [filter], next)
  {
    var filters' := filters + [filter];
    forall c, d | c in now && d in now
      ensures now[c] == now[d] <==> Alike(filters', c, d)
    {
      assert forall k | 0 <= k < |filters| :: filters'[k] == filters[k];
      assert filters'[|filters|] == filter;
      assert before[c] == before[d] <==> Alike(filters, c, d);
      assert Alike(filters', c, d) <==> Alike(filters, c, d) && (c in filter <==> d in filter);
    }
  }

  ghost predicate Outside<C>(filters: seq<iset<C>>, c: C) {
    forall k | 0 <= k < |filters| :: c !in filters[k]
  }

  /** Group id 0 means: in no filter. */
  ghost predicate ZeroOutside<C(!new)>(labels: imap<C, nat>, filters: seq<iset<C>>) {
    forall c | c in labels :: labels[c] == 0 <==> Outside(filters, c)
  }

  lemma ZeroKept<C(!new)>(before: imap<C, nat>, now: imap<C, nat>, filters: seq<iset<C>>, done: iset<C>,
                          remap: map<nat, nat>, lo: nat, next: nat)
    requires Splitting(before, now, done, remap, lo, next) && lo >= 1 && ZeroOutside(before, filters)
    ensures ZeroOutside(now, filters + [done])
  {
    forall c | c in now
      ensures now[c] == 0 <==> Outside(filters + [done], c)
    {
      assert Outside(filters + [done], c) <==> Outside(filters, c) && c !in done by {
        assert (filters + [done])[|filters|] == done;
        assert forall k | 0 <= k < |filters| :: (filters + [done])[k] == filters[k];
      }
    }
  }
}
