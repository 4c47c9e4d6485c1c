/**
  Renumbering the groups of a classification by the filters that list them: groups that are
  listed by the same filters become one group, and groups that no filter lists become group 0.
*/
module Renumber {
  import opened Partition

  /** Every filter lists exactly the ids of its cells, and no id is shared with a cell outside. */
  ghost predicate Listed<C(!new)>(labels: imap<C, nat>, filters: seq<iset<C>>, groups: seq<seq<nat>>) {
    && |groups| == |filters|
    && (forall c, k | c in labels && 0 <= k < |filters| :: c in filters[k] <==> labels[c] in groups[k])
    && (forall k, g | 0 <= k < |groups| && g in groups[k] :: exists c :: c in labels && labels[c] == g)
  }

  /** The filters that list id g. */
  ghost function Members(groups: seq<seq<nat>>, g: nat): set<nat> {
    set k: nat | k < |groups| && g in groups[k]
  }

  ghost predicate Unlisted(groups: seq<seq<nat>>, g: nat) {
    Members(groups, g) == {}
  }

  /** The new numbers: 0 for ids that nobody lists, and one number in [lo, next) for every set of filters. */
  ghost predicate Numbers(groups: seq<seq<nat>>, vec: seq<nat>, n: nat, lo: nat, next: nat) {
    && n <= |vec| && lo <= next
    && (forall g: nat | g < n && Unlisted(groups, g) :: vec[g] == 0)
    && (forall g: nat | g < n && !Unlisted(groups, g) :: lo <= vec[g] < next)
    && (forall g: nat, g': nat | g < n && g' < n && !Unlisted(groups, g) && !Unlisted(groups, g') ::
          vec[g] == vec[g'] <==> Members(groups, g) == Members(groups, g'))
    && (forall m | lo <= m < next :: Used(groups, vec, n, m))
  }

  ghost predicate Used(groups: seq<seq<nat>>, vec: seq<nat>, n: nat, m: nat) {
    exists g: nat :: g < n && g < |vec| && !Unlisted(groups, g) && vec[g] == m
  }

  ghost function Mapped(list: seq<nat>, vec: seq<nat>): (r: seq<nat>)
    requires forall i | 0 <= i < |list| :: list[i] < |vec|
    ensures |r| == |list|
  {
    seq(|list|, i requires 0 <= i < |list| => vec[list[i]])
  }

  ghost predicate MappedAll(groups: seq<seq<nat>>, groups': seq<seq<nat>>, vec: seq<nat>) {
    && |groups'| == |groups|
    && forall k | 0 <= k < |groups| ::
         (forall i | 0 <= i < |groups[k]| :: groups[k][i] < |vec|) && groups'[k] == Mapped(groups[k], vec)
  }

  /**
    After the renumbering: the cells that are in some filter have the numbers in [lo, next); they
    have one number exactly when they are in the same filters, and their number is listed by
    exactly these filters.  All other cells have number 0.
  */
  ghost predicate Renumbered<C(!new)>(labels: imap<C, nat>, filters: seq<iset<C>>, groups: seq<seq<nat>>, lo: nat,
                                      next: nat) {
    && |groups| == |filters| && lo <= next
    && (forall c | c in labels && Outside(filters, c) :: labels[c] == 0)
    && (forall c | c in labels && !Outside(filters, c) :: lo <= labels[c] < next)
    && (forall c, d | c in labels && d in labels && !Outside(filters, c) && !Outside(filters, d) ::
          labels[c] == labels[d] <==> Alike(filters, c, d))
    && (forall c, k | c in labels && !Outside(filters, c)
        && 0 <= k < |filters| :: c in filters[k] <==> labels[c] in groups[k])
    && (forall k, g | 0 <= k < |groups| && g in groups[k] :: lo <= g < next)
    && (forall m | lo <= m < next :: HasCell(labels, filters, m))
  }

  ghost predicate HasCell<C(!new)>(labels: imap<C, nat>, filters: seq<iset<C>>, m: nat) {
    exists c :: c in labels && !Outside(filters, c) && labels[c] == m
  }

  /**
    The test "in the filter exactly when the number is listed" is right for all cells exactly when
    the numbers start above 0, or every cell is in some filter, or none is.
  */
  lemma ListedExactly<C(!new)>(labels: imap<C, nat>, filters: seq<iset<C>>, groups: seq<seq<nat>>, lo: nat, next: nat)
    requires Renumbered(labels, filters, groups, lo, next)
    ensures (forall c, k | c in labels && 0 <= k < |filters| :: c in filters[k] <==> labels[c] in groups[k])
            <==> lo >= 1 || (forall c | c in labels :: !Outside(filters, c))
                 || (forall c | c in labels :: Outside(filters, c))
  {
    if c0 :| lo == 0 && c0 in labels && Outside(filters, c0) {
      if c1 :| c1 in labels && !Outside(filters, c1) {
        assert HasCell(labels, filters, 0);
        var c :| c in labels && !Outside(filters, c) && labels[c] == 0;
        var k :| 0 <= k < |filters| && c in filters[k];
        assert labels[c0] in groups[k] && c0 !in filters[k];
      } else {
        SomeListed(labels, filters, groups, lo, next);
      }
    }
  }

  /** If a filter lists a number, some cell is in a filter. */
  lemma SomeListed<C(!new)>(labels: imap<C, nat>, filters: seq<iset<C>>, groups: seq<seq<nat>>, lo: nat, next: nat)
    requires Renumbered(labels, filters, groups, lo, next)
    ensures (exists k, g :: 0 <= k < |groups| && g in groups[k]) ==> exists c :: c in labels && !Outside(filters, c)
  {
    if k, g :| 0 <= k < |groups| && g in groups[k] {
      assert HasCell(labels, filters, g);
    }
  }

  lemma MembersOf<C(!new)>(labels: imap<C, nat>, filters: seq<iset<C>>, groups: seq<seq<nat>>, c: C)
    requires Listed(labels, filters, groups) && c in labels
    ensures forall k: nat :: k in Members(groups, labels[c]) <==> k < |filters| && c in filters[k]
    ensures Unlisted(groups, labels[c]) <==> Outside(filters, c)
  {
    forall k: nat
      ensures k in Members(groups, labels[c]) <==> k < |filters| && c in filters[k]
    {
    }
    if Unlisted(groups, labels[c]) {
      forall k | 0 <= k < |filters|
        ensures c !in filters[k]
      {
        assert k !in Members(groups, labels[c]);
      }
    }
  }

  lemma MembersAlike<C(!new)>(labels: imap<C, nat>, filters: seq<iset<C>>, groups: seq<seq<nat>>, c: C, d: C)
    requires Listed(labels, filters, groups) && c in labels && d in labels
    ensures Members(groups, labels[c]) == Members(groups, labels[d]) <==> Alike(filters, c, d)
  {
    MembersOf(labels, filters, groups, c);
    MembersOf(labels, filters, groups, d);
    if Members(groups, labels[c]) == Members(groups, labels[d]) {
      forall k | 0 <= k < |filters|
        ensures c in filters[k] <==> d in filters[k]
      {
        assert k in Members(groups, labels[c]) <==> k in Members(groups, labels[d]);
      }
    }
    if Alike(filters, c, d) {
      forall k: nat
        ensures k in Members(groups, labels[c]) <==> k in Members(groups, labels[d])
      {
      }
    }
  }

  lemma RenumberListed<C(!new)>(labels: imap<C, nat>, labels': imap<C, nat>, filters: seq<iset<C>>,
                                groups: seq<seq<nat>>, groups': seq<seq<nat>>,
                                vec: seq<nat>, n: nat, lo: nat, next: nat)
    requires Listed(labels, filters, groups) && Numbers(groups, vec, n, lo, next) && n == |vec|
    requires labels'.Keys == labels.Keys && forall c | c in labels :: labels[c] < n && labels'[c] == vec[labels[c]]
    requires MappedAll(groups, groups', vec)
    ensures Renumbered(labels', filters, groups', lo, next)
  {
    forall c | c in labels
      ensures Unlisted(groups, labels[c]) <==> Outside(filters, c)
    {
      MembersOf(labels, filters, groups, c);
    }
    hide Outside;
    forall c, d | c in labels && d in labels && !Outside(filters, c) && !Outside(filters, d)
      ensures labels'[c] == labels'[d] <==> Alike(filters, c, d)
    {
      MembersAlike(labels, filters, groups, c, d);
    }
    forall c, k | c in labels && !Outside(filters, c) && 0 <= k < |filters|
      ensures c in filters[k] <==> labels'[c] in groups'[k]
    {
      ListedNumber(labels, labels', filters, groups, groups', vec, n, lo, next, c, k);
    }
    forall k, g | 0 <= k < |groups'| && g in groups'[k]
      ensures lo <= g < next
    {
      ListedRange(groups, groups', vec, n, lo, next, k, g);
    }
    forall m | lo <= m < next
      ensures HasCell(labels', filters, m)
    {
      UsedCell(labels, labels', filters, groups, vec, n, lo, next, m);
    }
  }

  lemma ListedRange(groups: seq<seq<nat>>, groups': seq<seq<nat>>, vec: seq<nat>, n: nat, lo: nat, next: nat, k: nat,
                    g: nat)
    requires Numbers(groups, vec, n, lo, next) && n == |vec| && MappedAll(groups, groups', vec) && k < |groups'|
             && g in groups'[k]
    ensures lo <= g < next
  {
    var i :| 0 <= i < |groups'[k]| && groups'[k][i] == g;
    assert groups[k][i] in groups[k];
    assert k in Members(groups, groups[k][i]);
  }

  lemma UsedCell<C(!new)>(labels: imap<C, nat>, labels': imap<C, nat>, filters: seq<iset<C>>, groups: seq<seq<nat>>,
                          vec: seq<nat>, n: nat, lo: nat, next: nat, m: nat)
    requires Listed(labels, filters, groups) && Numbers(groups, vec, n, lo, next) && n == |vec| && lo <= m < next
    requires labels'.Keys == labels.Keys && forall c | c in labels :: labels[c] < n && labels'[c] == vec[labels[c]]
    requires forall c | c in labels :: Unlisted(groups, labels[c]) <==> Outside(filters, c)
    ensures HasCell(labels', filters, m)
  {
    hide Outside;
    assert Used(groups, vec, n, m);
    var g: nat :| g < n && g < |vec| && !Unlisted(groups, g) && vec[g] == m;
    var k :| k in Members(groups, g);
    var c :| c in labels && labels[c] == g;
  }

  lemma ListedNumber<C(!new)>(labels: imap<C, nat>, labels': imap<C, nat>, filters: seq<iset<C>>, groups: seq<seq<nat>>,
                              groups': seq<seq<nat>>,
                              vec: seq<nat>, n: nat, lo: nat, next: nat, c: C, k: nat)
    requires Listed(labels, filters, groups) && Numbers(groups, vec, n, lo, next) && n == |vec|
    requires labels'.Keys == labels.Keys && forall c | c in labels :: labels[c] < n && labels'[c] == vec[labels[c]]
    requires MappedAll(groups, groups', vec) && c in labels && k < |filters| && !Unlisted(groups, labels[c])
    ensures c in filters[k] <==> labels'[c] in groups'[k]
  {
    if c in filters[k] {
      var i :| 0 <= i < |groups[k]| && groups[k][i] == labels[c];
      assert groups'[k][i] == labels'[c];
    }
    if labels'[c] in groups'[k] {
      var i :| 0 <= i < |groups'[k]| && groups'[k][i] == labels'[c];
      var g := groups[k][i];
      assert g in groups[k] && vec[g] == vec[labels[c]];
      assert k in Members(groups, g);
      assert k in Members(groups, labels[c]);
    }
  }

  // ----- computing the numbers --------------------------------------------------------------

  /** The filters among the first k, and the first i ids of filter k, that list g. */
  ghost function MembersTo(groups: seq<seq<nat>>, k: nat, i: nat, g: nat): set<nat> {
    set m: nat | m < |groups| && ((m < k && g in groups[m]) || (m == k && i <= |groups[m]| && g in groups[m][..i]))
  }

  /** `reverse_map`: the ids that are listed, each with the filters that list it. */
  ghost predicate Reverses(reverse: map<nat, set<nat>>, groups: seq<seq<nat>>, k: nat, i: nat) {
    && (forall g | g in reverse :: reverse[g] == MembersTo(groups, k, i, g) && reverse[g] != {})
    && (forall g | g !in reverse :: MembersTo(groups, k, i, g) == {})
  }

  method Reverse(groups: seq<seq<nat>>) returns (reverse: map<nat, set<nat>>)
    ensures forall g | g in reverse :: reverse[g] == Members(groups, g) && reverse[g] != {}
    ensures forall g | g !in reverse :: Members(groups, g) == {}
  {
    reverse := map[];
    for k := 0 to |groups|
      invariant Reverses(reverse, groups, k, 0)
    {
      for i := 0 to |groups[k]|
        invariant Reverses(reverse, groups, k, i)
      {
        var g := groups[k][i];
        forall x: nat { MembersStep(groups, k, i, x); }
        reverse := reverse[g := (if g in reverse then reverse[g] else {}) + {k}];
      }
      forall x: nat { MembersNext(groups, k, x); }
    }
    forall x: nat { MembersAll(groups, x); }
  }

  lemma MembersStep(groups: seq<seq<nat>>, k: nat, i: nat, x: nat)
    requires k < |groups| && i < |groups[k]|
    ensures MembersTo(groups, k, i + 1, x) == MembersTo(groups, k, i, x) + if x == groups[k][i] then {k} else {}
  {
    assert groups[k][..i + 1] == groups[k][..i] + [groups[k][i]];
  }

  lemma MembersNext(groups: seq<seq<nat>>, k: nat, x: nat)
    requires k < |groups|
    ensures MembersTo(groups, k + 1, 0, x) == MembersTo(groups, k, |groups[k]|, x)
  {
    assert groups[k][..|groups[k]|] == groups[k];
  }

  lemma MembersAll(groups: seq<seq<nat>>, x: nat)
    ensures MembersTo(groups, |groups|, 0, x) == Members(groups, x)
  {
  }

  /** The first id that was given a number, for every set of filters met so far (`map` of the source). */
  ghost predicate Firsts(firsts: map<set<nat>, nat>, groups: seq<seq<nat>>, g: nat) {
    && (forall z | z in firsts :: firsts[z] < g && Members(groups, firsts[z]) == z && z != {})
    && (forall x: nat | x < g && !Unlisted(groups, x) :: Members(groups, x) in firsts)
  }

  /** The numbering of `remap`: one number for every set of filters, in the order of the smallest id. */
  method Number(groups: seq<seq<nat>>, n: nat, shared: nat) returns (vec: seq<nat>, shared': nat)
    ensures |vec| == n && Numbers(groups, vec, n, shared, shared')
  {
    hide Members;
    var reverse := Reverse(groups);
    var firsts: map<set<nat>, nat> := map[];
    vec, shared' := [], shared;
    for g := 0 to n
      invariant |vec| == g && Numbers(groups, vec, g, shared, shared') && Firsts(firsts, groups, g)
    {
      ghost var vec0, next0, firsts0 := vec, shared', firsts;
      if g !in reverse {
        vec := vec + [0];
      } else if reverse[g] in firsts {
        vec := vec + [vec[firsts[reverse[g]]]];
      } else {
        firsts := firsts[reverse[g] := g];
        vec := vec + [shared'];
        shared' := shared' + 1;
      }
      NumberStep(groups, vec0, vec, g, shared, next0, shared', firsts0);
    }
  }

  lemma NumberStep(groups: seq<seq<nat>>, vec0: seq<nat>, vec: seq<nat>, g: nat, lo: nat, next0: nat, next: nat,
                   firsts: map<set<nat>, nat>)
    requires |vec0| == g && |vec| == g + 1 && vec0 == vec[..g] && Numbers(groups, vec0, g, lo, next0)
             && Firsts(firsts, groups, g)
    requires if Unlisted(groups, g) then vec[g] == 0 && next == next0
             else if Members(groups, g) in firsts then vec[g] == vec0[firsts[Members(groups, g)]] && next == next0
             else vec[g] == next0 && next == next0 + 1
    ensures Numbers(groups, vec, g + 1, lo, next)
  {
    hide Members;
    assert forall x | 0 <= x < g :: vec[x] == vec0[x];
    var n := g + 1;
    forall m | lo <= m < next
      ensures Used(groups, vec, n, m)
    {
      if m < next0 {
        assert Used(groups, vec0, g, m);
        var x: nat :| x < g && x < |vec0| && !Unlisted(groups, x) && vec0[x] == m;
        assert vec[x] == m;
      } else {
        assert vec[g] == m;
      }
    }
  }
}
