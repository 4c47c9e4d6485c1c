/**
  The network stage of the compiler: the four address classifiers and the network table, and what
  they mean for the addresses of a packet.
*/
module Networks {
  import opened Base
  import opened Nets
  import opened Masks
  import opened TreePrepare
  import opened GroupTable
  import opened NetworkTable
  import opened Composition
  import opened Mixing
  import opened NetworkFilters
  import opened Rules
  import opened Addresses

  datatype Classifiers = Classifiers(source4: AddressTable, destination4: AddressTable, source6: AddressTable,
                                     destination6: AddressTable) {
    function Groups(): NetGroups {
      NetGroups(source4.groups, destination4.groups, source6.groups, destination6.groups)
    }

    /** The cell of the network table for a pair of addresses. */
    function Cell(v6: bool, a: Bytes, b: Bytes): Pair {
      if v6 then (Find(source6.chunks, 0, a), Find(destination6.chunks, 0, b))
      else (Find(source4.chunks, 0, a), Find(destination4.chunks, 0, b))
    }
  }

  // ----- the networks of the rules ----------------------------------------------------------

  ghost predicate SideLists(r: Rule, v6: bool, source: bool, n: Net) {
    if source then ListsNet(r.source, r.destination, v6, n) else ListsNet(r.destination, r.source, v6, n)
  }

  /** The networks of every rule on one side, in one family. */
  ghost function SideSets(rules: seq<Rule>, v6: bool, source: bool): (sets: seq<NetSet>)
    ensures |sets| == |rules|
  {
    seq(|rules|, k requires 0 <= k < |rules| => iset n | SideLists(rules[k], v6, source, n))
  }

  ghost predicate SideReaches(r: Rule, v6: bool, source: bool, a: Bytes) {
    if source then Reaches(r.source, r.destination, v6, a) else Reaches(r.destination, r.source, v6, a)
  }

  /** The classifiers take the addresses for addresses of rule k. */
  ghost predicate NetTakes(rules: seq<Rule>, k: nat, v6: bool, a: Bytes, b: Bytes)
    requires k < |rules|
  {
    Takes(SideSets(rules, v6, true), k, a) && Takes(SideSets(rules, v6, false), k, b)
  }

  /** The networks of the rule are taken to match some pair of addresses. */
  ghost predicate Live(rules: seq<Rule>, k: nat)
    requires k < |rules|
  {
    exists v6: bool, a: Bytes, b: Bytes :: |a| == |b| == Width(v6) && NetTakes(rules, k, v6, a, b)
  }

  /** No address is taken for one of a rule that does not match it. */
  ghost predicate NetsExact(rules: seq<Rule>) {
    forall k, v6: bool, a: Bytes, b: Bytes | 0 <= k < |rules| && |a| == |b| == Width(v6)
    && NetTakes(rules, k, v6, a, b) ::
      NetMatches(rules[k], v6, a, b)
  }

  /**
    The gapped networks of one side and family are supported, and the last parts of overlapping ones start
    together.
  */
  ghost predicate SideUsable(rules: seq<Rule>, v6: bool, source: bool) {
    Usable(SideSets(rules, v6, source), Width(v6))
  }

  ghost predicate NetsUsable(rules: seq<Rule>) {
    SideUsable(rules, false, true) && SideUsable(rules, false, false) && SideUsable(rules, true, true)
    && SideUsable(rules, true, false)
  }

  /** The networks of a rule have the size of the family, and they cover the addresses that the rule reaches. */
  lemma SideIs(rules: seq<Rule>, v6: bool, source: bool, k: nat, a: Bytes)
    requires RulesValid(rules) && k < |rules| && |a| == Width(v6)
    ensures InSet(SideSets(rules, v6, source)[k], a) <==> SideReaches(rules[k], v6, source, a)
  {
    var r := rules[k];
    ListCovers(if source then r.source else r.destination, if source then r.destination else r.source, v6, a);
  }

  lemma ListCovers(list: seq<Rules.Network>, other: seq<Rules.Network>, v6: bool, a: Bytes)
    requires NetworksValid(list) && |a| == Width(v6)
    ensures (exists n :: ListsNet(list, other, v6, n) && Covers(n, a)) <==> Reaches(list, other, v6, a)
  {
    AnyCovers(Width(v6), a);
    forall i | 0 <= i < |list|
      ensures |list[i].net.addr| == |list[i].net.mask|
              && (Covers(Normalized(list[i].net), a) <==> Covers(list[i].net, a))
    {
      NormalizedSame(list[i].net, a);
    }
    hide Covers, Normalized;
    if Reaches(list, other, v6, a) {
      if list == [] {
        assert ListsNet(list, other, v6, AnyNet(Width(v6)));
      } else {
        var i :| 0 <= i < |list| && list[i].v6 == v6 && Covers(list[i].net, a);
        assert FirstNets(list, |list|, v6, Normalized(list[i].net));
        assert ListsNet(list, other, v6, Normalized(list[i].net));
      }
    }
  }

  lemma SidesSized(rules: seq<Rule>, v6: bool, source: bool)
    requires RulesValid(rules)
    ensures SetsSized(SideSets(rules, v6, source), Width(v6))
  {
    hide Covers;
  }

  /** The filters list the networks of one side. */
  method FamilyFilters(rules: seq<Rule>, v6: bool) returns (source: seq<Filter>, destination: seq<Filter>)
    requires RulesValid(rules)
    ensures AsSets(source) == SideSets(rules, v6, true) && AsSets(destination) == SideSets(rules, v6, false)
    ensures (forall f | f in source :: FamilySet(f, v6)) && forall f | f in destination :: FamilySet(f, v6)
  {
    hide Reaches, InFilter, FamilySet, ListsNet, RuleValid;
    source, destination := [], [];
    for k := 0 to |rules|
      invariant |source| == |destination| == k
      invariant forall j | 0 <= j < k :: FamilySet(source[j], v6) && FamilySet(destination[j], v6)
      invariant forall j | 0 <= j < k ::
                  AsSet(source[j]) == SideSets(rules, v6, true)[j]
                  && AsSet(destination[j]) == SideSets(rules, v6, false)[j]
    {
      var s, d := RuleNets(rules[k], v6);
      assert AsSet(s) == SideSets(rules, v6, true)[k] && AsSet(d) == SideSets(rules, v6, false)[k];
      source, destination := source + [s], destination + [d];
    }
  }

  /** An address that some rule reaches is taken by that rule. */
  lemma ReachedTaken(rules: seq<Rule>, v6: bool, source: bool, k: nat, a: Bytes)
    requires RulesValid(rules) && SideUsable(rules, v6, source) && k < |rules| && |a| == Width(v6)
             && SideReaches(rules[k], v6, source, a)
    ensures Takes(SideSets(rules, v6, source), k, a)
  {
    hide RulesValid, SideReaches, Takes, SideSets, Clashless, SetsSized;
    SideIs(rules, v6, source, k, a);
    SidesSized(rules, v6, source);
    Complete(SideSets(rules, v6, source), k, Width(v6), a);
  }

  /** Matching addresses are taken. */
  lemma MatchesTaken(rules: seq<Rule>, k: nat, v6: bool, a: Bytes, b: Bytes)
    requires RulesValid(rules) && NetsUsable(rules) && k < |rules| && |a| == |b| == Width(v6)
             && NetMatches(rules[k], v6, a, b)
    ensures NetTakes(rules, k, v6, a, b)
  {
    hide RulesValid, NetMatches, Takes, SideSets, SideUsable, Reaches;
    ReachesBoth(rules[k], v6, a, b);
    ReachedTaken(rules, v6, true, k, a);
    ReachedTaken(rules, v6, false, k, b);
  }

  // ----- when the classifiers are exact -----------------------------------------------------

  /** No address mixes parts of the networks of a rule on one side. */
  ghost predicate SideUnmixed(rules: seq<Rule>, v6: bool, source: bool, k: nat)
    requires k < |rules|
  {
    Unmixed(GappedOf(SideSets(rules, v6, source)), SideSets(rules, v6, source)[k], Width(v6))
  }

  lemma SideRight(rules: seq<Rule>, v6: bool, source: bool, k: nat, a: Bytes)
    requires RulesValid(rules) && SideUsable(rules, v6, source) && k < |rules| && |a| == Width(v6)
             && SideUnmixed(rules, v6, source, k)
    ensures Takes(SideSets(rules, v6, source), k, a) <==> SideReaches(rules[k], v6, source, a)
  {
    hide RulesValid, SideReaches, Takes, SideSets, Clashless, SetsSized, Unmixed, GappedOf, InSet;
    SideIs(rules, v6, source, k, a);
    SidesSized(rules, v6, source);
    RightIf(SideSets(rules, v6, source), k, Width(v6));
  }

  /** Rules without mixtures take exactly the addresses that match them. */
  lemma UnmixedExact(rules: seq<Rule>)
    requires RulesValid(rules) && NetsUsable(rules)
    requires forall v6: bool, source: bool, k | 0 <= k < |rules| :: SideUnmixed(rules, v6, source, k)
    ensures NetsExact(rules)
  {
    hide RulesValid, Takes, SideUsable, SideUnmixed, Reaches, NetMatches, SideSets;
    forall k, v6: bool, a: Bytes, b: Bytes | 0 <= k < |rules| && |a| == |b| == Width(v6) && NetTakes(rules, k, v6, a, b)
      ensures NetMatches(rules[k], v6, a, b)
    {
      SideRight(rules, v6, true, k, a);
      SideRight(rules, v6, false, k, b);
      ReachesBoth(rules[k], v6, a, b);
    }
  }

  /** A rule with at most one network on the side, or with no network in a wider region. */
  ghost predicate SidePlain(rules: seq<Rule>, v6: bool, source: bool, k: nat)
    requires k < |rules|
  {
    || (exists n :: SideSets(rules, v6, source)[k] == iset{n})
    || (forall n | n in SideSets(rules, v6, source)[k] :: !Composed(GappedOf(SideSets(rules, v6, source)), n))
  }

  /** If every rule has one network on each side, or none in a wider region, the classifiers are exact. */
  lemma PlainExact(rules: seq<Rule>)
    requires RulesValid(rules) && NetsUsable(rules)
    requires forall v6: bool, source: bool, k | 0 <= k < |rules| :: SidePlain(rules, v6, source, k)
    ensures NetsExact(rules)
  {
    hide RulesValid, SideUsable, SideSets, Clashless, SetsSized, Unmixed, GappedOf, Composed, Fitting, NetsExact;
    forall v6: bool, source: bool, k | 0 <= k < |rules|
      ensures SideUnmixed(rules, v6, source, k)
    {
      SideFits(rules, v6, source, k);
      assert SidePlain(rules, v6, source, k);
      NothingComposed(GappedOf(SideSets(rules, v6, source)), SideSets(rules, v6, source)[k], Width(v6));
    }
    UnmixedExact(rules);
  }

  lemma SideFits(rules: seq<Rule>, v6: bool, source: bool, k: nat)
    requires RulesValid(rules) && NetsUsable(rules) && k < |rules|
    ensures Fitting(GappedOf(SideSets(rules, v6, source)), SideSets(rules, v6, source)[k], Width(v6))
  {
    hide RulesValid, SideSets, Clashless, SetsSized, GappedOf, Fitting;
    SidesSized(rules, v6, source);
    UsableFits(SideSets(rules, v6, source), k, Width(v6));
  }

  ghost predicate ClassifiersFit(c: Classifiers, rules: seq<Rule>) {
    && AddressFits(c.source4, SideSets(rules, false, true), 0, Width(false))
    && AddressFits(c.destination4, SideSets(rules, false, false), 0, Width(false))
    && AddressFits(c.source6, SideSets(rules, true, true), c.source4.next, Width(true))
    && AddressFits(c.destination6, SideSets(rules, true, false), c.destination4.next, Width(true))
  }

  /** The row of rule k in the network table. */
  function Row(c: Classifiers, k: nat): NetFilter
    requires k < |c.source4.ids| && k < |c.destination4.ids| && k < |c.source6.ids| && k < |c.destination6.ids|
  {
    NetFilter(c.source4.ids[k], c.destination4.ids[k], c.source6.ids[k], c.destination6.ids[k])
  }

  /** Every address is taken by some rule, on both sides. */
  ghost predicate AllTaken(rules: seq<Rule>) {
    forall v6: bool, source: bool, a: Bytes | |a| == Width(v6) :: !InNone(SideSets(rules, v6, source), a)
  }

  lemma CoveredTaken(rules: seq<Rule>)
    requires RulesValid(rules) && NetsUsable(rules) && Covered(rules)
    ensures AllTaken(rules)
  {
    hide RulesValid, SideUsable, Takes, SideSets, Reaches;
    forall v6: bool, source: bool, a: Bytes | |a| == Width(v6)
      ensures !InNone(SideSets(rules, v6, source), a)
    {
      assert Reached(rules, v6, a) && ReachedTo(rules, v6, a);
      var k :| 0 <= k < |rules| && SideReaches(rules[k], v6, source, a);
      ReachedTaken(rules, v6, source, k, a);
    }
  }

  /** The cell lies in the row of a rule exactly when the addresses are taken for addresses of the rule. */
  lemma CellMatches(rules: seq<Rule>, c: Classifiers, k: nat, v6: bool, a: Bytes, b: Bytes)
    requires ClassifiersFit(c, rules) && AllTaken(rules) && k < |rules| && |a| == |b| == Width(v6)
    ensures |c.source4.ids| == |c.destination4.ids| == |c.source6.ids| == |c.destination6.ids| == |rules|
    ensures NetworkTable.Known(Row(c, k), c.Groups())
    ensures InNets(Row(c, k), c.Groups(), c.Cell(v6, a, b)) <==> NetTakes(rules, k, v6, a, b)
    ensures c.Cell(v6, a, b).0 < c.source6.next && c.Cell(v6, a, b).1 < c.destination6.next
  {
    hide Takes, Find, SideSets, InNone, SameSets, Inhabited;
    if v6 {
      SideListed(rules, c.source6, c.source4.next, true, true, a, k);
      SideListed(rules, c.destination6, c.destination4.next, true, false, b, k);
    } else {
      SideListed(rules, c.source4, 0, false, true, a, k);
      SideListed(rules, c.destination4, 0, false, false, b, k);
    }
  }

  /**
    The address is listed for the rule exactly when the rule takes it, and its group lies in the range of the
    classifier.
  */
  lemma SideListed(rules: seq<Rule>, t: AddressTable, lo: nat, v6: bool, source: bool, a: Bytes, k: nat)
    requires AddressFits(t, SideSets(rules, v6, source), lo, Width(v6)) && AllTaken(rules) && k < |rules|
             && |a| == Width(v6)
    ensures |t.ids| == |rules| && t.ids[k] < |t.groups| && lo <= Find(t.chunks, 0, a) < t.next
    ensures Find(t.chunks, 0, a) in t.groups[t.ids[k]] <==> Takes(SideSets(rules, v6, source), k, a)
  {
    hide Takes, Find, SideSets, InNone, SameSets, Inhabited;
    assert Lists(t, SideSets(rules, v6, source), k, a);
  }

  /** A listed group of one side is the group of an address that the rule takes. */
  lemma SideInhabited(rules: seq<Rule>, t: AddressTable, lo: nat, v6: bool, source: bool, k: nat,
                      g: nat) returns (a: Bytes)
    requires AddressFits(t, SideSets(rules, v6, source), lo, Width(v6)) && k < |rules|
    requires t.ids[k] < |t.groups| && g in t.groups[t.ids[k]]
    ensures |a| == Width(v6) && Find(t.chunks, 0, a) == g && Takes(SideSets(rules, v6, source), k, a)
  {
    hide Takes, Find, InNone, SameSets, SideSets;
    var sets := SideSets(rules, v6, source);
    assert Inhabited(t, sets, Width(v6), g);
    a :| |a| == Width(v6) && !InNone(sets, a) && Find(t.chunks, 0, a) == g;
    assert Lists(t, sets, k, a);
  }

  /** A cell in the row of a rule is the cell of a pair of addresses that the rule takes. */
  lemma CellFound(rules: seq<Rule>, c: Classifiers, k: nat, cell: Pair) returns (v6: bool, a: Bytes, b: Bytes)
    requires ClassifiersFit(c, rules)
             && k < |rules| == |c.source4.ids| == |c.destination4.ids| == |c.source6.ids| == |c.destination6.ids|
    requires NetworkTable.Known(Row(c, k), c.Groups()) && InNets(Row(c, k), c.Groups(), cell)
    ensures |a| == |b| == Width(v6) && NetTakes(rules, k, v6, a, b) && c.Cell(v6, a, b) == cell
  {
    hide AddressFits, Takes, Find, SideSets;
    v6 := !(cell.0 in c.source4.groups[c.source4.ids[k]] && cell.1 in c.destination4.groups[c.destination4.ids[k]]);
    if !v6 {
      a := SideInhabited(rules, c.source4, 0, false, true, k, cell.0);
      b := SideInhabited(rules, c.destination4, 0, false, false, k, cell.1);
    } else {
      a := SideInhabited(rules, c.source6, c.source4.next, true, true, k, cell.0);
      b := SideInhabited(rules, c.destination6, c.destination4.next, true, false, k, cell.1);
    }
  }

  // ----- the stage --------------------------------------------------------------------------

  /** The classifiers, the network table, the number of every rule in it and the groups of every number. */
  datatype NetStage = NetStage(classifiers: Classifiers, cells: map<Pair, nat>, ids: seq<nat>, groups: seq<set<nat>>,
                               height: nat, width: nat) {
    /** The network group of a pair of addresses. */
    function Group(v6: bool, a: Bytes, b: Bytes): nat {
      At(cells, classifiers.Cell(v6, a, b))
    }
  }

  ghost predicate NetsListed(s: NetStage, rules: seq<Rule>, k: nat, v6: bool, a: Bytes, b: Bytes)
    requires k < |rules| == |s.ids| && s.ids[k] < |s.groups|
  {
    NetTakes(rules, k, v6, a, b) <==> s.Group(v6, a, b) in s.groups[s.ids[k]]
  }

  /** Some rule has number f. */
  ghost predicate Given(ids: seq<nat>, f: nat) {
    exists k :: 0 <= k < |ids| && ids[k] == f
  }

  /**
    A rule lists the network group of a pair of addresses exactly when it takes the addresses, and no group
    without addresses.
  */
  ghost predicate NetStageFits(s: NetStage, rules: seq<Rule>) {
    && |s.ids| == |rules| && (forall k | 0 <= k < |rules| :: s.ids[k] < |s.groups|)
    && (forall f | 0 <= f < |s.groups| :: 0 !in s.groups[f] && Given(s.ids, f))
    && (forall k, v6: bool, a: Bytes, b: Bytes | 0 <= k < |rules|
        && |a| == |b| == Width(v6) :: NetsListed(s, rules, k, v6, a, b))
    && (forall k | 0 <= k < |rules| && s.groups[s.ids[k]] != {} :: Live(rules, k))
    && (forall f, g | 0 <= f < |s.groups| && g in s.groups[f] :: GroupFound(s, g))
    && (forall v6: bool, a: Bytes, b: Bytes | |a| == |b| == Width(v6) :: CellInside(s, v6, a, b))
  }

  /** The group is that of some pair of addresses. */
  ghost predicate GroupFound(s: NetStage, g: nat) {
    exists v6: bool, a: Bytes, b: Bytes :: |a| == |b| == Width(v6) && s.Group(v6, a, b) == g
  }

  /** The cell of the addresses lies within the table. */
  ghost predicate CellInside(s: NetStage, v6: bool, a: Bytes, b: Bytes) {
    s.classifiers.Cell(v6, a, b).0 < s.height && s.classifiers.Cell(v6, a, b).1 < s.width
  }

  /** `network_compile` and `network_table_compile`; None stands for a network that is not supported. */
  method Build(rules: seq<Rule>) returns (r: Option<NetStage>)
    requires RulesValid(rules) && Covered(rules)
    ensures r.Some? <==> NetsUsable(rules)
    ensures r.Some? ==> NetStageFits(r.value, rules)
  {
    hide RulesValid, Covered, Usable, AddressFits, NetTable, FamilySet, AllTaken, SideSets, AsSets;
    var source4, destination4 := FamilyFilters(rules, false);
    var source6, destination6 := FamilyFilters(rules, true);
    var s4 := Addresses.Build(source4, false, 0);
    var d4 := Addresses.Build(destination4, false, 0);
    if s4.None? || d4.None? {
      return None;
    }
    var s6 := Addresses.Build(source6, true, s4.value.next);
    var d6 := Addresses.Build(destination6, true, d4.value.next);
    if s6.None? || d6.None? {
      return None;
    }
    CoveredTaken(rules);
    var c := Classifiers(s4.value, d4.value, s6.value, d6.value);
    Sizes(c, rules);
    var rows := seq(|rules|, k requires 0 <= k < |rules| => Row(c, k));
    var distinct, ids := CollectAll(rows);
    RowsKnown(c, rows, distinct, ids);
    GroupsBounded(c, rules);
    var cells, groups, width := NetworkTable.Build(distinct, c.Groups(), c.source6.next, c.destination6.next);
    r := Some(NetStage(c, cells, ids, groups, c.source6.next, width));
    CoveredSome(rules);
    StageDone(r.value, rules, rows, distinct);
  }

  lemma Sizes(c: Classifiers, rules: seq<Rule>)
    requires ClassifiersFit(c, rules)
    ensures |c.source4.ids| == |c.destination4.ids| == |c.source6.ids| == |c.destination6.ids| == |rules|
    ensures forall k | 0 <= k < |rules| :: NetworkTable.Known(Row(c, k), c.Groups())
  {
    hide Takes, Find, InNone, SameSets, Inhabited, Lists, SideSets;
  }

  /** All groups of sources are below the last counter of sources, and likewise for destinations. */
  lemma GroupsBounded(c: Classifiers, rules: seq<Rule>)
    requires ClassifiersFit(c, rules)
    ensures Bounded(c.Groups(), c.source6.next, c.destination6.next)
  {
    hide Takes, Find, InNone, SameSets, Inhabited, Lists, SideSets;
  }

  lemma RowsKnown(c: Classifiers, rows: seq<NetFilter>, distinct: seq<NetFilter>, ids: seq<nat>)
    requires NumbersOf(rows, distinct, ids) && forall k | 0 <= k < |rows| :: NetworkTable.Known(rows[k], c.Groups())
    ensures forall f | 0 <= f < |distinct| :: NetworkTable.Known(distinct[f], c.Groups())
  {
    hide NetworkTable.Known;
    forall f | 0 <= f < |distinct|
      ensures NetworkTable.Known(distinct[f], c.Groups())
    {
      assert distinct[f] in rows;
    }
  }

  lemma CoveredSome(rules: seq<Rule>)
    requires Covered(rules)
    ensures |rules| > 0
  {
    var a: Bytes := seq(Width(false), _ => 0);
    assert Reached(rules, false, a);
  }

  /** The parts of the stage before they are put together. */
  ghost predicate Assembled(s: NetStage, rules: seq<Rule>, rows: seq<NetFilter>, distinct: seq<NetFilter>) {
    && ClassifiersFit(s.classifiers, rules) && AllTaken(rules) && |rules| > 0
    && |s.classifiers.source4.ids| == |s.classifiers.destination4.ids| == |rules| == |rows|
    && |s.classifiers.source6.ids| == |s.classifiers.destination6.ids| == |rules|
    && (forall k | 0 <= k < |rows| :: rows[k] == Row(s.classifiers, k)) && NumbersOf(rows, distinct, s.ids)
    && NetTable(s.cells, distinct, s.classifiers.Groups(), s.groups)
    && s.height == s.classifiers.source6.next && s.classifiers.destination6.next <= s.width
  }

  lemma StageListed(s: NetStage, rules: seq<Rule>, rows: seq<NetFilter>, distinct: seq<NetFilter>, k: nat, v6: bool,
                    a: Bytes, b: Bytes)
    requires Assembled(s, rules, rows, distinct) && k < |rules| && |a| == |b| == Width(v6)
    ensures |s.ids| == |rules| && s.ids[k] < |s.groups| && NetsListed(s, rules, k, v6, a, b) && CellInside(s, v6, a, b)
  {
    hide ClassifiersFit, AllTaken, InNets, NetworkTable.Known, NetTakes;
    CellMatches(rules, s.classifiers, k, v6, a, b);
  }

  lemma StageLive(s: NetStage, rules: seq<Rule>, rows: seq<NetFilter>, distinct: seq<NetFilter>, k: nat)
    requires Assembled(s, rules, rows, distinct) && k < |rules|
    ensures |s.ids| == |rules| && s.ids[k] < |s.groups| && (s.groups[s.ids[k]] != {} ==> Live(rules, k))
    ensures forall g | g in s.groups[s.ids[k]] :: GroupFound(s, g)
  {
    hide ClassifiersFit, AllTaken, InNets, NetworkTable.Known, NetTakes, NetGroup;
    forall g | g in s.groups[s.ids[k]]
      ensures Live(rules, k) && GroupFound(s, g)
    {
      StageFound(s, rules, rows, distinct, k, g);
    }
  }

  lemma StageFound(s: NetStage, rules: seq<Rule>, rows: seq<NetFilter>, distinct: seq<NetFilter>, k: nat, g: nat)
    requires Assembled(s, rules, rows, distinct) && k < |rules| && |s.ids| == |rules| && s.ids[k] < |s.groups|
             && g in s.groups[s.ids[k]]
    ensures Live(rules, k) && GroupFound(s, g)
  {
    hide ClassifiersFit, AllTaken, InNets, NetworkTable.Known, NetTakes;
    assert NetGroup(s.cells, distinct[s.ids[k]], s.classifiers.Groups(), g);
    var c: Pair :| At(s.cells, c) == g && InNets(distinct[s.ids[k]], s.classifiers.Groups(), c);
    var v6, a, b := CellFound(rules, s.classifiers, k, c);
  }

  lemma StageGiven(s: NetStage, rules: seq<Rule>, rows: seq<NetFilter>, distinct: seq<NetFilter>, f: nat)
    requires Assembled(s, rules, rows, distinct) && f < |s.groups|
    ensures 0 !in s.groups[f] && Given(s.ids, f)
  {
    hide ClassifiersFit, AllTaken, InNets, NetworkTable.Known, NetGroup, NetworkTable.SameNets, At;
    assert distinct[f] in rows;
    var k :| 0 <= k < |rows| && rows[k] == distinct[f];
    assert s.ids[k] == f;
  }

  lemma StageSome(s: NetStage, rules: seq<Rule>, rows: seq<NetFilter>, distinct: seq<NetFilter>)
    requires Assembled(s, rules, rows, distinct)
    ensures |rules| > 0 && |s.ids| == |rules| && forall k | 0 <= k < |rules| :: s.ids[k] < |s.groups|
  {
    hide ClassifiersFit, AllTaken, InNets, NetworkTable.Known, NetGroup, NetworkTable.SameNets, At;
  }

  lemma StageDone(s: NetStage, rules: seq<Rule>, rows: seq<NetFilter>, distinct: seq<NetFilter>)
    requires Assembled(s, rules, rows, distinct)
    ensures NetStageFits(s, rules)
  {
    hide Assembled, NetsListed, CellInside, Live, Given, GroupFound;
    StageSome(s, rules, rows, distinct);
    forall k, v6: bool, a: Bytes, b: Bytes | 0 <= k < |rules| && |a| == |b| == Width(v6)
      ensures NetsListed(s, rules, k, v6, a, b)
    {
      StageListed(s, rules, rows, distinct, k, v6, a, b);
    }
    forall v6: bool, a: Bytes, b: Bytes | |a| == |b| == Width(v6)
      ensures CellInside(s, v6, a, b)
    {
      StageListed(s, rules, rows, distinct, 0, v6, a, b);
    }
    forall k | 0 <= k < |rules|
      ensures (s.groups[s.ids[k]] != {} ==> Live(rules, k)) && forall g | g in s.groups[s.ids[k]] :: GroupFound(s, g)
    {
      StageLive(s, rules, rows, distinct, k);
    }
    forall f | 0 <= f < |s.groups|
      ensures 0 !in s.groups[f] && Given(s.ids, f)
    {
      StageGiven(s, rules, rows, distinct, f);
    }
    GivenFound(s);
  }

  lemma GivenFound(s: NetStage)
    requires (forall f | 0 <= f < |s.groups| :: Given(s.ids, f))
    requires forall k | 0 <= k < |s.ids| ::
               s.ids[k] < |s.groups| && forall g | g in s.groups[s.ids[k]] :: GroupFound(s, g)
    ensures forall f, g | 0 <= f < |s.groups| && g in s.groups[f] :: GroupFound(s, g)
  {
    hide GroupFound;
    forall f, g | 0 <= f < |s.groups| && g in s.groups[f]
      ensures GroupFound(s, g)
    {
      assert Given(s.ids, f);
      var k :| 0 <= k < |s.ids| && s.ids[k] == f;
    }
  }
}
