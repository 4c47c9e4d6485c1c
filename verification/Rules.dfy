/**
  Rules and packets, what it means that a rule matches a packet, and the network part of
  `compiler_t::collect`: every rule becomes four ordered sets of networks.
*/
module Rules {
  import opened Base
  import opened Nets
  import opened Masks
  import opened NetOrder
  import opened Composition
  import opened NetworkFilters
  import opened TransportFilter
  import opened Actions

  /** A network of one address family. */
  datatype Network = Network(v6: bool, net: Net)

  /** A flat rule; an empty list of networks stands for no restriction. */
  datatype Rule = Rule(source: seq<Network>, destination: seq<Network>, fragment: Option<seq<Fragment>>,
                       proto: Option<Proto>,
                       acl: nat, action: Action) {
    /** A rule with a flow ends the search. */
    predicate Terminating() {
      action.Flow?
    }
  }

  datatype Packet = Packet(v6: bool, source: Bytes, destination: Bytes, flags: nat, segment: Segment, acl: nat) {
    /** The segment of a fragment that is not the first has no header. */
    ghost predicate Valid() {
      && |source| == |destination| == (if v6 then 16 else 4) && FlagsValid(flags) && segment.Valid()
      && (segment.headless <==> StateOf(flags) == NotFirst)
    }
  }

  /** Bytes of an address. */
  function Width(v6: bool): (h: nat)
    ensures h > 0
  {
    if v6 then 16 else 4
  }

  ghost predicate NetworksValid(list: seq<Network>) {
    forall i | 0 <= i < |list| :: |list[i].net.addr| == |list[i].net.mask| == Width(list[i].v6)
  }

  ghost predicate RuleValid(r: Rule) {
    NetworksValid(r.source) && NetworksValid(r.destination) && ProtoSized(r.proto) && Unmixed(r.proto)
  }

  ghost predicate RulesValid(rules: seq<Rule>) {
    forall k | 0 <= k < |rules| :: RuleValid(rules[k])
  }

  // ----- the meaning of a rule --------------------------------------------------------------

  /** The address is in one of the listed networks, if there is a list. */
  ghost predicate SideMatches(list: seq<Network>, v6: bool, a: Bytes) {
    list == [] || exists i :: 0 <= i < |list| && list[i].v6 == v6 && Covers(list[i].net, a)
  }

  ghost predicate NetMatches(r: Rule, v6: bool, a: Bytes, b: Bytes) {
    SideMatches(r.source, v6, a) && SideMatches(r.destination, v6, b)
  }

  ghost predicate FragmentMatches(r: Rule, flags: nat) {
    r.fragment.None? || StateOf(flags) in r.fragment.value
  }

  ghost predicate RuleMatches(r: Rule, p: Packet) {
    NetMatches(r, p.v6, p.source, p.destination) && FragmentMatches(r, p.flags) && Matches(r.proto, p.segment)
  }

  // ----- the networks of a rule -------------------------------------------------------------

  function Normalized(n: Net): Net
    requires |n.addr| == |n.mask|
  {
    Net(And(n.addr, n.mask), n.mask)
  }

  lemma NormalizedSame(n: Net, a: Bytes)
    requires |n.addr| == |n.mask|
    ensures Normal(Normalized(n)) && (Covers(Normalized(n), a) <==> Covers(n, a))
  {
    forall t | 0 <= t < |n.addr|
      ensures Sub(n.addr[t] & n.mask[t], n.mask[t])
      ensures forall x: bv8 :: Agree(x, n.mask[t], n.addr[t] & n.mask[t]) <==> Agree(x, n.mask[t], n.addr[t])
    {
      ByteSame(n.addr[t], n.mask[t]);
    }
    hide Agree, Sub;
  }

  lemma ByteSame(a: bv8, m: bv8)
    ensures Sub(a & m, m)
    ensures forall x: bv8 :: Agree(x, m, a & m) <==> Agree(x, m, a)
  {
  }

  /** The list has a network of the family. */
  predicate HasFamily(list: seq<Network>, v6: bool) {
    list == [] || exists i :: 0 <= i < |list| && list[i].v6 == v6
  }

  function AnyNet(h: nat): (n: Net)
    ensures |n.addr| == |n.mask| == h
  {
    Net(seq(h, _ => 0), seq(h, _ => 0))
  }

  lemma AnyCovers(h: nat, a: Bytes)
    ensures Covers(AnyNet(h), a) && Normal(AnyNet(h))
  {
  }

  ghost predicate AllNormal(f: Filter) {
    forall i | 0 <= i < |f| :: Normal(f[i])
  }

  /** A set of networks of one family. */
  ghost predicate FamilySet(f: Filter, v6: bool) {
    NetOrder.Sized(f, Width(v6)) && Sorted(f, Width(v6)) && AllNormal(f)
  }

  /** The networks of one side of a rule in one family. */
  method FamilyNets(list: seq<Network>, v6: bool) returns (f: Filter)
    requires NetworksValid(list)
    ensures FamilySet(f, v6)
    ensures forall a: Bytes | |a| == Width(v6) :: InFilter(f, a) <==> SideMatches(list, v6, a)
    ensures forall n: Net :: n in f <==> if list == [] then n == AnyNet(Width(v6)) else FirstNets(list, |list|, v6, n)
  {
    hide Sooner, Normal, Covers;
    if list == [] {
      f := [AnyNet(Width(v6))];
      AnyCovers(Width(v6), []);
      forall a: Bytes
        ensures InFilter(f, a)
      {
        AnyCovers(Width(v6), a);
        assert Covers(f[0], a);
      }
      return;
    }
    f := [];
    for i := 0 to |list|
      invariant FamilySet(f, v6)
      invariant forall a: Bytes :: InFilter(f, a) <==> FirstMatches(list, i, v6, a)
      invariant forall n: Net :: n in f <==> FirstNets(list, i, v6, n)
    {
      if list[i].v6 == v6 {
        var n := Normalized(list[i].net);
        var was := f;
        f := NetOrder.Insert(f, n, Width(v6));
        forall a: Bytes
          ensures InFilter(f, a) <==> InFilter(was, a) || Covers(list[i].net, a)
        {
          NormalizedSame(list[i].net, a);
          InsertedCovers(was, n, f, a);
        }
        NormalizedSame(list[i].net, []);
        InsertedNormal(was, n, f);
      }
    }
  }

  ghost predicate FirstMatches(list: seq<Network>, k: nat, v6: bool, a: Bytes) {
    exists i :: 0 <= i < k && i < |list| && list[i].v6 == v6 && Covers(list[i].net, a)
  }

  /** The normalised networks of the family among the first k. */
  ghost predicate FirstNets(list: seq<Network>, k: nat, v6: bool, n: Net) {
    exists i ::
      0 <= i < k && i < |list| && list[i].v6 == v6 && |list[i].net.addr| == |list[i].net.mask|
      && n == Normalized(list[i].net)
  }

  lemma InsertedCovers(was: Filter, n: Net, f: Filter, a: Bytes)
    requires forall m :: m in f <==> m in was || m == n
    ensures InFilter(f, a) <==> InFilter(was, a) || Covers(n, a)
  {
    hide Covers;
    assert InFilter(f, a) <==> exists m :: m in f && Covers(m, a);
    assert InFilter(was, a) <==> exists m :: m in was && Covers(m, a);
  }

  lemma InsertedNormal(was: Filter, n: Net, f: Filter)
    requires AllNormal(was) && Normal(n) && forall m :: m in f <==> m in was || m == n
    ensures AllNormal(f)
  {
    hide Normal;
    forall i | 0 <= i < |f|
      ensures Normal(f[i])
    {
      assert f[i] in f;
    }
  }

  /** The source and destination networks of a rule in one family: none at all unless both sides have the family. */
  method RuleNets(r: Rule, v6: bool) returns (source: Filter, destination: Filter)
    requires RuleValid(r)
    ensures FamilySet(source, v6) && FamilySet(destination, v6)
    ensures forall a: Bytes | |a| == Width(v6) :: InFilter(source, a) <==> Reaches(r.source, r.destination, v6, a)
    ensures forall a: Bytes | |a| == Width(v6) :: InFilter(destination, a) <==> Reaches(r.destination, r.source, v6, a)
    ensures forall n: Net :: n in source <==> ListsNet(r.source, r.destination, v6, n)
    ensures forall n: Net :: n in destination <==> ListsNet(r.destination, r.source, v6, n)
  {
    source := FamilyNets(r.source, v6);
    destination := FamilyNets(r.destination, v6);
    if !(HasFamily(r.source, v6) && HasFamily(r.destination, v6)) {
      source, destination := [], [];
    }
  }

  /** One side of a rule contributes the network to the classifier of the family. */
  ghost predicate ListsNet(list: seq<Network>, other: seq<Network>, v6: bool, n: Net) {
    && HasFamily(list, v6) && HasFamily(other, v6)
    && if list == [] then n == AnyNet(Width(v6)) else FirstNets(list, |list|, v6, n)
  }

  /** The address matches one side, and the other side has a network of its family. */
  ghost predicate Reaches(list: seq<Network>, other: seq<Network>, v6: bool, a: Bytes) {
    SideMatches(list, v6, a) && HasFamily(other, v6)
  }

  lemma ReachesBoth(r: Rule, v6: bool, a: Bytes, b: Bytes)
    ensures Reaches(r.source, r.destination, v6, a) && Reaches(r.destination, r.source, v6, b)
            <==> NetMatches(r, v6, a, b)
  {
  }

  // ----- covered addresses ------------------------------------------------------------------

  ghost predicate Reached(rules: seq<Rule>, v6: bool, a: Bytes) {
    exists k :: 0 <= k < |rules| && Reaches(rules[k].source, rules[k].destination, v6, a)
  }

  ghost predicate ReachedTo(rules: seq<Rule>, v6: bool, a: Bytes) {
    exists k :: 0 <= k < |rules| && Reaches(rules[k].destination, rules[k].source, v6, a)
  }

  /** Every address is a source and a destination of some rule. */
  ghost predicate Covered(rules: seq<Rule>) {
    forall v6: bool, a: Bytes | |a| == Width(v6) :: Reached(rules, v6, a) && ReachedTo(rules, v6, a)
  }

  /** One unrestricted rule is enough. */
  lemma UnrestrictedCovers(rules: seq<Rule>, k: nat)
    requires k < |rules| && rules[k].source == [] && rules[k].destination == []
    ensures Covered(rules)
  {
    forall v6: bool, a: Bytes | |a| == Width(v6)
      ensures Reached(rules, v6, a) && ReachedTo(rules, v6, a)
    {
      assert Reaches(rules[k].source, rules[k].destination, v6, a);
    }
  }
}
