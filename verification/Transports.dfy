/**
  The transport stage of the compiler: network flags, transport filters, layers and network ids
  (`network_flags_compile`, `transport_compile`, `network_table_t::remap`).
*/
module Transports {
  import opened Base
  import opened Nets
  import opened Flat
  import opened GroupTable
  import opened NetworkTable
  import opened Rules
  import opened Networks
  import opened Layers
  import opened Packing
  import opened TransportFilter
  import opened TransportLayer
  import opened TransportTable
  import opened TransportKeys

  // ----- network flags ----------------------------------------------------------------------

  ghost predicate FlagsListed(rules: seq<Rule>, t: FlatTable, ids: seq<nat>, k: nat, flags: nat)
    requires k < |rules| == |ids|
  {
    ids[k] < |t.groups| && flags < |t.values|
    && (FragmentMatches(rules[k], flags) <==> t.values[flags] in t.groups[ids[k]])
  }

  ghost predicate FlagsFit(rules: seq<Rule>, t: FlatTable, ids: seq<nat>) {
    && |ids| == |rules| && t.Fits(256)
    && forall k, flags | 0 <= k < |rules| && FlagsValid(flags) :: FlagsListed(rules, t, ids, k, flags)
  }

  /** The ranges of flag values of a rule. */
  ghost predicate FlagRanges(r: Rule, rs: Ranges) {
    && Within(rs, 256) && (forall i | 0 <= i < |rs| :: rs[i].1 < 8 || Full(rs[i], 256))
    && forall flags | FlagsValid(flags) :: InRanges(rs, flags) <==> FragmentMatches(r, flags)
  }

  /** Flag values above 7 are never told apart, so this classifier cannot overflow. */
  method Flags(rules: seq<Rule>) returns (t: FlatTable, ids: seq<nat>)
    ensures FlagsFit(rules, t, ids)
  {
    hide FlagRanges;
    var ranges: seq<Ranges> := [];
    for k := 0 to |rules|
      invariant |ranges| == k && forall j | 0 <= j < k :: FlagRanges(rules[j], ranges[j])
    {
      var rs := MakeFlags(rules[k].fragment);
      assert FlagRanges(rules[k], rs) by { FlagRangesAre(rules[k], rs); }
      ranges := ranges + [rs];
    }
    FlagsWithin(rules, ranges);
    var r;
    r, ids := Field(256, ranges);
    t := r.value;
    FlagsDone(rules, ranges, t, ids);
  }

  lemma FlagRangesAre(r: Rule, rs: Ranges)
    requires Within(rs, 256) && forall i | 0 <= i < |rs| :: rs[i].1 < 8 || Full(rs[i], 256)
    requires forall flags | FlagsValid(flags) ::
               InRanges(rs, flags) <==> r.fragment.None? || StateOf(flags) in r.fragment.value
    ensures FlagRanges(r, rs)
  {
  }

  lemma FlagsWithin(rules: seq<Rule>, ranges: seq<Ranges>)
    requires |ranges| == |rules| && forall k | 0 <= k < |rules| :: FlagRanges(rules[k], ranges[k])
    ensures (forall k | 0 <= k < |ranges| :: Within(ranges[k], 256)) && !AllApart(ranges, 256)
  {
    hide InRanges, StateOf, FlagsValid;
    assert !TellsApart(ranges, 256, 8, 9);
  }

  lemma FlagsDone(rules: seq<Rule>, ranges: seq<Ranges>, t: FlatTable, ids: seq<nat>)
    requires |ranges| == |rules| == |ids| && forall k | 0 <= k < |rules| :: FlagRanges(rules[k], ranges[k])
    requires t.Fits(256) && forall k | 0 <= k < |ranges| :: Is(t, ids[k], ranges[k])
    ensures FlagsFit(rules, t, ids)
  {
    hide InRanges, StateOf, InFirstOrder, Occurs;
    forall k, flags | 0 <= k < |rules| && FlagsValid(flags)
      ensures FlagsListed(rules, t, ids, k, flags)
    {
      assert Is(t, ids[k], ranges[k]);
      hide FragmentMatches;
    }
  }

  // ----- transport filters ------------------------------------------------------------------

  /**
    The number of every rule's transport filter; `protos` has for every number a protocol part that it was
    made from.
  */
  ghost predicate TransportsFit(rules: seq<Rule>, transports: seq<Transport>, ids: seq<nat>,
                                protos: seq<Option<Proto>>) {
    && |ids| == |rules| && |protos| == |transports|
    && (forall k | 0 <= k < |rules| :: ids[k] < |transports| && MadeFrom(transports[ids[k]], rules[k].proto))
    && (forall f | 0 <= f < |transports| ::
          MadeFrom(transports[f], protos[f]) && Unmixed(protos[f]) && ProtoSized(protos[f]))
  }

  ghost function FilterList(rules: seq<Rule>): (r: seq<Option<Transport>>)
    ensures |r| == |rules|
  {
    seq(|rules|, k requires 0 <= k < |rules| => TransportOf(rules[k].proto))
  }

  /** Equal transport filters have one number, in the order in which they first occur. */
  ghost predicate FilterNumbers(rules: seq<Rule>, ids: seq<nat>) {
    NumbersOf(FilterList(rules), DistinctOf(FilterList(rules)), ids)
  }

  /** `transport_t::collect` for all rules; None stands for the error of a rule with TCP flags for other protocols. */
  method Filters(rules: seq<Rule>) returns (r: Option<seq<Transport>>, ids: seq<nat>, ghost protos: seq<Option<Proto>>)
    requires RulesValid(rules)
    ensures r.None? <==> exists k :: 0 <= k < |rules| && BadFlags(rules[k].proto)
    ensures r.Some? ==> TransportsFit(rules, r.value, ids, protos) && FilterNumbers(rules, ids)
    ensures r.Some? ==> forall f | 0 <= f < |r.value| :: Given(ids, f)
    ensures r.Some? ==> forall f, g | 0 <= f < g < |r.value| :: r.value[f] != r.value[g]
  {
    hide MadeFrom, BadFlags, NetworksValid, ProtoSized, Unmixed, TransportOf;
    var made: seq<Option<Transport>> := [];
    for k := 0 to |rules|
      invariant |made| == k
      invariant forall j | 0 <= j < k ::
                  made[j] == TransportOf(rules[j].proto) && made[j].Some? && MadeFrom(made[j].value, rules[j].proto)
      invariant forall j | 0 <= j < k :: !BadFlags(rules[j].proto)
    {
      assert RuleValid(rules[k]);
      var t := Make(rules[k].proto);
      if t.None? {
        r, ids, protos := None, [], [];
        return;
      }
      made := made + [t];
    }
    assert made == FilterList(rules);
    var distinct;
    distinct, ids := CollectAll(made);
    var transports := Values(distinct, made, ids);
    r := Some(transports);
    protos := Representatives(rules, Unwrapped(made), transports, ids);
    forall f | 0 <= f < |distinct|
      ensures Given(ids, f)
    {
      assert distinct[f] in made;
      var k :| 0 <= k < |made| && made[k] == distinct[f];
      assert ids[k] == f;
    }
  }

  ghost function Unwrapped(made: seq<Option<Transport>>): (r: seq<Transport>)
    requires forall k | 0 <= k < |made| :: made[k].Some?
    ensures |r| == |made| && forall k | 0 <= k < |made| :: r[k] == made[k].value
  {
    seq(|made|, k requires 0 <= k < |made| => made[k].value)
  }

  method Values(distinct: seq<Option<Transport>>, ghost made: seq<Option<Transport>>,
                ghost ids: seq<nat>) returns (r: seq<Transport>)
    requires (forall k | 0 <= k < |made| :: made[k].Some?) && NumbersOf(made, distinct, ids)
    ensures |r| == |distinct| && NumbersOf(Unwrapped(made), r, ids)
  {
    forall f | 0 <= f < |distinct|
      ensures distinct[f].Some?
    {
      assert distinct[f] in made;
    }
    r := seq(|distinct|, f requires 0 <= f < |distinct| => distinct[f].value);
    forall f | 0 <= f < |r|
      ensures r[f] in Unwrapped(made)
    {
      assert distinct[f] in made;
      var k :| 0 <= k < |made| && made[k] == distinct[f];
      assert Unwrapped(made)[k] == r[f];
    }
  }

  /** One protocol part for every distinct filter. */
  lemma Representatives(rules: seq<Rule>, made: seq<Transport>, distinct: seq<Transport>,
                        ids: seq<nat>) returns (protos: seq<Option<Proto>>)
    requires |made| == |rules| && NumbersOf(made, distinct, ids)
    requires RulesValid(rules) && forall k | 0 <= k < |rules| :: MadeFrom(made[k], rules[k].proto)
    ensures TransportsFit(rules, distinct, ids, protos)
  {
    hide MadeFrom, NetworksValid, ProtoSized, Unmixed;
    protos := [];
    for f := 0 to |distinct|
      invariant |protos| == f && forall g | 0 <= g < f ::
                  MadeFrom(distinct[g], protos[g]) && Unmixed(protos[g]) && ProtoSized(protos[g])
    {
      assert distinct[f] in made;
      var k :| 0 <= k < |made| && made[k] == distinct[f];
      assert RuleValid(rules[k]);
      protos := protos + [rules[k].proto];
    }
  }

  lemma MadeSized(t: Transport, f: Option<Proto>)
    requires MadeFrom(t, f)
    ensures Sized(t)
  {
    hide Within, InRanges, On, Allows;
  }

  /** All rules with one transport filter match the same segments. */
  lemma SameTransport(rules: seq<Rule>, transports: seq<Transport>, ids: seq<nat>, protos: seq<Option<Proto>>, k: nat,
                      s: Segment)
    requires TransportsFit(rules, transports, ids, protos) && k < |rules| && s.Valid()
    ensures Matches(protos[ids[k]], s) <==> Matches(rules[k].proto, s)
  {
    hide MadeFrom, Matches, FieldsMatch;
    FieldsAsRule(transports[ids[k]], protos[ids[k]], s);
    FieldsAsRule(transports[ids[k]], rules[k].proto, s);
  }
}
