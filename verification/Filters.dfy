/**
  The filters of firewall rules (`filter_t`): a conjunction is taken part by part, and the test for
  an empty filter looks at the parts.
*/
module Filters {
  import opened Base
  import opened Nets
  import opened Masks
  import opened Flat
  import opened TransportFilter
  import opened Rules

  datatype Filter = Filter(acl: Option<int>, source: Option<seq<Network>>, destination: Option<seq<Network>>,
                           flags: Option<seq<Fragment>>,
                           proto: Option<Proto>, dir: Option<int>)

  // ----- conjunction ------------------------------------------------------------------------

  /** Different numbers leave nothing. */
  function AndId(a: int, b: int): int {
    if a != b then -1 else a
  }

  /** The bits that both networks fix are equal. */
  predicate Meet(m: Network, n: Network)
    requires |m.net.addr| == |m.net.mask| == Width(m.v6) && |n.net.addr| == |n.net.mask| == Width(n.v6)
  {
    m.v6 == n.v6 && Overlaps(m.net, n.net)
  }

  function AndByte(a: bv8, m: bv8, b: bv8, n: bv8): bv8 {
    (a & m & n) | (a & m & !n) | (b & n & !m)
  }

  function AndNet(m: Network, n: Network): (r: Network)
    requires |m.net.addr| == |m.net.mask| == Width(m.v6) && |n.net.addr| == |n.net.mask| == Width(n.v6) && m.v6 == n.v6
    ensures |r.net.addr| == |r.net.mask| == Width(m.v6) && r.v6 == m.v6
  {
    var h := Width(m.v6);
    Network(m.v6,
            Net(seq(h, i requires 0 <= i < h => AndByte(m.net.addr[i], m.net.mask[i], n.net.addr[i], n.net.mask[i])),
                      seq(h, i requires 0 <= i < h => Join(m.net.mask[i], n.net.mask[i]))))
  }

  function AndOne(m: Network, list: seq<Network>): seq<Network>
    requires NetworksValid([m]) && NetworksValid(list)
  {
    if list == [] then []
    else
      assert NetworksValid(list[1..]);
      assert [m][0] == m;
      (if Meet(m, list[0]) then [AndNet(m, list[0])] else []) + AndOne(m, list[1..])
  }

  function AndNetworks(a: seq<Network>, b: seq<Network>): seq<Network>
    requires NetworksValid(a) && NetworksValid(b)
  {
    if a == [] then []
    else assert NetworksValid([a[0]]) && NetworksValid(a[1..]); AndOne(a[0], b) + AndNetworks(a[1..], b)
  }

  function AndRange(r: (nat, nat), list: Ranges): Ranges {
    if list == [] then []
    else
      var from := if r.0 > list[0].0 then r.0 else list[0].0;
      var to := if r.1 < list[0].1 then r.1 else list[0].1;
      (if from <= to then [(from, to)] else []) + AndRange(r, list[1..])
  }

  function AndRanges(a: Ranges, b: Ranges): Ranges {
    if a == [] then [] else AndRange(a[0], b) + AndRanges(a[1..], b)
  }

  function AndFragments(a: seq<Fragment>, b: seq<Fragment>): (r: seq<Fragment>)
    ensures forall f :: f in r <==> f in a && f in b
  {
    if a == [] then [] else (if a[0] in b then [a[0]] else []) + AndFragments(a[1..], b)
  }

  /** A missing part stands for no restriction. */
  function AndPrm(a: Option<Ranges>, b: Option<Ranges>): Option<Ranges> {
    if a.None? then b else if b.None? then a else Some(AndRanges(a.value, b.value))
  }

  function AndSide(a: Option<seq<Network>>, b: Option<seq<Network>>): Option<seq<Network>>
    requires (a.Some? ==> NetworksValid(a.value)) && (b.Some? ==> NetworksValid(b.value))
  {
    if a.None? then b else if b.None? then a else Some(AndNetworks(a.value, b.value))
  }

  function AndProto(a: Option<Proto>, b: Option<Proto>): Option<Proto> {
    if a.None? then b else if b.None? then a
    else Some(Proto(AndPrm(a.value.kind, b.value.kind), AndPrm(a.value.prm1, b.value.prm1),
                    AndPrm(a.value.prm2, b.value.prm2),
                    AndPrm(a.value.prm3, b.value.prm3)))
  }

  function AndIds(a: Option<int>, b: Option<int>): Option<int> {
    if a.None? then b else if b.None? then a else Some(AndId(a.value, b.value))
  }

  function AndFlags(a: Option<seq<Fragment>>, b: Option<seq<Fragment>>): Option<seq<Fragment>> {
    if a.None? then b else if b.None? then a else Some(AndFragments(a.value, b.value))
  }

  ghost predicate SidesValid(f: Filter) {
    (f.source.Some? ==> NetworksValid(f.source.value)) && (f.destination.Some? ==> NetworksValid(f.destination.value))
  }

  /** `operator&` */
  function And(a: Filter, b: Option<Filter>): Filter
    requires SidesValid(a) && (b.Some? ==> SidesValid(b.value))
  {
    if b.None? then a
    else Filter(AndIds(a.acl, b.value.acl), AndSide(a.source, b.value.source),
                AndSide(a.destination, b.value.destination),
                AndFlags(a.flags, b.value.flags), AndProto(a.proto, b.value.proto), AndIds(a.dir, b.value.dir))
  }

  // ----- matching ---------------------------------------------------------------------------

  ghost predicate InNetworks(list: seq<Network>, v6: bool, a: Bytes) {
    exists i :: 0 <= i < |list| && list[i].v6 == v6 && Covers(list[i].net, a)
  }

  ghost predicate IdIs(id: Option<int>, n: int) {
    id.None? || id.value == n
  }

  ghost predicate SideIs(side: Option<seq<Network>>, v6: bool, a: Bytes) {
    side.None? || InNetworks(side.value, v6, a)
  }

  ghost predicate FlagsAre(flags: Option<seq<Fragment>>, state: Fragment) {
    flags.None? || state in flags.value
  }

  /** The packet, in the direction, matches all parts of the filter. */
  ghost predicate Passes(f: Filter, p: Packet, dir: nat) {
    && IdIs(f.acl, p.acl) && SideIs(f.source, p.v6, p.source) && SideIs(f.destination, p.v6, p.destination)
    && FlagsAre(f.flags, StateOf(p.flags)) && Matches(f.proto, p.segment) && IdIs(f.dir, dir)
  }

  ghost predicate RulePasses(f: Option<Filter>, p: Packet, dir: nat) {
    f.None? || Passes(f.value, p, dir)
  }

  /** Parameters come with a list of protocols that have them. */
  ghost predicate ProtoShaped(f: Option<Proto>) {
    f.Some? ==>
      && (f.value.kind.None? ==> f.value.prm1.None? && f.value.prm2.None? && f.value.prm3.None?)
      && (f.value.prm1.Some? || f.value.prm2.Some? ==>
            forall v | InRanges(f.value.kind.value, v) :: v in {TCP, UDP, ICMP, ICMPV6})
  }

  ghost predicate Shaped(f: Filter) {
    SidesValid(f) && ProtoShaped(f.proto)
  }

  // ----- the conjunction is the intersection ------------------------------------------------

  lemma ByteLeft(a: bv8, m: bv8, b: bv8, n: bv8)
    ensures AndByte(a, m, b, n) & m == a & m
  {
  }

  lemma ByteRight(a: bv8, m: bv8, b: bv8, n: bv8)
    requires a & (m & n) == b & (m & n)
    ensures AndByte(a, m, b, n) & n == b & n
  {
    assert AndByte(a, m, b, n) & n == (a & (m & n)) | (b & n & !m);
  }

  function Mask(x: bv8, m: bv8): bv8 {
    x & m
  }

  function Join(x: bv8, y: bv8): bv8 {
    x | y
  }

  lemma JoinMask(x: bv8, m: bv8, n: bv8)
    ensures Mask(x, Join(m, n)) == Join(Mask(x, m), Mask(x, n))
    ensures Mask(Mask(x, Join(m, n)), m) == Mask(x, m) && Mask(Mask(x, Join(m, n)), n) == Mask(x, n)
  {
  }

  lemma AgreeMask(x: bv8, m: bv8, a: bv8)
    ensures Agree(x, m, a) <==> Mask(x, m) == Mask(a, m)
  {
  }

  lemma ByteSides(a: bv8, m: bv8, b: bv8, n: bv8)
    requires Agree(a, m & n, b)
    ensures Mask(AndByte(a, m, b, n), m) == Mask(a, m) && Mask(AndByte(a, m, b, n), n) == Mask(b, n)
  {
    hide AndByte;
    ByteLeft(a, m, b, n);
    ByteRight(a, m, b, n);
  }

  lemma ByteBoth(x: bv8, a: bv8, m: bv8, b: bv8, n: bv8)
    requires Agree(a, m & n, b)
    ensures Agree(x, Join(m, n), AndByte(a, m, b, n)) <==> Agree(x, m, a) && Agree(x, n, b)
  {
    hide *;
    var c := AndByte(a, m, b, n);
    ByteSides(a, m, b, n);
    AgreeMask(x, Join(m, n), c);
    AgreeMask(x, m, a);
    AgreeMask(x, n, b);
    JoinMask(x, m, n);
    JoinMask(c, m, n);
  }

  lemma NetBoth(m: Network, n: Network, a: Bytes)
    requires |m.net.addr| == |m.net.mask| == Width(m.v6) && |n.net.addr| == |n.net.mask| == Width(n.v6) && Meet(m, n)
             && |a| == Width(m.v6)
    ensures Covers(AndNet(m, n).net, a) <==> Covers(m.net, a) && Covers(n.net, a)
  {
    hide Agree, AndByte, Join, Overlaps;
    var r := AndNet(m, n).net;
    forall i | 0 <= i < |a|
      ensures Agree(a[i], r.mask[i], r.addr[i])
              <==> Agree(a[i], m.net.mask[i], m.net.addr[i]) && Agree(a[i], n.net.mask[i], n.net.addr[i])
    {
      MeetByte(m, n, i);
      NetByte(m, n, i);
      ByteBoth(a[i], m.net.addr[i], m.net.mask[i], n.net.addr[i], n.net.mask[i]);
    }
    hide AndNet;
  }

  lemma NetByte(m: Network, n: Network, i: nat)
    requires |m.net.addr| == |m.net.mask| == Width(m.v6) && |n.net.addr| == |n.net.mask| == Width(n.v6) && m.v6 == n.v6
             && i < Width(m.v6)
    ensures AndNet(m, n).net.mask[i] == Join(m.net.mask[i], n.net.mask[i])
    ensures AndNet(m, n).net.addr[i] == AndByte(m.net.addr[i], m.net.mask[i], n.net.addr[i], n.net.mask[i])
  {
    hide AndByte, Join;
  }

  lemma MeetByte(m: Network, n: Network, i: nat)
    requires |m.net.addr| == |m.net.mask| == Width(m.v6) && |n.net.addr| == |n.net.mask| == Width(n.v6) && Meet(m, n)
             && i < Width(m.v6)
    ensures m.v6 == n.v6 && Agree(m.net.addr[i], m.net.mask[i] & n.net.mask[i], n.net.addr[i])
  {
    hide Agree;
  }

  /** Networks with a common address meet. */
  lemma CommonMeet(m: Network, n: Network, a: Bytes)
    requires |m.net.addr| == |m.net.mask| == Width(m.v6) && |n.net.addr| == |n.net.mask| == Width(n.v6) && m.v6 == n.v6
             && |a| == Width(m.v6)
    requires Covers(m.net, a) && Covers(n.net, a)
    ensures Meet(m, n)
  {
    hide Agree;
    forall i | 0 <= i < |a|
      ensures Agree(m.net.addr[i], m.net.mask[i] & n.net.mask[i], n.net.addr[i])
    {
      BothAgree(a[i], m.net.addr[i], m.net.mask[i], n.net.addr[i], n.net.mask[i]);
    }
  }

  lemma InCons(list: seq<Network>, rest: seq<Network>, v6: bool, a: Bytes)
    ensures InNetworks(list + rest, v6, a) <==> InNetworks(list, v6, a) || InNetworks(rest, v6, a)
  {
    hide Covers;
    if i :| 0 <= i < |list| && list[i].v6 == v6 && Covers(list[i].net, a) {
      assert (list + rest)[i] == list[i];
    }
    if i :| 0 <= i < |rest| && rest[i].v6 == v6 && Covers(rest[i].net, a) {
      assert (list + rest)[|list| + i] == rest[i];
    }
  }

  lemma {:induction false} OneBoth(m: Network, list: seq<Network>, v6: bool, a: Bytes)
    requires NetworksValid([m]) && NetworksValid(list) && |a| == Width(v6)
    ensures InNetworks(AndOne(m, list), v6, a) <==> m.v6 == v6 && Covers(m.net, a) && InNetworks(list, v6, a)
  {
    if list != [] {
      assert NetworksValid(list[1..]) && [m][0] == m;
      OneBoth(m, list[1..], v6, a);
      var first := if Meet(m, list[0]) then [AndNet(m, list[0])] else [];
      InCons(first, AndOne(m, list[1..]), v6, a);
      assert list == [list[0]] + list[1..];
      InCons([list[0]], list[1..], v6, a);
      assert InNetworks([list[0]], v6, a) <==> list[0].v6 == v6 && Covers(list[0].net, a) by { OneIs(list[0], v6, a); }
      assert InNetworks(first, v6, a)
             <==> m.v6 == v6 && Covers(m.net, a) && list[0].v6 == v6 && Covers(list[0].net, a) by {
        FirstBoth(m, list[0], v6, a);
      }
    }
  }

  lemma OneIs(n: Network, v6: bool, a: Bytes)
    ensures InNetworks([n], v6, a) <==> n.v6 == v6 && Covers(n.net, a)
  {
    hide Covers;
    assert [n][0] == n;
  }

  lemma FirstBoth(m: Network, n: Network, v6: bool, a: Bytes)
    requires |m.net.addr| == |m.net.mask| == Width(m.v6) && |n.net.addr| == |n.net.mask| == Width(n.v6)
             && |a| == Width(v6)
    ensures InNetworks(if Meet(m, n) then [AndNet(m, n)] else [], v6, a)
            <==> m.v6 == v6 && Covers(m.net, a) && n.v6 == v6 && Covers(n.net, a)
  {
    hide Covers, Meet, AndNet;
    if m.v6 == n.v6 == v6 {
      if Meet(m, n) {
        NetBoth(m, n, a);
        OneIs(AndNet(m, n), v6, a);
      } else if Covers(m.net, a) && Covers(n.net, a) {
        CommonMeet(m, n, a);
      }
    } else {
      MeetFamily(m, n);
      if Meet(m, n) {
        OneIs(AndNet(m, n), v6, a);
      }
    }
  }

  lemma MeetFamily(m: Network, n: Network)
    requires |m.net.addr| == |m.net.mask| == Width(m.v6) && |n.net.addr| == |n.net.mask| == Width(n.v6)
    ensures Meet(m, n) ==> m.v6 == n.v6
  {
  }

  lemma {:induction false} NetworksBoth(x: seq<Network>, y: seq<Network>, v6: bool, a: Bytes)
    requires NetworksValid(x) && NetworksValid(y) && |a| == Width(v6)
    ensures InNetworks(AndNetworks(x, y), v6, a) <==> InNetworks(x, v6, a) && InNetworks(y, v6, a)
  {
    hide Covers, AndOne;
    if x != [] {
      assert NetworksValid([x[0]]) && NetworksValid(x[1..]);
      NetworksBoth(x[1..], y, v6, a);
      OneBoth(x[0], y, v6, a);
      InCons(AndOne(x[0], y), AndNetworks(x[1..], y), v6, a);
      assert x == [x[0]] + x[1..];
      InCons([x[0]], x[1..], v6, a);
      OneIs(x[0], v6, a);
    }
  }

  lemma {:induction false} NetworksValidBoth(x: seq<Network>, y: seq<Network>)
    requires NetworksValid(x) && NetworksValid(y)
    ensures NetworksValid(AndNetworks(x, y))
  {
    if x != [] {
      assert NetworksValid([x[0]]) && NetworksValid(x[1..]);
      NetworksValidBoth(x[1..], y);
      OneValid(x[0], y);
    }
  }

  lemma {:induction false} OneValid(m: Network, list: seq<Network>)
    requires NetworksValid([m]) && NetworksValid(list)
    ensures NetworksValid(AndOne(m, list))
  {
    if list != [] {
      assert NetworksValid(list[1..]) && [m][0] == m;
      OneValid(m, list[1..]);
    }
  }

  lemma {:induction false} RangeBoth(r: (nat, nat), list: Ranges, v: nat)
    ensures InRanges(AndRange(r, list), v) <==> InRange(r, v) && InRanges(list, v)
  {
    if list != [] {
      RangeBoth(r, list[1..], v);
      var from := if r.0 > list[0].0 then r.0 else list[0].0;
      var to := if r.1 < list[0].1 then r.1 else list[0].1;
      var first: Ranges := if from <= to then [(from, to)] else [];
      InBoth(first, AndRange(r, list[1..]), v);
      assert list == [list[0]] + list[1..];
      InBoth([list[0]], list[1..], v);
      SingleRange(list[0], v);
      if from <= to {
        SingleRange((from, to), v);
      }
    }
  }

  lemma SingleRange(r: (nat, nat), v: nat)
    ensures InRanges([r], v) <==> InRange(r, v)
  {
    assert [r][0] == r;
  }

  lemma {:induction false} RangesBoth(a: Ranges, b: Ranges, v: nat)
    ensures InRanges(AndRanges(a, b), v) <==> InRanges(a, v) && InRanges(b, v)
  {
    if a != [] {
      RangesBoth(a[1..], b, v);
      RangeBoth(a[0], b, v);
      InBoth(AndRange(a[0], b), AndRanges(a[1..], b), v);
      assert a == [a[0]] + a[1..];
      InBoth([a[0]], a[1..], v);
      SingleRange(a[0], v);
    }
  }

  lemma PrmBoth(a: Option<Ranges>, b: Option<Ranges>, v: nat)
    ensures Allows(AndPrm(a, b), v) <==> Allows(a, v) && Allows(b, v)
  {
    hide InRanges, AndRanges;
    if a.Some? && b.Some? {
      RangesBoth(a.value, b.value, v);
    }
  }

  lemma ProtoBoth(a: Option<Proto>, b: Option<Proto>, s: Segment)
    requires ProtoShaped(a) && ProtoShaped(b)
    ensures Matches(AndProto(a, b), s) <==> Matches(a, s) && Matches(b, s)
  {
    if a.Some? && b.Some? {
      KindBoth(a.value.kind, b.value.kind, s.protocol);
      PrmBoth(a.value.prm1, b.value.prm1, s.prm1);
      PrmBoth(a.value.prm2, b.value.prm2, s.prm2);
      PrmBoth(a.value.prm3, b.value.prm3, s.prm3);
      hide InRanges, AndRanges;
    }
  }

  lemma KindBoth(a: Option<Ranges>, b: Option<Ranges>, v: nat)
    ensures a.Some? && b.Some? ==> (InRanges(AndPrm(a, b).value, v) <==> InRanges(a.value, v) && InRanges(b.value, v))
  {
    hide InRanges, AndRanges;
    if a.Some? && b.Some? {
      RangesBoth(a.value, b.value, v);
    }
  }

  lemma ProtoShapedBoth(a: Option<Proto>, b: Option<Proto>)
    requires ProtoShaped(a) && ProtoShaped(b)
    ensures ProtoShaped(AndProto(a, b))
  {
    if a.Some? && b.Some? {
      forall v: nat { KindBoth(a.value.kind, b.value.kind, v); }
      hide InRanges, AndRanges;
    }
  }

  /** The conjunction matches exactly the packets that both filters match. */
  lemma AndPasses(a: Filter, b: Option<Filter>, p: Packet, dir: nat)
    requires Shaped(a) && (b.Some? ==> Shaped(b.value)) && p.Valid()
    ensures Passes(And(a, b), p, dir) <==> Passes(a, p, dir) && RulePasses(b, p, dir)
  {
    hide AndNetworks, AndProto, InNetworks, Matches, StateOf;
    if b.Some? {
      ProtoBoth(a.proto, b.value.proto, p.segment);
      if a.source.Some? && b.value.source.Some? {
        NetworksBoth(a.source.value, b.value.source.value, p.v6, p.source);
      }
      if a.destination.Some? && b.value.destination.Some? {
        NetworksBoth(a.destination.value, b.value.destination.value, p.v6, p.destination);
      }
    }
  }

  lemma AndShaped(a: Filter, b: Option<Filter>)
    requires Shaped(a) && (b.Some? ==> Shaped(b.value))
    ensures Shaped(And(a, b))
  {
    if b.Some? {
      ProtoShapedBoth(a.proto, b.value.proto);
      hide ProtoShaped, AndProto, AndNetworks, NetworksValid;
      if a.source.Some? && b.value.source.Some? {
        NetworksValidBoth(a.source.value, b.value.source.value);
      }
      if a.destination.Some? && b.value.destination.Some? {
        NetworksValidBoth(a.destination.value, b.value.destination.value);
      }
    }
  }

  // ----- empty filters ----------------------------------------------------------------------

  predicate EmptyProto(f: Option<Proto>) {
    f.Some? && (f.value.kind == Some([]) || f.value.prm1 == Some([]) || f.value.prm2 == Some([]))
  }

  /** `is_none`: some part is empty; fragment states and TCP flags are not looked at. */
  predicate IsNone(f: Filter) {
    || (f.acl.Some? && f.acl.value < 0) || f.source == Some([]) || f.destination == Some([])
    || EmptyProto(f.proto) || (f.dir.Some? && f.dir.value < 0)
  }

  /** A segment without header of a protocol that has parameters. */
  predicate Hidden(s: Segment) {
    s.headless && s.protocol in {1, 6, 17, 58}
  }

  /** Only such a segment can match an empty filter. */
  lemma NoneEmpty(f: Filter, p: Packet, dir: nat)
    requires Shaped(f) && IsNone(f) && Passes(f, p, dir)
    ensures Hidden(p.segment)
  {
  }

  /** `compatible` */
  predicate SidesMeet(a: Option<seq<Network>>, b: Option<seq<Network>>)
    requires (a.Some? ==> NetworksValid(a.value)) && (b.Some? ==> NetworksValid(b.value))
  {
    a.Some? && b.Some? ==> exists i, j :: 0 <= i < |a.value| && 0 <= j < |b.value| && Meet(a.value[i], b.value[j])
  }

  predicate Compatible(a: Filter, b: Filter)
    requires SidesValid(a) && SidesValid(b)
  {
    SidesMeet(a.destination, b.destination) && SidesMeet(a.source, b.source)
  }

  lemma SideCommon(a: Option<seq<Network>>, b: Option<seq<Network>>, v6: bool, x: Bytes)
    requires (a.Some? ==> NetworksValid(a.value)) && (b.Some? ==> NetworksValid(b.value)) && |x| == Width(v6)
    requires SideIs(a, v6, x) && SideIs(b, v6, x)
    ensures SidesMeet(a, b)
  {
    hide Covers, Meet;
    if a.Some? && b.Some? {
      var i :| 0 <= i < |a.value| && a.value[i].v6 == v6 && Covers(a.value[i].net, x);
      var j :| 0 <= j < |b.value| && b.value[j].v6 == v6 && Covers(b.value[j].net, x);
      CommonMeet(a.value[i], b.value[j], x);
    }
  }

  /** Filters with a common packet are compatible. */
  lemma CompatibleCommon(a: Filter, b: Filter, p: Packet, dir: nat)
    requires Shaped(a) && Shaped(b) && p.Valid() && Passes(a, p, dir) && Passes(b, p, dir)
    ensures Compatible(a, b)
  {
    hide SideIs, SidesMeet, NetworksValid;
    SideCommon(a.source, b.source, p.v6, p.source);
    SideCommon(a.destination, b.destination, p.v6, p.destination);
  }

  /** `is_term_filter`: nothing but an acl and a direction. */
  predicate IsTerm(f: Option<Filter>) {
    f.None? || (f.value.source.None? && f.value.destination.None? && f.value.flags.None? && f.value.proto.None?)
  }
}
