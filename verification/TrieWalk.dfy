/**
  Enumerating a trie (`lookup_deep`, `get_all_top`): the key is changed bit by bit on the way down and
  restored on the way up.
*/
module TrieWalk {
  import opened Base
  import opened PrefixTrie

  /** A reported prefix: an address, the number of its bits that count, and a value. */
  datatype Entry<V> = Entry(addr: Bits, len: nat, value: V)

  ghost predicate Zeros(a: Bits, from: nat) {
    forall i | from <= i < |a| :: !a[i]
  }

  /** The entry reports key x below the path p. */
  ghost predicate Reports<V>(e: Entry<V>, width: nat, p: Bits, x: Bits) {
    |e.addr| == width && e.len == |p| + |x| <= width && e.addr[..e.len] == p + x && Zeros(e.addr, e.len)
  }

  ghost predicate Reported<V(!new)>(out: seq<Entry<V>>, width: nat, p: Bits, what: map<Bits, V>, x: Bits) {
    exists i :: 0 <= i < |out| && Reports(out[i], width, p, x) && Get(what, x) == Some(out[i].value)
  }

  ghost predicate Known<V(!new)>(e: Entry<V>, width: nat, p: Bits, what: map<Bits, V>) {
    exists x: Bits :: Reports(e, width, p, x) && Get(what, x) == Some(e.value)
  }

  /** The entries report all keys of the map, each once, and nothing else. */
  ghost predicate Lists<V(!new)>(out: seq<Entry<V>>, width: nat, p: Bits, what: map<Bits, V>) {
    && (forall i | 0 <= i < |out| :: Known(out[i], width, p, what))
    && (forall x: Bits | x in what :: Reported(out, width, p, what, x))
    && (forall i, j | 0 <= i < j < |out| :: out[i].len != out[j].len || out[i].addr != out[j].addr)
  }

  lemma ListsNone<V(!new)>(width: nat, p: Bits)
    ensures Lists<V>([], width, p, map[])
  {
  }

  lemma ListsOwn<V(!new)>(a: Bits, n: nat, v: V)
    requires n <= |a| && Zeros(a, n)
    ensures Lists([Entry(a, n, v)], |a|, a[..n], map[[] := v])
  {
    var e := Entry(a, n, v);
    assert a[..n] + [] == a[..n];
    assert Reports(e, |a|, a[..n], []);
    assert [e][0] == e;
  }

  /** Keys behind one bit are keys of the longer path. */
  lemma ReportsBehind<V>(e: Entry<V>, width: nat, p: Bits, bit: bool, x: Bits)
    ensures Reports(e, width, p + [bit], x) <==> Reports(e, width, p, [bit] + x)
  {
    assert p + [bit] + x == p + ([bit] + x);
  }

  lemma KnownBehind<V(!new)>(e: Entry<V>, width: nat, p: Bits, bit: bool, kid: map<Bits, V>, own: Option<V>,
                             zero: map<Bits, V>, one: map<Bits, V>,
                             what: map<Bits, V>)
    requires Known(e, width, p + [bit], kid) && Joined(what, own, zero, one) && kid == Pick(bit, zero, one)
    ensures Known(e, width, p, what) && e.len > |p| && |e.addr| > |p| && e.addr[|p|] == bit
  {
    var x: Bits :| Reports(e, width, p + [bit], x) && Get(kid, x) == Some(e.value);
    ReportsBehind(e, width, p, bit, x);
    var k := [bit] + x;
    assert k[1..] == x;
    JoinedAt(what, own, zero, one, k);
    assert e.addr[|p|] == e.addr[..e.len][|p|] == (p + k)[|p|];
  }

  lemma ReportedUp<V(!new)>(out: seq<Entry<V>>, width: nat, p: Bits, bit: bool, x: Bits, kid: map<Bits, V>,
                            what: map<Bits, V>)
    requires Reported(out, width, p + [bit], kid, x) && Get(what, [bit] + x) == Get(kid, x)
    ensures Reported(out, width, p, what, [bit] + x)
  {
    hide Reports, Get;
    var i :| 0 <= i < |out| && Reports(out[i], width, p + [bit], x) && Get(kid, x) == Some(out[i].value);
    ReportsBehind(out[i], width, p, bit, x);
  }

  lemma ReportedBehind<V(!new)>(out: seq<Entry<V>>, width: nat, p: Bits, k: Bits, own: Option<V>, zero: map<Bits, V>,
                                one: map<Bits, V>,
                                what: map<Bits, V>)
    requires k != [] && k in what && Joined(what, own, zero, one)
             && Lists(out, width, p + [k[0]], Pick(k[0], zero, one))
    ensures Reported(out, width, p, what, k)
  {
    hide *;
    var bit, x := k[0], k[1..];
    var kid := Pick(bit, zero, one);
    JoinedAt(what, own, zero, one, k);
    InMap(what, kid, k, x);
    ListsAt(out, width, p + [bit], kid, x);
    assert k == [bit] + x;
    ReportedUp(out, width, p, bit, x, kid, what);
  }

  lemma ListsAt<V(!new)>(out: seq<Entry<V>>, width: nat, p: Bits, what: map<Bits, V>, x: Bits)
    requires Lists(out, width, p, what) && x in what
    ensures Reported(out, width, p, what, x)
  {
  }

  lemma InMap<V>(m: map<Bits, V>, n: map<Bits, V>, k: Bits, x: Bits)
    requires k in m && Get(m, k) == Get(n, x)
    ensures x in n
  {
  }

  ghost function OwnMap<V>(own: Option<V>): map<Bits, V> {
    if own.Some? then map[[] := own.value] else map[]
  }

  lemma OwnKnown<V(!new)>(e: Entry<V>, width: nat, p: Bits, own: Option<V>, zero: map<Bits, V>, one: map<Bits, V>,
                          what: map<Bits, V>)
    requires Known(e, width, p, OwnMap(own)) && Joined(what, own, zero, one)
    ensures Known(e, width, p, what) && e.len == |p|
  {
    var x: Bits :| Reports(e, width, p, x) && Get(OwnMap(own), x) == Some(e.value);
    assert x == [];
    JoinedAt(what, own, zero, one, []);
  }

  /** The entries of a node are its own and those of its children. */
  lemma ListsJoin<V(!new)>(here: seq<Entry<V>>, out0: seq<Entry<V>>, out1: seq<Entry<V>>, width: nat, p: Bits,
                           own: Option<V>,
                           zero: map<Bits, V>, one: map<Bits, V>, what: map<Bits, V>)
    requires Joined(what, own, zero, one) && Lists(here, width, p, OwnMap(own))
    requires Lists(out0, width, p + [false], zero) && Lists(out1, width, p + [true], one)
    ensures Lists(here + out0 + out1, width, p, what)
  {
    hide Joined, Get, Reports;
    var out := here + out0 + out1;
    forall i | 0 <= i < |out|
      ensures Known(out[i], width, p, what)
      ensures i < |here| ==> out[i].len == |p|
      ensures |here| <= i < |here| + |out0| ==> out[i].len > |p| && |out[i].addr| > |p| && !out[i].addr[|p|]
      ensures |here| + |out0| <= i ==> out[i].len > |p| && |out[i].addr| > |p| && out[i].addr[|p|]
    {
      if i < |here| {
        OwnKnown(here[i], width, p, own, zero, one, what);
      } else if i < |here| + |out0| {
        KnownBehind(out0[i - |here|], width, p, false, zero, own, zero, one, what);
      } else {
        KnownBehind(out1[i - |here| - |out0|], width, p, true, one, own, zero, one, what);
      }
    }
    forall x: Bits | x in what
      ensures Reported(out, width, p, what, x)
    {
      if x == [] {
        OwnReported(here, width, p, own, zero, one, what);
        ReportedIn(here, [], out0 + out1, width, p, what, x);
        assert [] + here + (out0 + out1) == out;
      } else if x[0] {
        ReportedBehind(out1, width, p, x, own, zero, one, what);
        ReportedIn(out1, here + out0, [], width, p, what, x);
        assert here + out0 + out1 + [] == out;
      } else {
        ReportedBehind(out0, width, p, x, own, zero, one, what);
        ReportedIn(out0, here, out1, width, p, what, x);
      }
    }
    hide Known, Reported;
    forall i, j | 0 <= i < j < |out|
      ensures out[i].len != out[j].len || out[i].addr != out[j].addr
    {
      Apart(here, out0, out1, i, j);
    }
  }

  lemma OwnReported<V(!new)>(here: seq<Entry<V>>, width: nat, p: Bits, own: Option<V>, zero: map<Bits, V>,
                             one: map<Bits, V>, what: map<Bits, V>)
    requires Joined(what, own, zero, one) && Lists(here, width, p, OwnMap(own)) && [] in what
    ensures Reported(here, width, p, what, [])
  {
    JoinedAt(what, own, zero, one, []);
    assert Reported(here, width, p, OwnMap(own), []);
  }

  lemma ReportedIn<V(!new)>(out: seq<Entry<V>>, before: seq<Entry<V>>, after: seq<Entry<V>>, width: nat, p: Bits,
                            what: map<Bits, V>, x: Bits)
    requires Reported(out, width, p, what, x)
    ensures Reported(before + out + after, width, p, what, x)
  {
    hide Reports, Get;
    var i :| 0 <= i < |out| && Reports(out[i], width, p, x) && Get(what, x) == Some(out[i].value);
    assert (before + out + after)[|before| + i] == out[i];
  }

  lemma Apart<V>(here: seq<Entry<V>>, out0: seq<Entry<V>>, out1: seq<Entry<V>>, i: nat, j: nat)
    requires i < j < |here| + |out0| + |out1|
    requires forall i, j | 0 <= i < j < |here| :: here[i].len != here[j].len || here[i].addr != here[j].addr
    requires forall i, j | 0 <= i < j < |out0| :: out0[i].len != out0[j].len || out0[i].addr != out0[j].addr
    requires forall i, j | 0 <= i < j < |out1| :: out1[i].len != out1[j].len || out1[i].addr != out1[j].addr
    requires var e, f := (here + out0 + out1)[i], (here + out0 + out1)[j];
             (i < |here| <= j ==> e.len != f.len) && (|here| <= i < |here| + |out0| <= j ==> e.addr != f.addr)
    ensures var e, f := (here + out0 + out1)[i], (here + out0 + out1)[j]; e.len != f.len || e.addr != f.addr
  {
  }

  // ----- everything below a node ------------------------------------------------------------

  /** The keys fit behind a path of the given length. */
  ghost predicate Room<V>(keys: map<Bits, V>, depth: nat, width: nat) {
    forall x | x in keys :: depth + |x| <= width
  }

  /** A node with a value or a child has a key. */
  lemma {:induction false} UsedHasKey<V(!new)>(n: Node<V>)
    requires n.Valid() && n.Used()
    ensures n.keys != map[]
    decreases n.repr
  {
    if n.value.Some? {
      JoinedAt(n.keys, n.value, KeysOf(n.zero), KeysOf(n.one), []);
    } else {
      var bit := n.zero == null;
      var kid := if bit then n.one else n.zero;
      UsedHasKey(kid);
      var x :| x in kid.keys;
      assert ([bit] + x)[1..] == x;
      JoinedAt(n.keys, n.value, KeysOf(n.zero), KeysOf(n.one), [bit] + x);
    }
  }

  /** There is a bit left for a child. */
  lemma KidRoom<V(!new)>(n: Node<V>, bit: bool, depth: nat, width: nat)
    requires n.Valid() && n.Kid(bit) != null && Room(n.keys, depth, width)
    ensures depth < width && Room(n.Kid(bit).keys, depth + 1, width)
  {
    var kid := n.Kid(bit);
    forall x | x in kid.keys
      ensures depth + 1 + |x| <= width
    {
      assert ([bit] + x)[1..] == x;
      JoinedAt(n.keys, n.value, KeysOf(n.zero), KeysOf(n.one), [bit] + x);
    }
    UsedHasKey(kid);
    var x :| x in kid.keys;
  }

  method Own<V(!new)>(n: Node<V>, key: array<bool>, depth: nat) returns (out: seq<Entry<V>>)
    requires depth <= key.Length && Zeros(key[..], depth)
    ensures Lists(out, key.Length, key[..depth], OwnMap(n.value))
  {
    out := [];
    assert key[..][..depth] == key[..depth];
    if n.value.Some? {
      ListsOwn(key[..], depth, n.value.value);
      out := [Entry(key[..], depth, n.value.value)];
    }
  }

  /** The part of `lookup_deep` below the given prefix: all keys of the node. */
  method Collect<V(!new)>(n: Node<V>, key: array<bool>, depth: nat) returns (out: seq<Entry<V>>)
    requires n.Valid() && depth <= key.Length && Zeros(key[..], depth) && Room(n.keys, depth, key.Length)
    modifies key
    ensures key[..] == old(key[..]) && Lists(out, key.Length, key[..depth], n.keys)
    decreases n.repr, 1
  {
    hide Lists, Joined, Room;
    var here := Own(n, key, depth);
    var out0 := Below(n, false, key, depth);
    var out1 := Below(n, true, key, depth);
    out := here + out0 + out1;
    ListsJoin(here, out0, out1, key.Length, key[..depth], n.value, KeysOf(n.zero), KeysOf(n.one), n.keys);
  }

  /** One child: its bit is set, and cleared again. */
  method Below<V(!new)>(n: Node<V>, bit: bool, key: array<bool>, depth: nat) returns (out: seq<Entry<V>>)
    requires n.Valid() && depth <= key.Length && Zeros(key[..], depth) && Room(n.keys, depth, key.Length)
    modifies key
    ensures key[..] == old(key[..]) && Lists(out, key.Length, key[..depth] + [bit], KeysOf(n.Kid(bit)))
    decreases n.repr, 0
  {
    hide Lists, Joined, Room;
    var kid := n.Kid(bit);
    if kid == null {
      ListsNone<V>(key.Length, key[..depth] + [bit]);
      return [];
    }
    KidRoom(n, bit, depth, key.Length);
    ghost var was := key[..];
    key[depth] := bit;
    assert key[..depth + 1] == was[..depth] + [bit];
    out := Collect(kid, key, depth + 1);
    key[depth] := false;
    assert key[..] == was;
  }

  // ----- lookup_deep ------------------------------------------------------------------------

  /** The stored keys that are longer than s and begin with it. */
  ghost function Under<V>(keys: map<Bits, V>, s: Bits): map<Bits, V> {
    map x | x in keys && s < x :: keys[x]
  }

  lemma UnderGet<V>(keys: map<Bits, V>, s: Bits, k: Bits)
    ensures Get(Under(keys, s), k) == if s < k then Get(keys, k) else None
  {
  }

  lemma PrefixTail(s: Bits, k: Bits)
    requires k != [] && s != []
    ensures s < k <==> s[0] == k[0] && s[1..] < k[1..]
  {
    assert k == [k[0]] + k[1..] && s == [s[0]] + s[1..];
  }

  lemma UnderJoined<V(!new)>(keys: map<Bits, V>, own: Option<V>, zero: map<Bits, V>, one: map<Bits, V>, s: Bits)
    requires Joined(keys, own, zero, one)
    ensures s == [] ==> Joined(Under(keys, s), None, zero, one)
    ensures s != [] && !s[0] ==> Joined(Under(keys, s), None, Under(zero, s[1..]), map[])
    ensures s != [] && s[0] ==> Joined(Under(keys, s), None, map[], Under(one, s[1..]))
  {
    if s == [] {
      UnderAll(keys, own, zero, one);
    } else {
      UnderKid(keys, own, zero, one, s);
    }
  }

  lemma UnderAll<V(!new)>(keys: map<Bits, V>, own: Option<V>, zero: map<Bits, V>, one: map<Bits, V>)
    requires Joined(keys, own, zero, one)
    ensures Joined(Under(keys, []), None, zero, one)
  {
    forall k: Bits
      ensures Get(Under(keys, []), k) == if k == [] then None else Get(Pick(k[0], zero, one), k[1..])
    {
      UnderGet(keys, [], k);
      JoinedAt(keys, own, zero, one, k);
      hide Under, Get, Joined;
    }
  }

  lemma EmptyGet<V>(k: Bits)
    ensures Get<V>(map[], k) == None
  {
  }

  lemma UnderKid<V(!new)>(keys: map<Bits, V>, own: Option<V>, zero: map<Bits, V>, one: map<Bits, V>, s: Bits)
    requires Joined(keys, own, zero, one) && s != []
    ensures Joined(Under(keys, s), None, if s[0] then map[]
                                         else Under(zero, s[1..]), if s[0] then Under(one, s[1..]) else map[])
  {
    var zero', one' := if s[0] then map[] else Under(zero, s[1..]), if s[0] then Under(one, s[1..]) else map[];
    forall k: Bits
      ensures Get(Under(keys, s), k) == if k == [] then None else Get(Pick(k[0], zero', one'), k[1..])
    {
      hide Under, Get, Joined;
      UnderGet(keys, s, k);
      JoinedAt(keys, own, zero, one, k);
      if k != [] {
        PrefixTail(s, k);
        UnderGet(Pick(s[0], zero, one), s[1..], k[1..]);
        EmptyGet<V>(k[1..]);
      }
    }
  }

  /** The value that counts for the prefix itself: the longest match below, else the one from above. */
  ghost function Best<V>(keys: map<Bits, V>, s: Bits, prev: Option<V>): Option<V> {
    var r := Longest(keys, s, |s|);
    if r.Some? then Some(r.value.0) else prev
  }

  lemma BestJoined<V(!new)>(keys: map<Bits, V>, own: Option<V>, zero: map<Bits, V>, one: map<Bits, V>, s: Bits,
                            prev: Option<V>)
    requires Joined(keys, own, zero, one)
    ensures Best(keys, s, prev) == if s == [] then (if own.Some? then own else prev)
                                   else Best(Pick(s[0], zero, one), s[1..], if own.Some? then own else prev)
  {
    hide Joined, Longest;
    LongestJoined(keys, own, zero, one, s);
  }

  /** The report for a prefix: its value under the prefix itself, and then the longer stored prefixes. */
  ghost predicate DeepReport<V(!new)>(out: seq<Entry<V>>, a: Bits, n: nat, best: Option<V>, p: Bits,
                                      under: map<Bits, V>)
    requires n <= |a|
  {
    if best.Some? then out != [] && out[0] == Entry(a, n, best.value) && Lists(out[1..], |a|, p, under)
    else Lists(out, |a|, p, under)
  }

  function Head<V>(a: Bits, n: nat, v: Option<V>): seq<Entry<V>> {
    if v.Some? then [Entry(a, n, v.value)] else []
  }

  lemma DeepFrom<V(!new)>(a: Bits, n: nat, best: Option<V>, p: Bits, under: map<Bits, V>, rest: seq<Entry<V>>)
    requires n <= |a| && Lists(rest, |a|, p, under)
    ensures DeepReport(Head(a, n, best) + rest, a, n, best, p, under)
  {
    hide Lists;
    var out := Head(a, n, best) + rest;
    if best.Some? {
      assert out[1..] == rest;
    } else {
      assert out == rest;
    }
  }

  lemma ListsUp<V(!new)>(out: seq<Entry<V>>, width: nat, p: Bits, bit: bool, kid: map<Bits, V>, zero: map<Bits, V>,
                         one: map<Bits, V>,
                         what: map<Bits, V>)
    requires Lists(out, width, p + [bit], kid) && Joined(what, None, zero, one) && kid == Pick(bit, zero, one)
             && Pick(!bit, zero, one) == map[]
    ensures Lists(out, width, p, what)
  {
    hide Lists, Joined;
    ListsNone<V>(width, p);
    ListsNone<V>(width, p + [!bit]);
    if bit {
      ListsJoin([], [], out, width, p, None, zero, one, what);
      assert [] + [] + out == out;
    } else {
      ListsJoin([], out, [], width, p, None, zero, one, what);
      assert [] + out + [] == out;
    }
  }

  lemma UnderNone<V>(s: Bits)
    ensures Under<V>(map[], s) == map[] && Best<V>(map[], s, None) == None
    ensures forall prev: Option<V> :: Best(map[], s, prev) == prev
  {
    LongestNone<V>(s, |s|);
  }

  /** `lookup_deep` for the prefix of n bits in the key, from a node on its way. */
  method Deep<V(!new)>(node: Node<V>, key: array<bool>, n: nat, depth: nat,
                       prev: Option<V>) returns (out: seq<Entry<V>>)
    requires node.Valid() && depth <= n <= key.Length && Zeros(key[..], n) && Room(node.keys, depth, key.Length)
    modifies key
    ensures key[..] == old(key[..])
    ensures DeepReport(out, key[..], n, Best(node.keys, key[depth..n], prev), key[..depth],
                       Under(node.keys, key[depth..n]))
    decreases n - depth
  {
    hide Lists, Joined, Room, DeepReport, Under, Best;
    ghost var s, zero, one := key[depth..n], KeysOf(node.zero), KeysOf(node.one);
    BestJoined(node.keys, node.value, zero, one, s, prev);
    UnderJoined(node.keys, node.value, zero, one, s);
    var best := if node.value.Some? then node.value else prev;
    if depth == n {
      var out0 := Below(node, false, key, depth);
      var out1 := Below(node, true, key, depth);
      ListsNone<V>(key.Length, key[..depth]);
      ListsJoin([], out0, out1, key.Length, key[..depth], None, zero, one, Under(node.keys, s));
      assert [] + out0 + out1 == out0 + out1;
      out := Head(key[..], n, best) + (out0 + out1);
      DeepFrom(key[..], n, best, key[..depth], Under(node.keys, s), out0 + out1);
      return;
    }
    var bit := key[depth];
    var next := node.Kid(bit);
    assert s[0] == bit && s[1..] == key[depth + 1..n] && key[..depth + 1] == key[..depth] + [bit];
    if next == null {
      UnderNone<V>(s[1..]);
      ListsNone<V>(key.Length, key[..depth + 1]);
      out := Head(key[..], n, best);
      DeepUp(out, key[..], n, bit, best, key[..depth], map[], node.keys, s, zero, one, []);
    } else {
      KidRoom(node, bit, depth, key.Length);
      out := Deep(next, key, n, depth + 1, best);
      DeepUpReport(out, key[..], n, bit, Best(next.keys, s[1..], best), key[..depth], Under(next.keys, s[1..]),
                   node.keys, s, zero, one);
    }
  }

  lemma DeepUp<V(!new)>(out: seq<Entry<V>>, a: Bits, n: nat, bit: bool, best: Option<V>, p: Bits, kid: map<Bits, V>,
                        keys: map<Bits, V>, s: Bits,
                        zero: map<Bits, V>, one: map<Bits, V>, rest: seq<Entry<V>>)
    requires n <= |a| && s != [] && s[0] == bit && kid == Under(Pick(bit, zero, one), s[1..])
             && out == Head(a, n, best) + rest
    requires if bit then Joined(Under(keys, s), None, map[], kid) else Joined(Under(keys, s), None, kid, map[])
    requires Lists(rest, |a|, p + [bit], kid)
    ensures DeepReport(out, a, n, best, p, Under(keys, s))
  {
    hide Lists, Joined, DeepReport, Under;
    ListsUp(rest, |a|, p, bit, kid, if bit then map[] else kid, if bit then kid else map[], Under(keys, s));
    DeepFrom(a, n, best, p, Under(keys, s), rest);
  }

  lemma DeepUpReport<V(!new)>(out: seq<Entry<V>>, a: Bits, n: nat, bit: bool, best: Option<V>, p: Bits,
                              kid: map<Bits, V>, keys: map<Bits, V>, s: Bits,
                              zero: map<Bits, V>, one: map<Bits, V>)
    requires n <= |a| && s != [] && s[0] == bit && kid == Under(Pick(bit, zero, one), s[1..])
    requires if bit then Joined(Under(keys, s), None, map[], kid) else Joined(Under(keys, s), None, kid, map[])
    requires DeepReport(out, a, n, best, p + [bit], kid)
    ensures DeepReport(out, a, n, best, p, Under(keys, s))
  {
    hide Lists, Joined, Under;
    var rest := if best.Some? then out[1..] else out;
    assert out == Head(a, n, best) + rest;
    hide DeepReport;
    DeepUp(out, a, n, bit, best, p, kid, keys, s, zero, one, rest);
  }

  // ----- get_all_top ------------------------------------------------------------------------

  /** No shorter prefix of x is stored. */
  ghost predicate IsTop<V>(keys: map<Bits, V>, x: Bits) {
    forall n | 0 <= n < |x| :: x[..n] !in keys
  }

  /** The stored keys without a stored shorter prefix. */
  ghost function Tops<V>(keys: map<Bits, V>): map<Bits, V> {
    map x | x in keys && IsTop(keys, x) :: keys[x]
  }

  lemma TopsGet<V>(keys: map<Bits, V>, x: Bits)
    ensures Get(Tops(keys), x) == if IsTop(keys, x) then Get(keys, x) else None
  {
  }

  lemma TopBehind<V(!new)>(keys: map<Bits, V>, zero: map<Bits, V>, one: map<Bits, V>, x: Bits)
    requires Joined(keys, None, zero, one) && x != []
    ensures IsTop(keys, x) <==> IsTop(Pick(x[0], zero, one), x[1..])
  {
    forall n | 0 <= n < |x|
      ensures x[..n] in keys <==> n > 0 && x[1..][..n - 1] in Pick(x[0], zero, one)
    {
      JoinedAt(keys, None, zero, one, x[..n]);
      if n > 0 {
        assert x[..n][0] == x[0] && x[..n][1..] == x[1..][..n - 1];
      }
    }
    hide Joined;
    if IsTop(keys, x) {
      forall m | 0 <= m < |x[1..]|
        ensures x[1..][..m] !in Pick(x[0], zero, one)
      {
        assert x[..m + 1] !in keys;
      }
    }
  }

  lemma TopsJoined<V(!new)>(keys: map<Bits, V>, own: Option<V>, zero: map<Bits, V>, one: map<Bits, V>)
    requires Joined(keys, own, zero, one)
    ensures own.Some? ==> Tops(keys) == OwnMap(own)
    ensures own.None? ==> Joined(Tops(keys), None, Tops(zero), Tops(one))
  {
    JoinedAt(keys, own, zero, one, []);
    if own.Some? {
      forall x | x in keys && IsTop(keys, x)
        ensures x == []
      {
        assert x[..0] == [];
      }
    } else {
      hide Joined;
      forall x: Bits
        ensures Get(Tops(keys), x) == if x == [] then None else Get(Pick(x[0], Tops(zero), Tops(one)), x[1..])
      {
        hide Tops, IsTop, Get;
        JoinedAt(keys, own, zero, one, x);
        TopsGet(keys, x);
        if x != [] {
          TopBehind(keys, zero, one, x);
          TopsGet(Pick(x[0], zero, one), x[1..]);
        }
      }
      JoinedIs(Tops(keys), None, Tops(zero), Tops(one));
    }
  }

  lemma JoinedIs<V(!new)>(keys: map<Bits, V>, own: Option<V>, zero: map<Bits, V>, one: map<Bits, V>)
    requires forall x: Bits :: Get(keys, x) == if x == [] then own else Get(Pick(x[0], zero, one), x[1..])
    ensures Joined(keys, own, zero, one)
  {
  }

  /** `get_all_top` from a node on. */
  method AllTop<V(!new)>(n: Node<V>, key: array<bool>, depth: nat) returns (out: seq<Entry<V>>)
    requires n.Valid() && depth <= key.Length && Zeros(key[..], depth) && Room(n.keys, depth, key.Length)
    modifies key
    ensures key[..] == old(key[..]) && Lists(out, key.Length, key[..depth], Tops(n.keys))
    decreases n.repr, 1
  {
    hide Lists, Joined, Room, Tops;
    TopsJoined(n.keys, n.value, KeysOf(n.zero), KeysOf(n.one));
    if n.value.Some? {
      out := Own(n, key, depth);
      return;
    }
    var out0 := TopBelow(n, false, key, depth);
    var out1 := TopBelow(n, true, key, depth);
    out := out0 + out1;
    ListsNone<V>(key.Length, key[..depth]);
    ListsJoin([], out0, out1, key.Length, key[..depth], None, Tops(KeysOf(n.zero)), Tops(KeysOf(n.one)), Tops(n.keys));
    assert [] + out0 + out1 == out;
  }

  method TopBelow<V(!new)>(n: Node<V>, bit: bool, key: array<bool>, depth: nat) returns (out: seq<Entry<V>>)
    requires n.Valid() && depth <= key.Length && Zeros(key[..], depth) && Room(n.keys, depth, key.Length)
    modifies key
    ensures key[..] == old(key[..]) && Lists(out, key.Length, key[..depth] + [bit], Tops(KeysOf(n.Kid(bit))))
    decreases n.repr, 0
  {
    hide Lists, Joined, Room;
    var kid := n.Kid(bit);
    if kid == null {
      assert Tops(KeysOf(kid)) == map[];
      ListsNone<V>(key.Length, key[..depth] + [bit]);
      return [];
    }
    hide Tops;
    KidRoom(n, bit, depth, key.Length);
    ghost var was := key[..];
    key[depth] := bit;
    assert key[..depth + 1] == was[..depth] + [bit];
    out := AllTop(kid, key, depth + 1);
    key[depth] := false;
    assert key[..] == was;
  }

  // ----- the trie ---------------------------------------------------------------------------

  class Trie<V(!new)> {
    const width: nat
    var root: Node?<V>
    /** What was inserted and not removed since. */
    ghost var keys: map<Bits, V>

    ghost predicate Valid()
      reads this, root, if root == null then {} else root.repr
    {
      && keys == KeysOf(root) && Room(keys, 0, width)
      && (root != null ==> root.Valid())
    }

    constructor (width: nat)
      ensures Valid() && keys == map[] && this.width == width && root == null
    {
      this.width := width;
      root, keys := null, map[];
    }

    method Insert(key: Bits, v: V)
      requires Valid() && |key| <= width
      modifies this`root, this`keys, if root == null then {} else root.repr
      ensures Valid() && keys == old(keys)[key := v]
      ensures root != null && fresh(root.repr - if old(root) == null then {} else old(root.repr))
    {
      hide Joined;
      if root == null {
        root := new Node();
      }
      root.Insert(key, v);
      keys := keys[key := v];
    }

    method Remove(key: Bits)
      requires Valid()
      modifies this`keys, if root == null then {} else root.repr
      ensures Valid() && keys == old(keys) - {key} && root == old(root)
    {
      hide Joined;
      if root == null {
        assert keys - {key} == keys;
      } else {
        root.Remove(key);
      }
      keys := keys - {key};
    }

    method Clear()
      requires Valid()
      modifies this
      ensures Valid() && keys == map[]
    {
      root, keys := null, map[];
    }

    method Find(key: Bits) returns (r: Option<V>)
      requires Valid()
      ensures r == Get(keys, key)
    {
      if root == null {
        return None;
      }
      r := root.Find(key);
    }

    /** The longest stored prefix of the key, with its length. */
    method Lookup(key: Bits) returns (r: Option<(V, nat)>)
      requires Valid()
      ensures r.None? ==> forall m | 0 <= m <= |key| :: key[..m] !in keys
      ensures r.Some? ==> r.value.1 <= |key| && key[..r.value.1] in keys && keys[key[..r.value.1]] == r.value.0
      ensures r.Some? ==> forall m | r.value.1 < m <= |key| :: key[..m] !in keys
    {
      hide Joined;
      LongestIs(keys, key, |key|);
      if root == null {
        return None;
      }
      r := root.Lookup(key, 0, None);
    }

    /** The prefix of n bits of the address, and the stored prefixes below it. */
    method LookupDeep(a: Bits, n: nat) returns (out: seq<Entry<V>>)
      requires Valid() && |a| == width && n <= width && Zeros(a, n)
      ensures DeepReport(out, a, n, Best(keys, a[..n], None), [], Under(keys, a[..n]))
    {
      hide Joined, Lists, Under, Best;
      if root == null {
        UnderNone<V>(a[..n]);
        ListsNone<V>(width, []);
        return [];
      }
      var key := new bool[width](i requires 0 <= i < |a| => a[i]);
      assert key[..] == a;
      out := Deep(root, key, n, 0, None);
    }

    /** The stored prefixes without a stored shorter one. */
    method GetAllTop() returns (out: seq<Entry<V>>)
      requires Valid()
      ensures Lists(out, width, [], Tops(keys))
    {
      hide Joined, Lists;
      if root == null {
        assert Tops(keys) == map[];
        ListsNone<V>(width, []);
        return [];
      }
      hide Tops;
      var key := new bool[width](_ => false);
      out := AllTop(root, key, 0);
    }
  }
}
