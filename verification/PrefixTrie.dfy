/** The binary trie of prefixes (`btree`): a map from bit strings to values. */
module PrefixTrie {
  import opened Base

  type Bits = seq<bool>

  function Get<V>(m: map<Bits, V>, k: Bits): Option<V> {
    if k in m then Some(m[k]) else None
  }

  function Pick<T>(bit: bool, zero: T, one: T): T {
    if bit then one else zero
  }

  /** The map of a node: its own value, and the maps of its children behind their bits. */
  ghost predicate Joined<V(!new)>(keys: map<Bits, V>, own: Option<V>, zero: map<Bits, V>, one: map<Bits, V>) {
    forall k: Bits :: Get(keys, k) == if k == [] then own else Get(Pick(k[0], zero, one), k[1..])
  }

  lemma JoinedAt<V(!new)>(keys: map<Bits, V>, own: Option<V>, zero: map<Bits, V>, one: map<Bits, V>, k: Bits)
    requires Joined(keys, own, zero, one)
    ensures Get(keys, k) == if k == [] then own else Get(Pick(k[0], zero, one), k[1..])
  {
  }

  /** The maps differ at one key. */
  ghost predicate Changed<V(!new)>(m: map<Bits, V>, m': map<Bits, V>, k: Bits, v: Option<V>) {
    forall x: Bits :: Get(m', x) == if x == k then v else Get(m, x)
  }

  lemma PutChanges<V(!new)>(m: map<Bits, V>, k: Bits, v: V)
    ensures Changed(m, m[k := v], k, Some(v))
  {
  }

  lemma LessChanges<V(!new)>(m: map<Bits, V>, k: Bits)
    ensures Changed(m, m - {k}, k, None)
  {
  }

  lemma OwnChanged<V(!new)>(keys: map<Bits, V>, keys': map<Bits, V>, own: Option<V>, zero: map<Bits, V>,
                            one: map<Bits, V>, v: Option<V>)
    requires Joined(keys, own, zero, one) && Changed(keys, keys', [], v)
    ensures Joined(keys', v, zero, one)
  {
    hide Get;
  }

  lemma SameTail(x: Bits, k: Bits)
    requires x != [] && k != [] && x[0] == k[0]
    ensures x[1..] == k[1..] <==> x == k
  {
    assert x == [x[0]] + x[1..] && k == [k[0]] + k[1..];
  }

  lemma ChildChanged<V(!new)>(keys: map<Bits, V>, keys': map<Bits, V>, own: Option<V>, zero: map<Bits, V>,
                              one: map<Bits, V>,
                              zero': map<Bits, V>, one': map<Bits, V>, k: Bits, v: Option<V>)
    requires Joined(keys, own, zero, one) && k != [] && Changed(keys, keys', k, v)
    requires Pick(!k[0], zero', one') == Pick(!k[0], zero, one)
             && Changed(Pick(k[0], zero, one), Pick(k[0], zero', one'), k[1..], v)
    ensures Joined(keys', own, zero', one')
  {
    hide Get;
    forall x: Bits
      ensures Get(keys', x) == if x == [] then own else Get(Pick(x[0], zero', one'), x[1..])
    {
      JoinedAt(keys, own, zero, one, x);
      if x != [] && x[0] == k[0] {
        SameTail(x, k);
      }
    }
  }

  ghost function KeysOf<V(!new)>(n: Node?<V>): map<Bits, V>
    reads n
  {
    if n == null then map[] else n.keys
  }

  class Node<V(!new)> {
    var value: Option<V>
    var zero: Node?<V>
    var one: Node?<V>
    ghost var repr: set<Node<V>>
    ghost var keys: map<Bits, V>

    ghost predicate Child(c: Node?<V>)
      reads this, repr
      decreases repr, 0
    {
      c != null ==> c in repr && c in c.repr && c.repr < repr && this !in c.repr && c.Valid() && c.Used()
    }

    /** Nodes are not shared, every child has a value or a child, and `keys` is the map of the node. */
    ghost predicate Valid()
      reads this, repr
      decreases repr, 1
    {
      && this in repr && Child(zero) && Child(one)
      && (zero != null && one != null ==> zero.repr !! one.repr)
      && Joined(keys, value, KeysOf(zero), KeysOf(one))
    }

    predicate Used()
      reads this
    {
      value.Some? || zero != null || one != null
    }

    constructor ()
      ensures Valid() && keys == map[] && fresh(repr) && !Used() && repr == {this}
    {
      value, zero, one := None, null, null;
      repr, keys := {this}, map[];
    }

    function Kid(bit: bool): Node?<V>
      reads this
    {
      if bit then one else zero
    }

    /** The node `next` can be the child at the bit. */
    ghost predicate Fits(bit: bool, next: Node?<V>)
      reads this, repr, next, if next == null then {} else next.repr
    {
      && this in repr && Child(Kid(!bit))
      && (next != null ==> next in next.repr && this !in next.repr && next.Valid() && next.Used())
      && (next != null && Kid(!bit) != null ==> Kid(!bit).repr !! next.repr)
    }

    method Attach(bit: bool, next: Node?<V>, ghost keys': map<Bits, V>)
      requires Fits(bit, next)
      requires Joined(keys', value, if bit then KeysOf(zero)
                                    else KeysOf(next), if bit then KeysOf(next) else KeysOf(one))
      modifies this
      ensures Valid() && keys == keys' && repr == (if next == null then old(repr) else old(repr) + next.repr)
      ensures next != null ==> Used()
    {
      hide Joined;
      if bit {
        one := next;
      } else {
        zero := next;
      }
      keys := keys';
      if next != null {
        repr := repr + next.repr;
      }
    }

    /** `insert` */
    method Insert(key: Bits, v: V)
      requires Valid()
      modifies repr
      ensures Valid() && fresh(repr - old(repr)) && keys == old(keys)[key := v] && Used()
      decreases |key|
    {
      hide Joined, Get, Changed;
      PutChanges(keys, key, v);
      if key == [] {
        OwnChanged(keys, keys[key := v], value, KeysOf(zero), KeysOf(one), Some(v));
        value := Some(v);
        keys := keys[key := v];
      } else {
        ghost var z, o := KeysOf(zero), KeysOf(one);
        PutChanges(Pick(key[0], z, o), key[1..], v);
        var next := Kid(key[0]);
        if next == null {
          next := new Node();
        }
        next.Insert(key[1..], v);
        assert Fits(key[0], next);
        assert KeysOf(Kid(!key[0])) == Pick(!key[0], z, o);
        ChildChanged(keys, keys[key := v], value, z, o, if key[0] then z
                                                        else next.keys, if key[0] then next.keys else o, key, Some(v));
        Attach(key[0], next, keys[key := v]);
      }
    }

    /** `remove`: a child that is left without value and children is deleted. */
    method Remove(key: Bits)
      requires Valid()
      modifies repr
      ensures Valid() && repr == old(repr) && keys == old(keys) - {key}
      decreases |key|
    {
      hide Joined, Get, Changed;
      LessChanges(keys, key);
      if key == [] {
        OwnChanged(keys, keys - {key}, value, KeysOf(zero), KeysOf(one), None);
        value := None;
        keys := keys - {key};
      } else {
        ghost var z, o := KeysOf(zero), KeysOf(one);
        var next := Kid(key[0]);
        LessChanges(KeysOf(next), key[1..]);
        NothingLess(KeysOf(next), key[1..]);
        if next != null {
          next.Remove(key[1..]);
          if !next.Used() {
            NotUsed(next);
            next := null;
          }
        }
        assert Fits(key[0], next);
        assert KeysOf(Kid(!key[0])) == Pick(!key[0], z, o);
        ChildChanged(keys, keys - {key}, value, z, o, if key[0] then z
                                                      else KeysOf(next), if key[0] then KeysOf(next) else o, key, None);
        Attach(key[0], next, keys - {key});
      }
    }

    /** `get` */
    method Find(key: Bits) returns (r: Option<V>)
      requires Valid()
      ensures r == Get(keys, key)
      decreases |key|
    {
      JoinedAt(keys, value, KeysOf(zero), KeysOf(one), key);
      if key == [] {
        return value;
      }
      var next := Kid(key[0]);
      if next == null {
        return None;
      }
      r := next.Find(key[1..]);
    }

    /** `lookup`: the longest stored prefix of the key below this node, else what was found above. */
    method Lookup(key: Bits, depth: nat, found: Option<(V, nat)>) returns (r: Option<(V, nat)>)
      requires Valid()
      ensures r == Deeper(Longest(keys, key, |key|), depth, found)
      decreases |key|
    {
      hide Joined, Longest;
      LongestJoined(keys, value, KeysOf(zero), KeysOf(one), key);
      r := if value.Some? then Some((value.value, depth)) else found;
      if key == [] {
        return;
      }
      var next := Kid(key[0]);
      if next == null {
        LongestNone<V>(key[1..], |key| - 1);
        return;
      }
      r := next.Lookup(key[1..], depth + 1, r);
    }

    /** `lookup_all`: all stored prefixes of the key, the shortest first. */
    method LookupAll(key: Bits, depth: nat) returns (out: seq<(V, nat)>)
      requires Valid()
      ensures out == PrefixesOf(keys, key, depth)
      decreases |key|
    {
      hide Joined;
      PrefixesJoined(keys, value, KeysOf(zero), KeysOf(one), key, depth);
      out := if value.Some? then [(value.value, depth)] else [];
      if key == [] {
        return;
      }
      var next := Kid(key[0]);
      if next == null {
        PrefixesNone<V>(key[1..], depth + 1);
        return;
      }
      var rest := next.LookupAll(key[1..], depth + 1);
      out := out + rest;
    }
  }

  lemma NothingLess<V>(m: map<Bits, V>, k: Bits)
    ensures m == map[] ==> m - {k} == m
  {
  }

  /** A node without value and children has the empty map. */
  lemma NotUsed<V(!new)>(n: Node<V>)
    requires n.Valid() && !n.Used()
    ensures n.keys == map[]
  {
    assert forall k: Bits | k in n.keys :: Get(n.keys, k).Some?;
  }

  // ----- the longest prefix -----------------------------------------------------------------

  /** The longest stored prefix of the key with at most n bits. */
  ghost function Longest<V>(keys: map<Bits, V>, key: Bits, n: nat): Option<(V, nat)>
    requires n <= |key|
  {
    if key[..n] in keys then Some((keys[key[..n]], n)) else if n == 0 then None else Longest(keys, key, n - 1)
  }

  /** It is stored, and no longer prefix of the key is. */
  lemma {:induction false} LongestIs<V>(keys: map<Bits, V>, key: Bits, n: nat)
    requires n <= |key|
    ensures var r := Longest(keys, key, n);
            && (r.None? ==> forall m | 0 <= m <= n :: key[..m] !in keys)
            && (r.Some? ==> r.value.1 <= n && key[..r.value.1] in keys && keys[key[..r.value.1]] == r.value.0
                            && forall m | r.value.1 < m <= n :: key[..m] !in keys)
  {
    if key[..n] !in keys && n > 0 {
      LongestIs(keys, key, n - 1);
    }
  }

  ghost function Deeper<V>(r: Option<(V, nat)>, depth: nat, found: Option<(V, nat)>): Option<(V, nat)> {
    if r.Some? then Some((r.value.0, depth + r.value.1)) else found
  }

  lemma {:induction false} LongestNone<V>(key: Bits, n: nat)
    requires n <= |key|
    ensures Longest<V>(map[], key, n).None?
  {
    if n > 0 {
      LongestNone<V>(key, n - 1);
    }
  }

  /** The longest prefix of a node is that of the child, or the node itself. */
  lemma LongestJoined<V(!new)>(keys: map<Bits, V>, own: Option<V>, zero: map<Bits, V>, one: map<Bits, V>, key: Bits)
    requires Joined(keys, own, zero, one)
    ensures Longest(keys, key, |key|)
         == if key == [] then (if own.Some? then Some((own.value, 0)) else None)
            else Deeper(Longest(Pick(key[0], zero, one), key[1..], |key| - 1), 1, if own.Some? then Some((own.value, 0))
                                                                                  else None)
  {
    if key == [] {
      JoinedAt(keys, own, zero, one, []);
      assert key[..0] == [];
    } else {
      LongestStep(keys, own, zero, one, key, |key|);
    }
  }

  lemma {:induction false} LongestStep<V(!new)>(keys: map<Bits, V>, own: Option<V>, zero: map<Bits, V>,
                                                one: map<Bits, V>, key: Bits, n: nat)
    requires Joined(keys, own, zero, one) && 1 <= n <= |key|
    ensures Longest(keys, key, n)
         == Deeper(Longest(Pick(key[0], zero, one), key[1..], n - 1), 1, if own.Some? then Some((own.value, 0))
                                                                         else None)
    decreases n
  {
    hide Joined;
    JoinedAt(keys, own, zero, one, key[..n]);
    assert key[..n][0] == key[0] && key[..n][1..] == key[1..][..n - 1];
    if key[..n] !in keys {
      if n == 1 {
        JoinedAt(keys, own, zero, one, []);
        assert key[..0] == [];
      } else {
        LongestStep(keys, own, zero, one, key, n - 1);
      }
    }
  }

  // ----- all prefixes -----------------------------------------------------------------------

  /** The stored prefixes of the key, the shortest first, with their lengths from `depth` on. */
  ghost function PrefixesOf<V>(keys: map<Bits, V>, key: Bits, depth: nat): seq<(V, nat)> {
    PrefixesFrom(keys, key, 0, depth)
  }

  ghost function PrefixesFrom<V>(keys: map<Bits, V>, key: Bits, n: nat, depth: nat): seq<(V, nat)>
    requires n <= |key|
    decreases |key| - n
  {
    (if key[..n] in keys then [(keys[key[..n]], depth + n)] else []) + if n == |key| then []
     else PrefixesFrom(keys, key, n + 1, depth)
  }

  lemma {:induction false} PrefixesNoneFrom<V>(key: Bits, n: nat, depth: nat)
    requires n <= |key|
    ensures PrefixesFrom<V>(map[], key, n, depth) == []
    decreases |key| - n
  {
    if n < |key| {
      PrefixesNoneFrom<V>(key, n + 1, depth);
    }
  }

  lemma PrefixesNone<V>(key: Bits, depth: nat)
    ensures PrefixesOf<V>(map[], key, depth) == []
  {
    PrefixesNoneFrom<V>(key, 0, depth);
  }

  lemma PrefixesJoined<V(!new)>(keys: map<Bits, V>, own: Option<V>, zero: map<Bits, V>, one: map<Bits, V>, key: Bits,
                                depth: nat)
    requires Joined(keys, own, zero, one)
    ensures PrefixesOf(keys, key, depth)
         == (if own.Some? then [(own.value, depth)] else [])
            + if key == [] then [] else PrefixesOf(Pick(key[0], zero, one), key[1..], depth + 1)
  {
    JoinedAt(keys, own, zero, one, []);
    assert key[..0] == [];
    if key != [] {
      PrefixesStep(keys, own, zero, one, key, 1, depth);
    }
  }

  lemma {:induction false} PrefixesStep<V(!new)>(keys: map<Bits, V>, own: Option<V>, zero: map<Bits, V>,
                                                 one: map<Bits, V>, key: Bits, n: nat,
                                                 depth: nat)
    requires Joined(keys, own, zero, one) && 1 <= n <= |key|
    ensures PrefixesFrom(keys, key, n, depth) == PrefixesFrom(Pick(key[0], zero, one), key[1..], n - 1, depth + 1)
    decreases |key| - n
  {
    hide Joined;
    JoinedAt(keys, own, zero, one, key[..n]);
    assert key[..n][0] == key[0] && key[..n][1..] == key[1..][..n - 1];
    if n < |key| {
      PrefixesStep(keys, own, zero, one, key, n + 1, depth);
    }
  }
}
