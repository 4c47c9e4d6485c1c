/**
  The serializer (`stream_out_t`, `stream_in_t`): values of a type are written as bytes that need no
  delimiter.  Reading takes a variable that already holds a value, and parts of it may stay.
*/
module Stream {
  import opened Base

  type Byte = x: nat | x < 256 witness 0

  datatype Kind = Vector | Set | Map

  /** Types that can be serialized; pairs, arrays and classes are tuples, strings are texts. */
  datatype Type =
    | Scalar(size: nat)
    | Text
    | Many(kind: Kind, elem: Type)
    | Tuple(parts: Types)
    | Variant(options: Types)
    | Optional(elem: Type)

  datatype Types = Nil | Cons(head: Type, tail: Types)

  /** Sets and maps are the lists of their elements and entries in the order of iteration. */
  datatype Value =
    | Raw(bytes: seq<Byte>)
    | List(items: seq<Value>)
    | Chosen(index: nat, value: Value)
    | Absent
    | Present(value: Value)

  // ----- integers ---------------------------------------------------------------------------

  const INT_SIZE: nat := 8

  function Pow256(k: nat): (p: nat)
    ensures p > 0
  {
    if k == 0 then 1 else 256 * Pow256(k - 1)
  }

  /** k bytes, the lowest first. */
  function Digits(n: nat, k: nat): (b: seq<Byte>)
    ensures |b| == k
  {
    if k == 0 then [] else [n % 256] + Digits(n / 256, k - 1)
  }

  function Number(b: seq<Byte>): nat {
    if b == [] then 0 else b[0] + 256 * Number(b[1..])
  }

  lemma {:induction false} NumberDigits(n: nat, k: nat)
    requires n < Pow256(k)
    ensures Number(Digits(n, k)) == n
  {
    if k > 0 {
      NumberDigits(n / 256, k - 1);
      assert Digits(n, k)[1..] == Digits(n / 256, k - 1);
    }
  }

  // ----- values of a type -------------------------------------------------------------------

  /** Keys of map entries; set elements are their own keys. */
  function KeyOf(kind: Kind, v: Value): Value {
    if kind.Map? && v.List? && v.items != [] then v.items[0] else v
  }

  ghost predicate Distinct(kind: Kind, items: seq<Value>) {
    kind.Vector? || forall i, j | 0 <= i < j < |items| :: KeyOf(kind, items[i]) != KeyOf(kind, items[j])
  }

  ghost predicate Fits(v: Value, t: Type)
    decreases t
  {
    match t
    case Scalar(n) => v.Raw? && |v.bytes| == n
    case Text => v.Raw? && |v.bytes| < Pow256(INT_SIZE)
    case Many(kind, elem) =>
      v.List? && |v.items| < Pow256(INT_SIZE) && Distinct(kind, v.items)
      && forall i | 0 <= i < |v.items| :: Fits(v.items[i], elem)
    case Tuple(parts) => v.List? && FitsAll(v.items, parts)
    case Variant(options) => v.Chosen? && v.index < Pow256(4) && FitsOne(v.value, options, v.index)
    case Optional(elem) => v.Absent? || (v.Present? && Fits(v.value, elem))
  }

  ghost predicate FitsAll(items: seq<Value>, ts: Types)
    decreases ts
  {
    match ts
    case Nil => items == []
    case Cons(head, tail) => items != [] && Fits(items[0], head) && FitsAll(items[1..], tail)
  }

  ghost predicate FitsOne(v: Value, ts: Types, index: nat)
    decreases ts
  {
    match ts
    case Nil => false
    case Cons(head, tail) => if index == 0 then Fits(v, head) else FitsOne(v, tail, index - 1)
  }

  // ----- writing ----------------------------------------------------------------------------

  function Encode(v: Value, t: Type): seq<Byte>
    requires Fits(v, t)
    decreases t, 0
  {
    match t
    case Scalar(_) => v.bytes
    case Text => Digits(|v.bytes|, INT_SIZE) + v.bytes
    case Many(_, elem) => Digits(|v.items|, INT_SIZE) + EncodeMany(v.items, elem)
    case Tuple(parts) => EncodeAll(v.items, parts)
    case Variant(options) => Digits(v.index, INT_SIZE) + EncodeOne(v.value, options, v.index)
    case Optional(elem) => if v.Absent? then [0] else [1] + Encode(v.value, elem)
  }

  function EncodeMany(items: seq<Value>, elem: Type): seq<Byte>
    requires forall i | 0 <= i < |items| :: Fits(items[i], elem)
    decreases elem, |items|
  {
    if items == [] then [] else Encode(items[0], elem) + EncodeMany(items[1..], elem)
  }

  function EncodeAll(items: seq<Value>, ts: Types): seq<Byte>
    requires FitsAll(items, ts)
    decreases ts, 0
  {
    match ts
    case Nil => []
    case Cons(head, tail) => Encode(items[0], head) + EncodeAll(items[1..], tail)
  }

  function EncodeOne(v: Value, ts: Types, index: nat): seq<Byte>
    requires FitsOne(v, ts, index)
    decreases ts, 0
  {
    match ts
    case Cons(head, tail) => if index == 0 then Encode(v, head) else EncodeOne(v, tail, index - 1)
  }

  // ----- the bytes --------------------------------------------------------------------------

  /** Byte i is digit i of the number to the base 256. */
  lemma {:induction false} DigitsAt(n: nat, k: nat, i: nat)
    requires i < k
    ensures Digits(n, k)[i] == n / Pow256(i) % 256
  {
    if i > 0 {
      DigitsAt(n / 256, k - 1, i - 1);
      DivTwice(n, 256, Pow256(i - 1));
    }
  }

  lemma DivTwice(n: nat, a: nat, b: nat)
    requires a > 0 && b > 0
    ensures a * b > 0 && n / a / b == n / (a * b)
  {
    var q, r := n / a, n % a;
    var q', r' := q / b, q % b;
    assert n == a * q + r && q == b * q' + r';
    Nested(a, b, q', r', r);
    Quotient(n, a * b, q', a * r' + r);
  }

  lemma Nested(a: nat, b: nat, q: nat, r': nat, r: nat)
    requires a > 0 && r < a && r' < b
    ensures a * (b * q + r') + r == (a * b) * q + (a * r' + r) && 0 <= a * r' + r < a * b && a * b > 0
  {
    assert a * r' + a <= a * b by { Times(a, r' + 1, b); }
  }

  lemma Times(a: nat, x: nat, y: nat)
    requires x <= y
    ensures a * x <= a * y
  {
  }

  lemma Quotient(n: nat, d: nat, q: nat, r: nat)
    requires d > 0 && n == d * q + r && r < d
    ensures n / d == q
  {
    var p := n / d;
    assert d * (p - q) == r - n % d;
    if p > q {
      Times(d, 1, p - q);
    } else if p < q {
      Times(d, 1, q - p);
    }
  }

  /** The first 8 bytes are the number, its lowest byte first. */
  ghost predicate BeginsWith(b: seq<Byte>, n: nat) {
    |b| >= 8 && forall i | 0 <= i < 8 :: b[i] == n / Pow256(i) % 256
  }

  /** From the start on, the parts follow one another up to the end. */
  ghost predicate InParts(b: seq<Byte>, start: nat, parts: seq<seq<Byte>>)
    decreases |parts|
  {
    if parts == [] then start == |b|
    else
      var next := start + |parts[0]|;
      next <= |b| && b[start..next] == parts[0] && InParts(b, next, parts[1..])
  }

  lemma {:induction false} PartsMoved(head: seq<Byte>, b: seq<Byte>, start: nat, parts: seq<seq<Byte>>)
    requires InParts(b, start, parts)
    ensures InParts(head + b, |head| + start, parts)
    decreases |parts|
  {
    if parts != [] {
      var next := start + |parts[0]|;
      PartsMoved(head, b, next, parts[1..]);
      assert (head + b)[|head| + start..|head| + next] == b[start..next];
    }
  }

  lemma PartsMore(first: seq<Byte>, rest: seq<Byte>, parts: seq<seq<Byte>>)
    requires parts != [] && first == parts[0] && InParts(rest, 0, parts[1..])
    ensures InParts(first + rest, 0, parts)
  {
    PartsMoved(first, rest, 0, parts[1..]);
    assert (first + rest)[0..|first|] == first;
  }

  /** The parts determine the bytes. */
  lemma {:induction false} PartsOnce(b: seq<Byte>, b': seq<Byte>, start: nat, parts: seq<seq<Byte>>)
    requires InParts(b, start, parts) && InParts(b', start, parts)
    ensures |b| == |b'| && start <= |b| && b[start..] == b'[start..]
    decreases |parts|
  {
    if parts != [] {
      var next := start + |parts[0]|;
      PartsOnce(b, b', next, parts[1..]);
      assert b[start..] == b[start..next] + b[next..] && b'[start..] == b'[start..next] + b'[next..];
    } else {
      assert b[start..] == [] && b'[start..] == [];
    }
  }

  lemma NumberFirst(n: nat, rest: seq<Byte>)
    ensures BeginsWith(Digits(n, 8) + rest, n) && (Digits(n, 8) + rest)[8..] == rest
  {
    hide Digits, Pow256;
    forall i | 0 <= i < 8
      ensures Digits(n, 8)[i] == n / Pow256(i) % 256
    {
      DigitsAt(n, 8, i);
    }
  }

  lemma NumberOnce(b: seq<Byte>, b': seq<Byte>, n: nat)
    requires BeginsWith(b, n) && BeginsWith(b', n) && b[8..] == b'[8..]
    ensures b == b'
  {
    hide Pow256;
    assert b == b[..8] + b[8..] && b' == b'[..8] + b'[8..];
    assert b[..8] == b'[..8];
  }

  /**
    What the bytes of a value are, by the form of its type: texts and collections follow their length in 8 bytes,
    variants follow their index in 8 bytes, options follow a byte 0 or 1, tuples and scalars are as they are.
  */
  ghost predicate Written(v: Value, t: Type, b: seq<Byte>)
    decreases t, 0
  {
    match t
    case Scalar(_) => v.Raw? && b == v.bytes
    case Text => v.Raw? && BeginsWith(b, |v.bytes|) && b[8..] == v.bytes
    case Many(_, elem) =>
      v.List? && BeginsWith(b, |v.items|) && HasEach(v.items, elem, b[8..])
    case Tuple(ts) => v.List? && HasAll(v.items, ts, b)
    case Variant(options) => v.Chosen? && BeginsWith(b, v.index) && WrittenOne(v.value, options, v.index, b[8..])
    case Optional(elem) =>
      (v.Absent? && b == [0]) || (v.Present? && b != [] && b[0] == 1 && Written(v.value, elem, b[1..]))
  }

  ghost predicate WrittenEach(items: seq<Value>, elem: Type, parts: seq<seq<Byte>>)
    decreases elem, 1
  {
    |parts| == |items| && forall i | 0 <= i < |parts| :: Written(items[i], elem, parts[i])
  }

  /** The bytes are those of the elements, one after the other. */
  ghost predicate HasEach(items: seq<Value>, elem: Type, b: seq<Byte>)
    decreases elem, 2
  {
    exists parts :: InParts(b, 0, parts) && WrittenEach(items, elem, parts)
  }

  ghost predicate HasAll(items: seq<Value>, ts: Types, b: seq<Byte>)
    decreases ts, 1
  {
    exists parts :: InParts(b, 0, parts) && WrittenAll(items, ts, parts)
  }

  ghost predicate WrittenAll(items: seq<Value>, ts: Types, parts: seq<seq<Byte>>)
    decreases ts, 0
  {
    match ts
    case Nil => items == [] && parts == []
    case Cons(head, tail) =>
      && items != [] && parts != [] && Written(items[0], head, parts[0])
      && WrittenAll(items[1..], tail, parts[1..])
  }

  ghost predicate WrittenOne(v: Value, ts: Types, index: nat, b: seq<Byte>)
    decreases ts, 0
  {
    match ts
    case Nil => false
    case Cons(head, tail) => if index == 0 then Written(v, head, b) else WrittenOne(v, tail, index - 1, b)
  }

  /** The written bytes of a value are exactly these. */
  lemma {:induction false} WrittenExact(v: Value, t: Type, b: seq<Byte>)
    requires Fits(v, t)
    ensures Written(v, t, b) <==> b == Encode(v, t)
    decreases t, 0
  {
    match t {
      case Scalar(_) =>
      case Text =>
        NumberThen(b, |v.bytes|, v.bytes);
        hide Digits, BeginsWith;
      case Many(_, elem) =>
        NumberThen(b, |v.items|, EncodeMany(v.items, elem));
        if |b| >= 8 {
          EachWritten(v.items, elem, b[8..]);
        }
        hide Digits, BeginsWith, HasEach, EncodeMany, Distinct;
      case Tuple(ts) =>
        AllWritten(v.items, ts, b);
        hide HasAll, FitsAll, EncodeAll;
      case Variant(options) =>
        NumberThen(b, v.index, EncodeOne(v.value, options, v.index));
        if |b| >= 8 {
          OneWritten(v.value, options, v.index, b[8..]);
        }
        hide Digits, FitsOne, EncodeOne, WrittenOne, BeginsWith;
      case Optional(elem) =>
        if v.Present? {
          var rest := Encode(v.value, elem);
          WrittenExact(v.value, elem, rest);
          assert ([1] + rest)[1..] == rest;
          if b != [] && b[0] == 1 {
            WrittenExact(v.value, elem, b[1..]);
            assert b == [1] + b[1..];
          }
        }
    }
  }

  lemma NumberThen(b: seq<Byte>, n: nat, rest: seq<Byte>)
    ensures BeginsWith(b, n) ==> |b| >= 8
    ensures BeginsWith(b, n) && b[8..] == rest <==> b == Digits(n, INT_SIZE) + rest
  {
    NumberFirst(n, rest);
    BeginsLong(b, n);
    hide BeginsWith, Digits;
    if BeginsWith(b, n) && b[8..] == rest {
      NumberOnce(b, Digits(n, 8) + rest, n);
    }
  }

  lemma BeginsLong(b: seq<Byte>, n: nat)
    ensures BeginsWith(b, n) ==> |b| >= 8
  {
    hide Pow256;
  }

  lemma {:induction false} EachWritten(items: seq<Value>, elem: Type, b: seq<Byte>)
    requires forall i | 0 <= i < |items| :: Fits(items[i], elem)
    ensures HasEach(items, elem, b) <==> b == EncodeMany(items, elem)
    decreases elem, 2
  {
    var list := EachPart(items, elem);
    hide InParts, EncodeMany, Fits, WrittenEach;
    if b == EncodeMany(items, elem) {
      assert InParts(b, 0, list) && WrittenEach(items, elem, list);
    }
    if HasEach(items, elem, b) {
      var parts :| InParts(b, 0, parts) && WrittenEach(items, elem, parts);
      EachOnce(items, elem, parts, list);
      PartsSame(b, EncodeMany(items, elem), list);
    }
  }

  lemma PartsSame(b: seq<Byte>, b': seq<Byte>, parts: seq<seq<Byte>>)
    requires InParts(b, 0, parts) && InParts(b', 0, parts)
    ensures b == b'
  {
    hide InParts;
    PartsOnce(b, b', 0, parts);
    assert b[0..] == b && b'[0..] == b';
  }

  lemma {:induction false} EachPart(items: seq<Value>, elem: Type) returns (parts: seq<seq<Byte>>)
    requires forall i | 0 <= i < |items| :: Fits(items[i], elem)
    ensures WrittenEach(items, elem, parts) && InParts(EncodeMany(items, elem), 0, parts)
    decreases elem, 1
  {
    parts := seq(|items|, i requires 0 <= i < |items| => Encode(items[i], elem));
    forall i | 0 <= i < |items|
      ensures Written(items[i], elem, parts[i])
    {
      WrittenExact(items[i], elem, parts[i]);
    }
    ManyParts(items, elem, parts);
  }

  lemma {:induction false} EachOnce(items: seq<Value>, elem: Type, parts: seq<seq<Byte>>, parts': seq<seq<Byte>>)
    requires forall i | 0 <= i < |items| :: Fits(items[i], elem)
    requires WrittenEach(items, elem, parts) && WrittenEach(items, elem, parts')
    ensures parts == parts'
    decreases elem, 1
  {
    forall i | 0 <= i < |items|
      ensures parts[i] == parts'[i]
    {
      WrittenExact(items[i], elem, parts[i]);
      WrittenExact(items[i], elem, parts'[i]);
    }
  }

  lemma {:induction false} ManyParts(items: seq<Value>, elem: Type, parts: seq<seq<Byte>>)
    requires forall i | 0 <= i < |items| :: Fits(items[i], elem)
    requires |parts| == |items| && forall i | 0 <= i < |items| :: parts[i] == Encode(items[i], elem)
    ensures InParts(EncodeMany(items, elem), 0, parts)
    decreases |items|
  {
    hide Fits, Encode;
    if items != [] {
      ManyParts(items[1..], elem, parts[1..]);
      PartsMore(parts[0], EncodeMany(items[1..], elem), parts);
    }
  }

  lemma {:induction false} AllWritten(items: seq<Value>, ts: Types, b: seq<Byte>)
    requires FitsAll(items, ts)
    ensures HasAll(items, ts, b) <==> b == EncodeAll(items, ts)
    decreases ts, 1
  {
    var list := AllParts(items, ts);
    hide InParts, EncodeAll, WrittenAll, FitsAll;
    if b == EncodeAll(items, ts) {
      assert InParts(b, 0, list) && WrittenAll(items, ts, list);
    }
    if HasAll(items, ts, b) {
      var parts :| InParts(b, 0, parts) && WrittenAll(items, ts, parts);
      AllOnce(items, ts, parts, list);
      PartsSame(b, EncodeAll(items, ts), list);
    }
  }

  lemma {:induction false} AllParts(items: seq<Value>, ts: Types) returns (parts: seq<seq<Byte>>)
    requires FitsAll(items, ts)
    ensures WrittenAll(items, ts, parts) && InParts(EncodeAll(items, ts), 0, parts)
    decreases ts, 0
  {
    match ts {
      case Nil =>
        parts := [];
      case Cons(head, tail) =>
        var first := Encode(items[0], head);
        WrittenExact(items[0], head, first);
        var rest := AllParts(items[1..], tail);
        parts := [first] + rest;
        assert parts[1..] == rest;
        PartsMore(first, EncodeAll(items[1..], tail), parts);
    }
  }

  lemma {:induction false} AllOnce(items: seq<Value>, ts: Types, parts: seq<seq<Byte>>, parts': seq<seq<Byte>>)
    requires FitsAll(items, ts) && WrittenAll(items, ts, parts) && WrittenAll(items, ts, parts')
    ensures parts == parts'
    decreases ts, 0
  {
    if ts.Cons? {
      WrittenExact(items[0], ts.head, parts[0]);
      WrittenExact(items[0], ts.head, parts'[0]);
      AllOnce(items[1..], ts.tail, parts[1..], parts'[1..]);
      assert parts == [parts[0]] + parts[1..] && parts' == [parts'[0]] + parts'[1..];
    }
  }

  lemma {:induction false} OneWritten(v: Value, ts: Types, index: nat, b: seq<Byte>)
    requires FitsOne(v, ts, index)
    ensures WrittenOne(v, ts, index, b) <==> b == EncodeOne(v, ts, index)
    decreases ts, 0
  {
    if ts.Cons? {
      if index == 0 {
        WrittenExact(v, ts.head, b);
      } else {
        OneWritten(v, ts.tail, index - 1, b);
      }
    }
  }

  // ----- variables --------------------------------------------------------------------------

  /** The type of map entries has a key and a value; a variant has an alternative. */
  ghost predicate WellTyped(t: Type)
    decreases t
  {
    match t
    case Scalar(_) => true
    case Text => true
    case Many(kind, elem) => WellTyped(elem) && (kind.Map? ==> IsPair(elem))
    case Tuple(parts) => AllTyped(parts)
    case Variant(options) => options.Cons? && AllTyped(options)
    case Optional(elem) => WellTyped(elem)
  }

  ghost predicate AllTyped(ts: Types)
    decreases ts
  {
    match ts
    case Nil => true
    case Cons(head, tail) => WellTyped(head) && AllTyped(tail)
  }

  predicate IsPair(t: Type) {
    t.Tuple? && t.parts.Cons? && t.parts.tail.Cons? && t.parts.tail.tail.Nil?
  }

  /** A variable that was just created. */
  function Default(t: Type): Value
    decreases t
  {
    match t
    case Scalar(n) => Raw(seq(n, _ => 0))
    case Text => Raw([])
    case Many(_, _) => List([])
    case Tuple(parts) => List(Defaults(parts))
    case Variant(options) => if options.Nil? then Absent else Chosen(0, Default(options.head))
    case Optional(_) => Absent
  }

  function Defaults(ts: Types): seq<Value>
    decreases ts
  {
    match ts
    case Nil => []
    case Cons(head, tail) => [Default(head)] + Defaults(tail)
  }

  function BytesOf(v: Value): seq<Byte> {
    if v.Raw? then v.bytes else []
  }

  function ItemsOf(v: Value): seq<Value> {
    if v.List? then v.items else []
  }

  /** The variable at position i, a new one behind the end. */
  function Slot(vars: seq<Value>, i: nat, t: Type): Value {
    if i < |vars| then vars[i] else Default(t)
  }

  /** The value of the entry with the key, if there is one. */
  function ValueAt(items: seq<Value>, key: Value): Option<Value> {
    if items == [] then None
    else if items[0].List? && |items[0].items| == 2 && items[0].items[0] == key then Some(items[0].items[1])
    else ValueAt(items[1..], key)
  }

  // ----- reading ----------------------------------------------------------------------------

  /** A value and the number of bytes read, or a failure. */
  datatype Got = Fail | Got(value: Value, size: nat)

  datatype GotMany = FailMany | GotMany(items: seq<Value>, size: nat)

  /** Elements enter a set or a map one by one; a later entry with a known key replaces the value. */
  function Enter(kind: Kind, items: seq<Value>, v: Value): seq<Value> {
    if kind.Vector? then items + [v] else EnterAt(kind, items, v, 0)
  }

  function EnterAt(kind: Kind, items: seq<Value>, v: Value, i: nat): seq<Value>
    requires i <= |items|
    decreases |items| - i
  {
    if i == |items| then items + [v]
    else if KeyOf(kind, items[i]) == KeyOf(kind, v) then (if kind.Set? then items else items[i := v])
    else EnterAt(kind, items, v, i + 1)
  }

  /**
    Reading into a variable that holds `was`: an empty text and an absent option leave it as it is, the
    elements of a vector are read into those that are there, sets and maps keep theirs.
  */
  function Decode(t: Type, was: Value, b: seq<Byte>): (r: Got)
    ensures r.Got? ==> r.size <= |b|
    decreases t, 0, 0
  {
    match t
    case Scalar(n) => if |b| < n then Fail else Got(Raw(b[..n]), n)
    case Text =>
      if |b| < INT_SIZE then Fail
      else
        var n := Number(b[..INT_SIZE]);
        if |b| - INT_SIZE < n then Fail
        else Got(Raw(if n == 0 then BytesOf(was) else b[INT_SIZE..INT_SIZE + n]), INT_SIZE + n)
    case Many(kind, elem) =>
      if |b| < INT_SIZE then Fail
      else
        var r := DecodeMany(kind, elem, Number(b[..INT_SIZE]), ItemsOf(was), Begin(kind, was), b[INT_SIZE..]);
        if r.FailMany? then Fail else Got(List(r.items), INT_SIZE + r.size)
    case Tuple(parts) =>
      var r := DecodeAll(parts, ItemsOf(was), b);
      if r.FailMany? then Fail else Got(List(r.items), r.size)
    case Variant(options) =>
      if |b| < INT_SIZE then Fail
      else
        var index := Number(b[..INT_SIZE]) % Pow256(4);
        var r := DecodeOne(options, index, b[INT_SIZE..]);
        if r.Fail? then Fail else Got(Chosen(index, r.value), INT_SIZE + r.size)
    case Optional(elem) =>
      if b == [] then Fail
      else if b[0] == 0 then Got(if was.Present? then was else Absent, 1)
      else
        var r := Decode(elem, Default(elem), b[1..]);
        if r.Fail? then Fail else Got(Present(r.value), 1 + r.size)
  }

  /** A vector is resized and then read over, sets and maps go on with what they hold. */
  function Begin(kind: Kind, was: Value): seq<Value> {
    if kind.Vector? then [] else ItemsOf(was)
  }

  /**
    One element: of a vector into the variable at its place, of a set into a new one, of a map into the value
    at its key.
  */
  function DecodeItem(kind: Kind, elem: Type, vars: seq<Value>, items: seq<Value>, b: seq<Byte>): (r: Got)
    ensures r.Got? ==> r.size <= |b|
    decreases elem, 0, 1
  {
    match kind
    case Vector => Decode(elem, Slot(vars, |items|, elem), b)
    case Set => Decode(elem, Default(elem), b)
    case Map =>
      if !IsPair(elem) then Fail
      else
        var key := Decode(elem.parts.head, Default(elem.parts.head), b);
        if key.Fail? then Fail
        else
          var at, t := ValueAt(items, key.value), elem.parts.tail.head;
          var value := Decode(t, if at.Some? then at.value else Default(t), b[key.size..]);
          if value.Fail? then Fail else Got(List([key.value, value.value]), key.size + value.size)
  }

  function DecodeMany(kind: Kind, elem: Type, n: nat, vars: seq<Value>, items: seq<Value>, b: seq<Byte>): (r: GotMany)
    ensures r.GotMany? ==> r.size <= |b|
    decreases elem, 1, n
  {
    if n == 0 then GotMany(items, 0)
    else
      var first := DecodeItem(kind, elem, vars, items, b);
      if first.Fail? then FailMany
      else
        Behind(first.size, DecodeMany(kind, elem, n - 1, vars, Enter(kind, items, first.value), b[first.size..]))
  }

  /** Items that are read behind n other bytes. */
  function Behind(n: nat, r: GotMany): GotMany {
    if r.FailMany? then FailMany else GotMany(r.items, n + r.size)
  }

  function DecodeAll(ts: Types, vars: seq<Value>, b: seq<Byte>): (r: GotMany)
    ensures r.GotMany? ==> r.size <= |b|
    decreases ts, 0, 0
  {
    match ts
    case Nil => GotMany([], 0)
    case Cons(head, tail) =>
      var first := Decode(head, Slot(vars, 0, head), b);
      if first.Fail? then FailMany
      else
        var rest := DecodeAll(tail, Later(vars), b[first.size..]);
        if rest.FailMany? then FailMany else GotMany([first.value] + rest.items, first.size + rest.size)
  }

  function Later(vars: seq<Value>): seq<Value> {
    if vars == [] then [] else vars[1..]
  }

  function DecodeOne(ts: Types, index: nat, b: seq<Byte>): (r: Got)
    ensures r.Got? ==> r.size <= |b|
    decreases ts, 0, 0
  {
    match ts
    case Nil => Fail
    case Cons(head, tail) => if index == 0 then Decode(head, Default(head), b) else DecodeOne(tail, index - 1, b)
  }

  // ----- blank variables --------------------------------------------------------------------

  /** Nothing of what the variable holds can survive reading into it. */
  ghost predicate Blank(was: Value, t: Type)
    decreases t
  {
    match t
    case Scalar(_) => true
    case Text => BytesOf(was) == []
    case Many(kind, elem) =>
      if kind.Vector?
      then forall i | 0 <= i < |ItemsOf(was)| && i + 1 < Pow256(INT_SIZE) :: Blank(ItemsOf(was)[i], elem)
      else ItemsOf(was) == []
    case Tuple(parts) => AllBlank(ItemsOf(was), parts)
    case Variant(_) => true
    case Optional(_) => !was.Present?
  }

  ghost predicate AllBlank(vars: seq<Value>, ts: Types)
    decreases ts
  {
    match ts
    case Nil => true
    case Cons(head, tail) => Blank(Slot(vars, 0, head), head) && AllBlank(Later(vars), tail)
  }

  lemma {:induction false} DefaultBlank(t: Type)
    ensures Blank(Default(t), t)
    decreases t
  {
    if t.Tuple? {
      DefaultsBlank(t.parts);
    }
  }

  lemma {:induction false} DefaultsBlank(ts: Types)
    ensures AllBlank(Defaults(ts), ts)
    decreases ts
  {
    if ts.Cons? {
      DefaultBlank(ts.head);
      DefaultsBlank(ts.tail);
      assert Later(Defaults(ts)) == Defaults(ts.tail);
    }
  }

  lemma {:induction false} DefaultFits(t: Type)
    requires WellTyped(t)
    ensures Fits(Default(t), t)
    decreases t
  {
    PowPositive();
    hide Pow256;
    match t
    case Scalar(_) =>
    case Text =>
    case Many(_, _) =>
    case Tuple(parts) => DefaultsFit(parts);
    case Variant(options) => DefaultFits(options.head);
    case Optional(_) =>
  }

  lemma PowPositive()
    ensures 1 < Pow256(INT_SIZE) && 0 < Pow256(4)
  {
  }

  lemma {:induction false} DefaultsFit(ts: Types)
    requires AllTyped(ts)
    ensures FitsAll(Defaults(ts), ts)
    decreases ts
  {
    if ts.Cons? {
      DefaultFits(ts.head);
      DefaultsFit(ts.tail);
      assert Defaults(ts)[1..] == Defaults(ts.tail);
    }
  }

  // ----- the round trip ---------------------------------------------------------------------

  lemma {:induction false} EnterNew(kind: Kind, items: seq<Value>, v: Value, i: nat)
    requires i <= |items| && (kind.Vector? || forall j | 0 <= j < |items| :: KeyOf(kind, items[j]) != KeyOf(kind, v))
    ensures Enter(kind, items, v) == items + [v]
    ensures !kind.Vector? ==> EnterAt(kind, items, v, i) == items + [v]
    decreases |items| - i
  {
    if !kind.Vector? {
      if i < |items| {
        EnterNew(kind, items, v, i + 1);
      }
      if i > 0 {
        EnterStart(kind, items, v, i);
      }
    }
  }

  lemma {:induction false} EnterStart(kind: Kind, items: seq<Value>, v: Value, i: nat)
    requires i <= |items| && forall j | 0 <= j < |items| :: KeyOf(kind, items[j]) != KeyOf(kind, v)
    ensures EnterAt(kind, items, v, 0) == EnterAt(kind, items, v, i)
  {
    if i > 0 {
      EnterStart(kind, items, v, i - 1);
    }
  }

  lemma {:induction false} NoValueAt(items: seq<Value>, key: Value)
    requires forall j | 0 <= j < |items| :: KeyOf(Map, items[j]) != key
    ensures ValueAt(items, key) == None
  {
    if items != [] {
      assert KeyOf(Map, items[0]) != key;
      assert forall j | 0 <= j < |items[1..]| :: items[1..][j] == items[j + 1];
      NoValueAt(items[1..], key);
    }
  }

  lemma Joined(a: seq<Byte>, b: seq<Byte>, s: seq<Byte>)
    ensures (a + b + s)[..|a|] == a && (a + b + s)[|a|..] == b + s
  {
  }

  lemma IntFits()
    ensures Pow256(4) <= Pow256(INT_SIZE)
  {
    assert Pow256(4) == 256 * 256 * 256 * 256;
    assert Pow256(8) == 256 * 256 * 256 * 256 * Pow256(4);
  }

  /**
    Reading the bytes of a value into a blank variable, whatever follows them, gives the value back and stops
    behind it.
  */
  lemma {:induction false} RoundTrip(v: Value, t: Type, was: Value, s: seq<Byte>)
    requires Fits(v, t) && WellTyped(t) && Blank(was, t)
    ensures Decode(t, was, Encode(v, t) + s) == Got(v, |Encode(v, t)|)
    decreases t, 1, 0
  {
    hide Pow256, Digits, Number, Distinct, DecodeMany, EncodeMany, DecodeOne, EncodeOne, DecodeAll, EncodeAll, Default;
    match t
    case Scalar(n) =>
      assert (v.bytes + s)[..n] == v.bytes;
    case Text =>
      TextTrip(v.bytes, was, s);
    case Many(kind, elem) =>
      ManyRound(v, kind, elem, was, s);
    case Tuple(parts) =>
      AllTrip(v.items, parts, ItemsOf(was), s);
    case Variant(options) =>
      VariantRound(v, options, was, s);
    case Optional(elem) =>
      if v.Present? {
        Joined([1], Encode(v.value, elem), s);
        DefaultBlank(elem);
        RoundTrip(v.value, elem, Default(elem), s);
      }
  }

  lemma {:induction false} ManyRound(v: Value, kind: Kind, elem: Type, was: Value, s: seq<Byte>)
    requires Fits(v, Many(kind, elem)) && WellTyped(Many(kind, elem)) && Blank(was, Many(kind, elem))
    ensures Decode(Many(kind, elem), was, Encode(v, Many(kind, elem)) + s) == Got(v, |Encode(v, Many(kind, elem))|)
    decreases Many(kind, elem), 0, 0
  {
    hide Pow256, Digits, Number, Distinct, DecodeMany, EncodeMany;
    LengthTrip(|v.items|, EncodeMany(v.items, elem), s);
    assert [] + v.items == v.items;
    ManyTrip(kind, v.items, elem, ItemsOf(was), [], 0, s);
    ManyNone(kind, elem, ItemsOf(was), v.items, s);
  }

  lemma {:induction false} VariantRound(v: Value, options: Types, was: Value, s: seq<Byte>)
    requires Fits(v, Variant(options)) && WellTyped(Variant(options))
    ensures Decode(Variant(options), was, Encode(v, Variant(options)) + s) == Got(v, |Encode(v, Variant(options))|)
    decreases Variant(options), 0, 0
  {
    hide Pow256, Digits, Number, DecodeOne, EncodeOne;
    IntFits();
    LengthTrip(v.index, EncodeOne(v.value, options, v.index), s);
    Small(v.index, Pow256(4));
    OneTrip(v.value, options, v.index, s);
  }

  lemma Small(n: nat, m: nat)
    requires n < m
    ensures n % m == n
  {
  }

  /** A number in front of the bytes. */
  lemma LengthTrip(n: nat, b: seq<Byte>, s: seq<Byte>)
    requires n < Pow256(INT_SIZE)
    ensures var all := Digits(n, INT_SIZE) + b + s;
            |all| >= INT_SIZE && Number(all[..INT_SIZE]) == n
            && all[INT_SIZE..] == b + s
  {
    NumberDigits(n, INT_SIZE);
    Joined(Digits(n, INT_SIZE), b, s);
  }

  lemma TextTrip(bytes: seq<Byte>, was: Value, s: seq<Byte>)
    requires |bytes| < Pow256(INT_SIZE)
    ensures Decode(Text, was,
                   Digits(|bytes|, INT_SIZE) + bytes + s) == Got(Raw(if bytes == [] then BytesOf(was) else bytes),
                                                                 INT_SIZE + |bytes|)
  {
    hide Pow256, Digits, Number;
    LengthTrip(|bytes|, bytes, s);
    var all := Digits(|bytes|, INT_SIZE) + bytes + s;
    assert all[INT_SIZE..INT_SIZE + |bytes|] == all[INT_SIZE..][..|bytes|];
  }

  /** The variables for the elements from a position on are blank. */
  ghost predicate SlotsBlank(kind: Kind, elem: Type, vars: seq<Value>, from: nat, n: nat) {
    kind.Vector? ==> forall i | from <= i < from + n && i < |vars| :: Blank(vars[i], elem)
  }

  /** Reading elements that are followed by others. */
  lemma {:induction false} ManyTrip(kind: Kind, items: seq<Value>, elem: Type, vars: seq<Value>, before: seq<Value>,
                                    more: nat, s: seq<Byte>)
    requires WellTyped(Many(kind, elem)) && Distinct(kind, before + items)
             && SlotsBlank(kind, elem, vars, |before|, |items|)
    requires forall i | 0 <= i < |items| :: Fits(items[i], elem)
    ensures DecodeMany(kind, elem, |items| + more, vars, before, EncodeMany(items, elem) + s)
         == Behind(|EncodeMany(items, elem)|, DecodeMany(kind, elem, more, vars, before + items, s))
    decreases elem, 3, |items|
  {
    hide Decode, DecodeItem, Encode, Fits, Enter, Distinct, Blank, Default;
    if items == [] {
      assert before + items == before && EncodeMany(items, elem) + s == s;
      hide DecodeMany;
    } else {
      var first, rest := Encode(items[0], elem), EncodeMany(items[1..], elem);
      assert EncodeMany(items, elem) + s == first + (rest + s);
      FirstNew(kind, before, items);
      ItemTrip(kind, items[0], elem, vars, before, rest + s);
      EnterNew(kind, before, items[0], 0);
      assert before + items == before + [items[0]] + items[1..];
      ManyTrip(kind, items[1..], elem, vars, before + [items[0]], more, s);
      assert (first + (rest + s))[|first|..] == rest + s;
      ManyStep(kind, elem, |items| + more, vars, before, first + (rest + s), Got(items[0], |first|));
      hide DecodeMany, EncodeMany;
    }
  }

  lemma {:induction false} ItemTrip(kind: Kind, v: Value, elem: Type, vars: seq<Value>, before: seq<Value>,
                                    s: seq<Byte>)
    requires WellTyped(Many(kind, elem)) && Fits(v, elem)
             && (kind.Vector? && |before| < |vars| ==> Blank(vars[|before|], elem))
    requires kind.Vector? || forall j | 0 <= j < |before| :: KeyOf(kind, before[j]) != KeyOf(kind, v)
    ensures DecodeItem(kind, elem, vars, before, Encode(v, elem) + s) == Got(v, |Encode(v, elem)|)
    decreases elem, 2, 0
  {
    hide Decode, Encode, Blank, Default, Pow256;
    DefaultBlank(elem);
    match kind
    case Vector =>
      RoundTrip(v, elem, Slot(vars, |before|, elem), s);
    case Set =>
      RoundTrip(v, elem, Default(elem), s);
    case Map =>
      PairTrip(v, elem, vars, before, s);
  }

  lemma PairParts(v: Value, elem: Type)
    requires WellTyped(elem) && IsPair(elem) && Fits(v, elem)
    ensures v.List? && |v.items| == 2 && KeyOf(Map, v) == v.items[0]
    ensures WellTyped(elem.parts.head) && WellTyped(elem.parts.tail.head) && Fits(v.items[0], elem.parts.head)
            && Fits(v.items[1], elem.parts.tail.head)
    ensures Encode(v, elem) == Encode(v.items[0], elem.parts.head) + Encode(v.items[1], elem.parts.tail.head)
  {
    PairTyped(elem);
    var ts, rest := elem.parts, v.items[1..];
    assert FitsAll(v.items, ts) && FitsAll(rest, ts.tail) && FitsAll(rest[1..], ts.tail.tail);
    assert EncodeAll(rest[1..], ts.tail.tail) == [];
    assert EncodeAll(rest, ts.tail) == Encode(rest[0], ts.tail.head) + [];
    assert EncodeAll(v.items, ts) == Encode(v.items[0], ts.head) + EncodeAll(rest, ts.tail);
  }

  lemma PairTyped(elem: Type)
    requires WellTyped(elem) && IsPair(elem)
    ensures WellTyped(elem.parts.head) && WellTyped(elem.parts.tail.head)
  {
    assert AllTyped(elem.parts) && AllTyped(elem.parts.tail);
  }

  lemma {:induction false} PairTrip(v: Value, elem: Type, vars: seq<Value>, before: seq<Value>, s: seq<Byte>)
    requires WellTyped(elem) && IsPair(elem) && Fits(v, elem)
             && forall j | 0 <= j < |before| :: KeyOf(Map, before[j]) != KeyOf(Map, v)
    ensures DecodeItem(Map, elem, vars, before, Encode(v, elem) + s) == Got(v, |Encode(v, elem)|)
    decreases elem, 0, 0
  {
    PairParts(v, elem);
    var k, t, key, value := elem.parts.head, elem.parts.tail.head, v.items[0], v.items[1];
    hide Decode, Encode, Fits, Blank, Default, WellTyped;
    var first, rest := Encode(key, k), Encode(value, t);
    assert Encode(v, elem) + s == first + (rest + s);
    assert (first + (rest + s))[|first|..] == rest + s;
    NoValueAt(before, key);
    DefaultBlank(k);
    DefaultBlank(t);
    RoundTrip(key, k, Default(k), rest + s);
    RoundTrip(value, t, Default(t), s);
    assert v == List([key, value]);
  }

  lemma ManyNone(kind: Kind, elem: Type, vars: seq<Value>, items: seq<Value>, b: seq<Byte>)
    ensures DecodeMany(kind, elem, 0, vars, items, b) == GotMany(items, 0)
  {
  }

  lemma ManyStep(kind: Kind, elem: Type, n: nat, vars: seq<Value>, items: seq<Value>, b: seq<Byte>, first: Got)
    requires n > 0 && first == DecodeItem(kind, elem, vars, items, b)
    ensures first.Fail? ==> DecodeMany(kind, elem, n, vars, items, b) == FailMany
    ensures first.Got? ==>
              DecodeMany(kind, elem, n, vars, items, b)
              == Behind(first.size,
                        DecodeMany(kind, elem, n - 1, vars, Enter(kind, items, first.value), b[first.size..]))
  {
    hide DecodeItem, Enter;
  }

  lemma FirstNew(kind: Kind, before: seq<Value>, items: seq<Value>)
    requires Distinct(kind, before + items) && items != []
    ensures kind.Vector? || forall j | 0 <= j < |before| :: KeyOf(kind, before[j]) != KeyOf(kind, items[0])
  {
    var all := before + items;
    assert all[|before|] == items[0] && forall j | 0 <= j < |before| :: all[j] == before[j];
  }

  lemma {:induction false} AllTrip(items: seq<Value>, ts: Types, vars: seq<Value>, s: seq<Byte>)
    requires FitsAll(items, ts) && AllTyped(ts) && AllBlank(vars, ts)
    ensures DecodeAll(ts, vars, EncodeAll(items, ts) + s) == GotMany(items, |EncodeAll(items, ts)|)
    decreases ts, 0, 0
  {
    hide Blank, Default;
    match ts
    case Nil =>
    case Cons(head, tail) =>
      var first, rest := Encode(items[0], head), EncodeAll(items[1..], tail);
      assert EncodeAll(items, ts) + s == first + (rest + s);
      RoundTrip(items[0], head, Slot(vars, 0, head), rest + s);
      AllTrip(items[1..], tail, Later(vars), s);
      assert (first + (rest + s))[|first|..] == rest + s;
      assert [items[0]] + items[1..] == items;
  }

  lemma {:induction false} OneTrip(v: Value, ts: Types, index: nat, s: seq<Byte>)
    requires FitsOne(v, ts, index) && AllTyped(ts)
    ensures DecodeOne(ts, index, EncodeOne(v, ts, index) + s) == Got(v, |EncodeOne(v, ts, index)|)
    decreases ts, 0, 0
  {
    if index == 0 {
      DefaultBlank(ts.head);
      RoundTrip(v, ts.head, Default(ts.head), s);
    } else {
      OneTrip(v, ts.tail, index - 1, s);
    }
  }

  // ----- variables that are not blank -------------------------------------------------------

  /** Reading back the bytes of the value, whatever follows them, does not give the value. */
  ghost predicate Spoils(t: Type, was: Value, v: Value)
    requires Fits(v, t)
  {
    forall s: seq<Byte> | Decode(t, was, Encode(v, t) + s).Got? :: Decode(t, was, Encode(v, t) + s).value != v
  }

  /** For a variable that is not blank there is a value that is not read back. */
  lemma {:induction false} NotBlank(t: Type, was: Value) returns (v: Value)
    requires WellTyped(t) && !Blank(was, t)
    ensures Fits(v, t) && Spoils(t, was, v)
    decreases t, 0
  {
    match t
    case Text =>
      PowPositive();
      v := Raw([]);
      forall s: seq<Byte>
        ensures Decode(t, was, Encode(v, t) + s) == Got(Raw(BytesOf(was)), INT_SIZE)
      {
        TextTrip([], was, s);
        assert Digits(0, INT_SIZE) + [] + s == Encode(v, t) + s;
      }
    case Many(kind, elem) =>
      if kind.Vector? {
        v := VectorSpoils(elem, was);
      } else {
        v := EmptySpoils(kind, elem, was);
      }
    case Tuple(parts) =>
      var items := AllSpoil(parts, ItemsOf(was));
      v := List(items);
    case Optional(_) =>
      v := Absent;
      assert forall s: seq<Byte> :: ([0] + s)[0] == 0;
  }

  lemma EmptySpoils(kind: Kind, elem: Type, was: Value) returns (v: Value)
    requires !kind.Vector? && ItemsOf(was) != []
    ensures Fits(v, Many(kind, elem)) && Spoils(Many(kind, elem), was, v)
  {
    PowPositive();
    v := List([]);
    forall s: seq<Byte>
      ensures Decode(Many(kind, elem), was, Encode(v, Many(kind, elem)) + s) == Got(was, INT_SIZE)
    {
      LengthTrip(0, [], s);
      assert Digits(0, INT_SIZE) + [] + s == Encode(v, Many(kind, elem)) + s;
      hide Digits, Number;
      ManyNone(kind, elem, ItemsOf(was), ItemsOf(was), [] + s);
    }
  }

  ghost predicate FirstNot(elem: Type, vars: seq<Value>, i: nat) {
    i < |vars| && !Blank(vars[i], elem) && forall j | 0 <= j < i :: Blank(vars[j], elem)
  }

  lemma {:induction false} FindNot(elem: Type, vars: seq<Value>, k: nat) returns (i: nat)
    requires k < |vars| && !Blank(vars[k], elem)
    ensures i <= k && FirstNot(elem, vars, i)
    decreases k
  {
    hide Blank;
    if j :| 0 <= j < k && !Blank(vars[j], elem) {
      i := FindNot(elem, vars, j);
    } else {
      i := k;
    }
  }

  lemma {:induction false} VectorSpoils(elem: Type, was: Value) returns (v: Value)
    requires WellTyped(elem) && !Blank(was, Many(Vector, elem))
    ensures Fits(v, Many(Vector, elem)) && Spoils(Many(Vector, elem), was, v)
    decreases elem, 1
  {
    var t, vars := Many(Vector, elem), ItemsOf(was);
    var k :| 0 <= k < |vars| && k + 1 < Pow256(INT_SIZE) && !Blank(vars[k], elem);
    hide Blank, Pow256, Digits, Number, Decode, Encode;
    var i := FindNot(elem, vars, k);
    var x := NotBlank(elem, vars[i]);
    DefaultFits(elem);
    var front := seq(i, _ => Default(elem));
    v := List(front + [x]);
    assert forall j | 0 <= j <= i :: Fits(v.items[j], elem);
    forall s: seq<Byte> | Decode(t, was, Encode(v, t) + s).Got?
      ensures Decode(t, was, Encode(v, t) + s).value != v
    {
      ItemSpoils(elem, was, front, x, i, s);
    }
  }

  lemma ItemSpoils(elem: Type, was: Value, front: seq<Value>, x: Value, i: nat, s: seq<Byte>)
    requires WellTyped(elem) && |front| == i && i + 1 < Pow256(INT_SIZE) && FirstNot(elem, ItemsOf(was), i)
    requires (forall j | 0 <= j < i :: Fits(front[j], elem)) && Fits(x, elem) && Spoils(elem, ItemsOf(was)[i], x)
    requires Fits(List(front + [x]), Many(Vector, elem))
    requires Decode(Many(Vector, elem), was, Encode(List(front + [x]), Many(Vector, elem)) + s).Got?
    ensures Decode(Many(Vector, elem), was,
                   Encode(List(front + [x]), Many(Vector, elem)) + s).value != List(front + [x])
  {
    hide Pow256, Digits, Number, Blank, Fits, Encode, Decode, DecodeMany, EncodeMany, Distinct;
    var t, vars, items := Many(Vector, elem), ItemsOf(was), front + [x];
    EncodeLast(front, x, elem);
    var mid, last := EncodeMany(front, elem), Encode(x, elem);
    VectorDecoded(elem, was, items, s);
    assert EncodeMany(items, elem) + s == mid + (last + s) && [] + front == front;
    VectorDistinct(front);
    ManyTrip(Vector, front, elem, vars, [], 1, last + s);
    var first := Decode(elem, vars[i], last + s);
    assert DecodeItem(Vector, elem, vars, front, last + s) == first;
    ManyStep(Vector, elem, 1, vars, front, last + s, first);
    if first.Got? {
      assert Enter(Vector, front, first.value) == front + [first.value];
      ManyNone(Vector, elem, vars, front + [first.value], (last + s)[first.size..]);
      assert (front + [first.value])[i] != items[i];
    }
  }

  lemma VectorDistinct(items: seq<Value>)
    ensures Distinct(Vector, items)
  {
  }

  /** A vector is read as its number of elements and then its elements. */
  lemma VectorDecoded(elem: Type, was: Value, items: seq<Value>, s: seq<Byte>)
    requires Fits(List(items), Many(Vector, elem)) && forall j | 0 <= j < |items| :: Fits(items[j], elem)
    ensures var r := DecodeMany(Vector, elem, |items|, ItemsOf(was), [], EncodeMany(items, elem) + s);
            Decode(Many(Vector, elem), was, Encode(List(items), Many(Vector, elem)) + s)
            == if r.FailMany? then Fail else Got(List(r.items), INT_SIZE + r.size)
  {
    hide Pow256, Digits, Number, DecodeMany, EncodeMany;
    LengthTrip(|items|, EncodeMany(items, elem), s);
  }

  lemma {:induction false} EncodeLast(front: seq<Value>, x: Value, elem: Type)
    requires (forall j | 0 <= j < |front| :: Fits(front[j], elem)) && Fits(x, elem)
    ensures (forall j | 0 <= j <= |front| :: Fits((front + [x])[j], elem))
    ensures EncodeMany(front + [x], elem) == EncodeMany(front, elem) + Encode(x, elem)
  {
    hide Fits, Encode;
    assert forall j | 0 <= j <= |front| :: (front + [x])[j] == if j < |front| then front[j] else x;
    if front == [] {
      assert front + [x] == [x] && [x][1..] == [];
      assert EncodeMany([x], elem) == Encode(x, elem) + EncodeMany([x][1..], elem);
    } else {
      assert (front + [x])[1..] == front[1..] + [x] && (front + [x])[0] == front[0];
      EncodeLast(front[1..], x, elem);
    }
  }

  lemma {:induction false} AllSpoil(ts: Types, vars: seq<Value>) returns (items: seq<Value>)
    requires AllTyped(ts) && !AllBlank(vars, ts)
    ensures FitsAll(items, ts)
    ensures forall s: seq<Byte> | DecodeAll(ts, vars, EncodeAll(items, ts) + s).GotMany? ::
              DecodeAll(ts, vars, EncodeAll(items, ts) + s).items != items
    decreases ts, 0
  {
    hide Blank, Default, Decode, Encode;
    var head, tail := ts.head, ts.tail;
    if Blank(Slot(vars, 0, head), head) {
      DefaultFits(head);
      var rest := AllSpoil(tail, Later(vars));
      items := [Default(head)] + rest;
      assert items[1..] == rest;
      forall s: seq<Byte> | DecodeAll(ts, vars, EncodeAll(items, ts) + s).GotMany?
        ensures DecodeAll(ts, vars, EncodeAll(items, ts) + s).items != items
      {
        var first, more := Encode(items[0], head), EncodeAll(rest, tail);
        assert EncodeAll(items, ts) + s == first + (more + s) && (first + (more + s))[|first|..] == more + s;
        RoundTrip(items[0], head, Slot(vars, 0, head), more + s);
        var got := DecodeAll(tail, Later(vars), more + s);
        assert ([items[0]] + got.items)[1..] == got.items;
      }
    } else {
      var x := NotBlank(head, Slot(vars, 0, head));
      DefaultsFit(tail);
      items := [x] + Defaults(tail);
      assert items[1..] == Defaults(tail);
      forall s: seq<Byte> | DecodeAll(ts, vars, EncodeAll(items, ts) + s).GotMany?
        ensures DecodeAll(ts, vars, EncodeAll(items, ts) + s).items != items
      {
        var first, more := Encode(x, head), EncodeAll(Defaults(tail), tail);
        assert EncodeAll(items, ts) + s == first + (more + s);
        var got := Decode(head, Slot(vars, 0, head), first + (more + s));
        assert got.Got? ==> got.value != x;
      }
    }
  }

  /** Every value of the type is read back into the variable, whatever follows its bytes. */
  ghost predicate ReadsBack(t: Type, was: Value) {
    forall v: Value, s: seq<Byte> | Fits(v, t) :: Decode(t, was, Encode(v, t) + s) == Got(v, |Encode(v, t)|)
  }

  /** All values are read back into a variable exactly when it is blank. */
  lemma IntoExact(t: Type, was: Value)
    requires WellTyped(t)
    ensures ReadsBack(t, was) <==> Blank(was, t)
  {
    hide Decode, Encode, Fits, Blank;
    if Blank(was, t) {
      forall v: Value, s: seq<Byte> | Fits(v, t)
        ensures Decode(t, was, Encode(v, t) + s) == Got(v, |Encode(v, t)|)
      {
        RoundTrip(v, t, was, s);
      }
    } else {
      var v := NotBlank(t, was);
      assert !(Decode(t, was, Encode(v, t) + []) == Got(v, |Encode(v, t)|));
    }
  }

  // ----- truncated bytes --------------------------------------------------------------------

  /** What is read depends on the bytes that were read, and on all of them. */
  lemma {:induction false} Truncated(t: Type, was: Value, b: seq<Byte>, k: nat)
    requires k <= |b| && Decode(t, was, b).Got?
    ensures Decode(t, was, b[..k]) == if k < Decode(t, was, b).size then Fail else Decode(t, was, b)
    decreases t, 1, 0
  {
    hide Number, Pow256, DecodeMany, DecodeAll, DecodeOne, Default;
    match t
    case Scalar(n) =>
      if k >= n {
        assert b[..k][..n] == b[..n];
      }
    case Text =>
      TextTruncated(was, b, k);
    case Many(kind, elem) =>
      ManyCut(kind, elem, was, b, k);
    case Tuple(parts) =>
      AllTruncated(parts, ItemsOf(was), b, k);
    case Variant(options) =>
      VariantTruncated(options, was, b, k);
    case Optional(elem) =>
      if k >= 1 {
        assert b[..k][0] == b[0] && b[..k][1..] == b[1..][..k - 1];
        if b[0] != 0 {
          Truncated(elem, Default(elem), b[1..], k - 1);
        }
      }
  }

  lemma TextTruncated(was: Value, b: seq<Byte>, k: nat)
    requires k <= |b| && Decode(Text, was, b).Got?
    ensures Decode(Text, was, b[..k]) == if k < Decode(Text, was, b).size then Fail else Decode(Text, was, b)
  {
    hide Number;
    if k >= INT_SIZE {
      assert b[..k][..INT_SIZE] == b[..INT_SIZE];
      var n := Number(b[..INT_SIZE]);
      if k - INT_SIZE >= n {
        assert b[..k][INT_SIZE..INT_SIZE + n] == b[INT_SIZE..INT_SIZE + n];
      }
    }
  }

  lemma {:induction false} ManyCut(kind: Kind, elem: Type, was: Value, b: seq<Byte>, k: nat)
    requires k <= |b| && Decode(Many(kind, elem), was, b).Got?
    ensures Decode(Many(kind, elem), was, b[..k]) == if k < Decode(Many(kind, elem), was, b).size then Fail
                                                     else Decode(Many(kind, elem), was, b)
    decreases Many(kind, elem), 0, 0
  {
    hide Number, DecodeMany;
    if k >= INT_SIZE {
      assert b[..k][..INT_SIZE] == b[..INT_SIZE] && b[..k][INT_SIZE..] == b[INT_SIZE..][..k - INT_SIZE];
      ManyTruncated(kind, elem, Number(b[..INT_SIZE]), ItemsOf(was), Begin(kind, was), b[INT_SIZE..], k - INT_SIZE);
    }
  }

  lemma {:induction false} VariantTruncated(options: Types, was: Value, b: seq<Byte>, k: nat)
    requires k <= |b| && Decode(Variant(options), was, b).Got?
    ensures Decode(Variant(options), was, b[..k]) == if k < Decode(Variant(options), was, b).size then Fail
                                                     else Decode(Variant(options), was, b)
    decreases Variant(options), 0, 0
  {
    hide Number, Pow256, DecodeOne;
    if k >= INT_SIZE {
      assert b[..k][..INT_SIZE] == b[..INT_SIZE] && b[..k][INT_SIZE..] == b[INT_SIZE..][..k - INT_SIZE];
      OneTruncated(options, Number(b[..INT_SIZE]) % Pow256(4), b[INT_SIZE..], k - INT_SIZE);
    }
  }

  lemma {:induction false} ItemTruncated(kind: Kind, elem: Type, vars: seq<Value>, items: seq<Value>, b: seq<Byte>,
                                         k: nat)
    requires k <= |b| && DecodeItem(kind, elem, vars, items, b).Got?
    ensures DecodeItem(kind, elem, vars, items, b[..k])
         == if k < DecodeItem(kind, elem, vars, items, b).size then Fail else DecodeItem(kind, elem, vars, items, b)
    decreases elem, 2, 0
  {
    hide Decode, Default;
    match kind
    case Vector =>
      Truncated(elem, Slot(vars, |items|, elem), b, k);
    case Set =>
      Truncated(elem, Default(elem), b, k);
    case Map =>
      var key := Decode(elem.parts.head, Default(elem.parts.head), b);
      Truncated(elem.parts.head, Default(elem.parts.head), b, k);
      if k >= key.size {
        var at, t := ValueAt(items, key.value), elem.parts.tail.head;
        assert b[..k][key.size..] == b[key.size..][..k - key.size];
        Truncated(t, if at.Some? then at.value else Default(t), b[key.size..], k - key.size);
      }
  }

  lemma {:induction false} ManyTruncated(kind: Kind, elem: Type, n: nat, vars: seq<Value>, items: seq<Value>,
                                         b: seq<Byte>, k: nat)
    requires k <= |b| && DecodeMany(kind, elem, n, vars, items, b).GotMany?
    ensures DecodeMany(kind, elem, n, vars, items, b[..k])
         == if k < DecodeMany(kind, elem, n, vars, items, b).size then FailMany
            else DecodeMany(kind, elem, n, vars, items, b)
    decreases elem, 3, n
  {
    hide DecodeItem, Enter;
    if n > 0 {
      var first := DecodeItem(kind, elem, vars, items, b);
      ManyStep(kind, elem, n, vars, items, b, first);
      ManyStep(kind, elem, n, vars, items, b[..k], DecodeItem(kind, elem, vars, items, b[..k]));
      hide DecodeMany;
      ItemTruncated(kind, elem, vars, items, b, k);
      if k >= first.size {
        assert b[..k][first.size..] == b[first.size..][..k - first.size];
        ManyTruncated(kind, elem, n - 1, vars, Enter(kind, items, first.value), b[first.size..], k - first.size);
      }
    }
  }

  lemma {:induction false} AllTruncated(ts: Types, vars: seq<Value>, b: seq<Byte>, k: nat)
    requires k <= |b| && DecodeAll(ts, vars, b).GotMany?
    ensures DecodeAll(ts, vars, b[..k]) == if k < DecodeAll(ts, vars, b).size then FailMany else DecodeAll(ts, vars, b)
    decreases ts, 0, 0
  {
    hide Default;
    match ts
    case Nil =>
    case Cons(head, tail) =>
      Truncated(head, Slot(vars, 0, head), b, k);
      var first := Decode(head, Slot(vars, 0, head), b);
      if k >= first.size {
        assert b[..k][first.size..] == b[first.size..][..k - first.size];
        AllTruncated(tail, Later(vars), b[first.size..], k - first.size);
      }
  }

  lemma {:induction false} OneTruncated(ts: Types, index: nat, b: seq<Byte>, k: nat)
    requires k <= |b| && DecodeOne(ts, index, b).Got?
    ensures DecodeOne(ts, index, b[..k]) == if k < DecodeOne(ts, index, b).size then Fail else DecodeOne(ts, index, b)
    decreases ts, 0, 0
  {
    if index == 0 {
      Truncated(ts.head, Default(ts.head), b, k);
    } else {
      OneTruncated(ts.tail, index - 1, b, k);
    }
  }

  /** Reading a strict prefix of the bytes of a value fails. */
  lemma PrefixFails(v: Value, t: Type, was: Value, k: nat)
    requires Fits(v, t) && WellTyped(t) && Blank(was, t) && k < |Encode(v, t)|
    ensures Decode(t, was, Encode(v, t)[..k]) == Fail
  {
    hide Decode, Encode, Fits, Blank;
    RoundTrip(v, t, was, []);
    assert Encode(v, t) + [] == Encode(v, t);
    Truncated(t, was, Encode(v, t), k);
  }

  // ----- the streams ------------------------------------------------------------------------

  class StreamOut {
    var buffer: seq<Byte>

    constructor ()
      ensures buffer == []
    {
      buffer := [];
    }

    /** `push`: the bytes of the value are appended. */
    method Push(v: Value, t: Type)
      requires Fits(v, t)
      modifies this
      ensures buffer == old(buffer) + Encode(v, t)
      decreases t, 0
    {
      hide Digits, Pow256, Distinct;
      match t {
        case Scalar(_) =>
          buffer := buffer + v.bytes;
        case Text =>
          buffer := buffer + Digits(|v.bytes|, INT_SIZE) + v.bytes;
          assert buffer == old(buffer) + (Digits(|v.bytes|, INT_SIZE) + v.bytes);
        case Many(_, elem) =>
          buffer := buffer + Digits(|v.items|, INT_SIZE);
          ghost var front := buffer;
          for i := 0 to |v.items|
            invariant buffer + EncodeMany(v.items[i..], elem) == front + EncodeMany(v.items, elem)
          {
            var rest := v.items[i..];
            assert rest[0] == v.items[i] && rest[1..] == v.items[i + 1..];
            ghost var was := buffer;
            Push(v.items[i], elem);
            assert was + (Encode(v.items[i], elem) + EncodeMany(rest[1..], elem)) == buffer + EncodeMany(rest[1..],
                  elem);
          }
          assert front + EncodeMany(v.items,
                                    elem) == old(buffer) + (Digits(|v.items|, INT_SIZE) + EncodeMany(v.items, elem));
        case Tuple(parts) =>
          PushTuple(v.items, parts);
        case Variant(options) =>
          buffer := buffer + Digits(v.index, INT_SIZE);
          PushOne(v.value, options, v.index);
          assert buffer == old(buffer) + (Digits(v.index, INT_SIZE) + EncodeOne(v.value, options, v.index));
        case Optional(elem) =>
          if v.Present? {
            buffer := buffer + [1];
            Push(v.value, elem);
            assert buffer == old(buffer) + ([1] + Encode(v.value, elem));
          } else {
            buffer := buffer + [0];
          }
      }
    }

    method PushTuple(items: seq<Value>, ts: Types)
      requires FitsAll(items, ts)
      modifies this
      ensures buffer == old(buffer) + EncodeAll(items, ts)
      decreases ts, 0
    {
      match ts {
        case Nil =>
        case Cons(head, tail) =>
          Push(items[0], head);
          PushTuple(items[1..], tail);
      }
    }

    method PushOne(v: Value, ts: Types, index: nat)
      requires FitsOne(v, ts, index)
      modifies this
      ensures buffer == old(buffer) + EncodeOne(v, ts, index)
      decreases ts, 0
    {
      if index == 0 {
        Push(v, ts.head);
      } else {
        PushOne(v, ts.tail, index - 1);
      }
    }
  }

  /** A read from a position on: the value and the new position, or a failure at the end of the bytes. */
  ghost predicate Reads(r: Got, v: Value, pos: nat, pos': nat, end: nat, failed: bool) {
    if r.Got? then !failed && v == r.value && pos' == pos + r.size else failed && pos' == end
  }

  /** In the middle of n elements: the rest is still to be read, or a failure has happened. */
  ghost predicate ManyAt(all: GotMany, kind: Kind, elem: Type, left: nat, vars: seq<Value>, items: seq<Value>,
                         b: seq<Byte>, start: nat, pos: nat,
                         failed: bool) {
    && start <= pos <= |b|
    && if failed then all == FailMany && pos == |b|
       else all == Behind(pos - start, DecodeMany(kind, elem, left, vars, items, b[pos..]))
  }

  lemma ManyBegins(all: GotMany, kind: Kind, elem: Type, n: nat, vars: seq<Value>, items: seq<Value>, b: seq<Byte>,
                   pos: nat, failed: bool)
    requires pos <= |b| && all == DecodeMany(kind, elem, n, vars, items, b[pos..])
    ensures !failed ==> ManyAt(all, kind, elem, n, vars, items, b, pos, pos, failed)
  {
    hide DecodeMany;
  }

  lemma ManyGoesOn(all: GotMany, kind: Kind, elem: Type, left: nat, vars: seq<Value>, items: seq<Value>, b: seq<Byte>,
                   start: nat, here: nat,
                   was: bool, x: Value, pos: nat, failed: bool)
    requires ManyAt(all, kind, elem, left, vars, items, b, start, here, was) && left > 0 && here <= pos <= |b|
             && (was ==> failed)
    requires !was ==> Reads(DecodeItem(kind, elem, vars, items, b[here..]), x, here, pos, |b|, failed)
    ensures ManyAt(all, kind, elem, left - 1, vars, Enter(kind, items, x), b, start, pos, failed)
  {
    hide DecodeItem, Enter, DecodeMany;
    if !was {
      ManyStep(kind, elem, left, vars, items, b[here..], DecodeItem(kind, elem, vars, items, b[here..]));
      if !failed {
        assert b[here..][pos - here..] == b[pos..];
      }
    }
  }

  lemma ManyEnds(all: GotMany, kind: Kind, elem: Type, left: nat, vars: seq<Value>, items: seq<Value>, b: seq<Byte>,
                 start: nat, pos: nat, failed: bool)
    requires ManyAt(all, kind, elem, left, vars, items, b, start, pos, failed) && (left == 0 || failed)
    ensures Reads(OfMany(all), List(items), start, pos, |b|, failed)
  {
    if left == 0 {
      ManyNone(kind, elem, vars, items, b[pos..]);
    }
    hide DecodeMany;
  }

  class StreamIn {
    const buffer: seq<Byte>
    var pos: nat
    var failed: bool

    ghost predicate Valid()
      reads this
    {
      pos <= |buffer|
    }

    constructor (buffer: seq<Byte>)
      ensures Valid() && this.buffer == buffer && pos == 0 && !failed
    {
      this.buffer := buffer;
      pos, failed := 0, false;
    }

    method Take(n: nat) returns (b: seq<Byte>)
      requires Valid()
      modifies this
      ensures Valid()
      ensures if |buffer| - old(pos) < n then failed && pos == |buffer| && b == []
              else failed == old(failed) && pos == old(pos) + n && b == buffer[old(pos)..pos]
    {
      if |buffer| - pos < n {
        pos, failed := |buffer|, true;
        return [];
      }
      b := buffer[pos..pos + n];
      pos := pos + n;
    }

    /** A number; 0 after a failure. */
    method PopInt() returns (n: nat)
      requires Valid()
      modifies this
      ensures Valid()
      ensures if |buffer| - old(pos) < INT_SIZE then failed && pos == |buffer| && n == 0
              else failed == old(failed) && pos == old(pos) + INT_SIZE && n == Number(buffer[old(pos)..pos])
    {
      var b := Take(INT_SIZE);
      n := Number(b);
    }

    /** `pop` into a variable that holds `was`; a failure stays. */
    method Pop(t: Type, was: Value) returns (v: Value)
      requires Valid() && WellTyped(t)
      modifies this
      ensures Valid() && (old(failed) ==> failed) && old(pos) <= pos
      ensures !old(failed) ==> Reads(Decode(t, was, buffer[old(pos)..]), v, old(pos), pos, |buffer|, failed)
      decreases t, 0
    {
      hide Number, Pow256, DecodeMany, DecodeAll, DecodeOne, Default;
      ghost var rest := buffer[pos..];
      match t {
        case Scalar(n) =>
          var b := Take(n);
          v := Raw(b);
          assert |rest| >= n ==> buffer[old(pos)..old(pos) + n] == rest[..n];
        case Text =>
          v := PopText(was);
        case Many(kind, elem) =>
          var n := PopInt();
          assert |rest| >= INT_SIZE ==>
                   buffer[old(pos)..old(pos) + INT_SIZE] == rest[..INT_SIZE] && buffer[pos..] == rest[INT_SIZE..];
          v := PopMany(kind, elem, n, was);
        case Tuple(parts) =>
          var items := PopTuple(parts, ItemsOf(was));
          v := List(items);
        case Variant(options) =>
          v := PopVariant(options, was);
        case Optional(elem) =>
          var b := Take(1);
          if b == [] || b[0] == 0 {
            return if was.Present? then was else Absent;
          }
          assert buffer[pos..] == rest[1..];
          var x := Pop(elem, Default(elem));
          v := Present(x);
      }
    }

    method PopText(was: Value) returns (v: Value)
      requires Valid()
      modifies this
      ensures Valid() && (old(failed) ==> failed) && old(pos) <= pos
      ensures !old(failed) ==> Reads(Decode(Text, was, buffer[old(pos)..]), v, old(pos), pos, |buffer|, failed)
    {
      hide Number;
      ghost var rest := buffer[pos..];
      var n := PopInt();
      assert |rest| >= INT_SIZE ==> buffer[old(pos)..old(pos) + INT_SIZE] == rest[..INT_SIZE];
      var b := Take(n);
      v := Raw(if n == 0 then BytesOf(was) else b);
      assert |rest| >= INT_SIZE + n ==>
               buffer[old(pos) + INT_SIZE..old(pos) + INT_SIZE + n] == rest[INT_SIZE..INT_SIZE + n];
    }

    method PopVariant(options: Types, was: Value) returns (v: Value)
      requires Valid() && AllTyped(options)
      modifies this
      ensures Valid() && (old(failed) ==> failed) && old(pos) <= pos
      ensures !old(failed) ==>
                Reads(Decode(Variant(options), was, buffer[old(pos)..]), v, old(pos), pos, |buffer|, failed)
      decreases options, 1
    {
      hide Number, Pow256, DecodeOne;
      ghost var rest := buffer[pos..];
      var n := PopInt();
      assert |rest| >= INT_SIZE ==>
               buffer[old(pos)..old(pos) + INT_SIZE] == rest[..INT_SIZE] && buffer[pos..] == rest[INT_SIZE..];
      if failed {
        return was;
      }
      var index := n % Pow256(4);
      var x := PopOne(options, index);
      v := Chosen(index, x);
    }

    /** One element of a vector, a set or a map. */
    method PopItem(kind: Kind, elem: Type, vars: seq<Value>, items: seq<Value>) returns (v: Value)
      requires Valid() && WellTyped(elem) && (kind.Map? ==> IsPair(elem))
      modifies this
      ensures Valid() && (old(failed) ==> failed) && old(pos) <= pos
      ensures !old(failed) ==>
                Reads(DecodeItem(kind, elem, vars, items, buffer[old(pos)..]), v, old(pos), pos, |buffer|, failed)
      decreases elem, 1
    {
      hide Decode, Default;
      match kind {
        case Vector =>
          v := Pop(elem, Slot(vars, |items|, elem));
        case Set =>
          v := Pop(elem, Default(elem));
        case Map =>
          PairTyped(elem);
          var k, t := elem.parts.head, elem.parts.tail.head;
          var key := Pop(k, Default(k));
          assert !failed ==> buffer[old(pos)..][pos - old(pos)..] == buffer[pos..];
          var at := ValueAt(items, key);
          var value := Pop(t, if at.Some? then at.value else Default(t));
          v := List([key, value]);
      }
    }

    /** n elements; a vector stops at a failure, sets and maps go on. */
    method PopMany(kind: Kind, elem: Type, n: nat, was: Value) returns (v: Value)
      requires Valid() && WellTyped(elem) && (kind.Map? ==> IsPair(elem))
      modifies this
      ensures Valid() && (old(failed) ==> failed) && old(pos) <= pos
      ensures !old(failed) ==>
                Reads(OfMany(DecodeMany(kind, elem, n, ItemsOf(was), Begin(kind, was), buffer[old(pos)..])), v,
                      old(pos), pos, |buffer|, failed)
      ensures n == 0 ==> pos == old(pos) && failed == old(failed)
      decreases elem, 2
    {
      hide DecodeItem, Enter, DecodeMany, ManyAt, Reads, OfMany, WellTyped;
      var vars, items := ItemsOf(was), Begin(kind, was);
      ghost var all := DecodeMany(kind, elem, n, vars, items, buffer[pos..]);
      ManyBegins(all, kind, elem, n, vars, items, buffer, pos, failed);
      for i := 0 to n
        invariant pos <= |buffer| && (old(failed) ==> failed) && old(pos) <= pos
        invariant i == 0 ==> pos == old(pos) && failed == old(failed)
        invariant !old(failed) ==> ManyAt(all, kind, elem, n - i, vars, items, buffer, old(pos), pos, failed)
      {
        ghost var here, before := pos, failed;
        var x := PopItem(kind, elem, vars, items);
        if !old(failed) {
          ManyGoesOn(all, kind, elem, n - i, vars, items, buffer, old(pos), here, before, x, pos, failed);
        }
        items := Enter(kind, items, x);
        if failed && kind.Vector? {
          if !old(failed) {
            ManyEnds(all, kind, elem, n - i - 1, vars, items, buffer, old(pos), pos, failed);
          }
          return List(items);
        }
      }
      v := List(items);
      if !old(failed) {
        ManyEnds(all, kind, elem, 0, vars, items, buffer, old(pos), pos, failed);
      }
    }

    method PopTuple(ts: Types, vars: seq<Value>) returns (items: seq<Value>)
      requires Valid() && AllTyped(ts)
      modifies this
      ensures Valid() && (old(failed) ==> failed) && old(pos) <= pos
      ensures !old(failed) ==>
                Reads(OfMany(DecodeAll(ts, vars, buffer[old(pos)..])), List(items), old(pos), pos, |buffer|, failed)
      decreases ts, 0
    {
      hide Decode, Default;
      match ts {
        case Nil =>
          items := [];
        case Cons(head, tail) =>
          var first := Pop(head, Slot(vars, 0, head));
          assert !failed ==> buffer[old(pos)..][pos - old(pos)..] == buffer[pos..];
          var rest := PopTuple(tail, Later(vars));
          items := [first] + rest;
      }
    }

    method PopOne(ts: Types, index: nat) returns (v: Value)
      requires Valid() && AllTyped(ts)
      modifies this
      ensures Valid() && (old(failed) ==> failed) && old(pos) <= pos
      ensures !old(failed) ==> Reads(DecodeOne(ts, index, buffer[old(pos)..]), v, old(pos), pos, |buffer|, failed)
      decreases ts, 0
    {
      hide Decode, Default;
      match ts {
        case Nil =>
          pos, failed := |buffer|, true;
          v := Absent;
        case Cons(head, tail) =>
          if index == 0 {
            v := Pop(head, Default(head));
          } else {
            v := PopOne(tail, index - 1);
          }
      }
    }
  }

  ghost function OfMany(r: GotMany): Got {
    if r.FailMany? then Fail else Got(List(r.items), r.size)
  }
}
