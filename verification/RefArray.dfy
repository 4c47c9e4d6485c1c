/** An allocator of ids for values, with reference counts (`refarray_t`). */
module RefArray {
  import opened Base

  /** Reference count and id of a value. */
  datatype Entry = Entry(count: nat, id: nat)

  /** Every value has an id of its own, and the other way round. */
  ghost predicate Bijective<V(!new)>(values: map<V, Entry>, ids: map<nat, V>) {
    && (forall v | v in values :: values[v].count >= 1 && values[v].id in ids && ids[values[v].id] == v)
    && (forall i | i in ids :: ids[i] in values && values[ids[i]].id == i)
  }

  /** Every id below the watermark is either in use or free, and it is free once. */
  ghost predicate FreeList<V(!new)>(ids: map<nat, V>, unused: seq<nat>, watermark: nat) {
    && (forall i: nat :: i in ids ==> i < watermark && i !in unused)
    && (forall i: nat | i < watermark :: i in ids || i in unused)
    && (forall j, k | 0 <= j < |unused| && 0 <= k < |unused| && unused[j] == unused[k] :: j == k)
    && (forall i | i in unused :: i < watermark)
  }

  lemma BindMore<V(!new)>(values: map<V, Entry>, ids: map<nat, V>, v: V, id: nat)
    requires Bijective(values, ids) && v !in values && id !in ids
    ensures Bijective(values[v := Entry(1, id)], ids[id := v])
  {
  }

  lemma BindLess<V(!new)>(values: map<V, Entry>, ids: map<nat, V>, v: V)
    requires Bijective(values, ids) && v in values
    ensures Bijective(values - {v}, ids - {values[v].id})
  {
  }

  lemma Recount<V(!new)>(values: map<V, Entry>, ids: map<nat, V>, v: V, count: nat)
    requires Bijective(values, ids) && v in values && count >= 1
    ensures Bijective(values[v := Entry(count, values[v].id)], ids)
  {
  }

  lemma TakeFree<V(!new)>(ids: map<nat, V>, unused: seq<nat>, watermark: nat, v: V)
    requires FreeList(ids, unused, watermark) && unused != []
    ensures var id := unused[|unused| - 1];
            id < watermark && id !in ids
            && FreeList(ids[id := v], unused[..|unused| - 1], watermark)
  {
    var id, rest := unused[|unused| - 1], unused[..|unused| - 1];
    assert unused == rest + [id];
    assert forall i :: i in unused <==> i in rest || i == id;
    assert id !in rest;
    assert forall j | 0 <= j < |rest| :: rest[j] == unused[j];
  }

  lemma TakeNew<V(!new)>(ids: map<nat, V>, watermark: nat, v: V)
    requires FreeList(ids, [], watermark)
    ensures watermark !in ids && FreeList(ids[watermark := v], [], watermark + 1)
  {
  }

  lemma GiveBack<V(!new)>(ids: map<nat, V>, unused: seq<nat>, watermark: nat, id: nat)
    requires FreeList(ids, unused, watermark) && id in ids
    ensures FreeList(ids - {id}, unused + [id], watermark)
  {
  }

  class Allocator<V(==, !new)> {
    const size: nat
    var unused: seq<nat>
    var watermark: nat
    var values: map<V, Entry>
    var ids: map<nat, V>
    var unusedSize: nat

    /**
      Ids in use and values are in bijection, every id below the watermark is in use or free, and the free
      ones are counted.
    */
    ghost predicate Valid()
      reads this
    {
      Bijective(values, ids) && FreeList(ids, unused, watermark) && watermark <= size && |ids| + |unused| == watermark
      && unusedSize + |ids| == size
    }

    constructor (size: nat)
      ensures Valid() && this.size == size && values == map[] && ids == map[]
    {
      this.size := size;
      unused, watermark, values, ids, unusedSize := [], 0, map[], map[], size;
    }

    /** `update` */
    method Update(v: V) returns (known: bool)
      requires Valid()
      modifies this`values
      ensures Valid() && known == (v in old(values))
      ensures values == if known then old(values)[v := Entry(old(values)[v].count + 1, old(values)[v].id)]
                        else old(values)
    {
      hide Bijective, FreeList;
      known := v in values;
      if known {
        Recount(values, ids, v, values[v].count + 1);
        values := values[v := Entry(values[v].count + 1, values[v].id)];
      }
    }

    /** `insert` of a new value: None only if all ids are in use. */
    method Insert(v: V) returns (r: Option<nat>)
      requires Valid() && v !in values
      modifies this
      ensures Valid() && (r.None? <==> |old(ids)| == size)
      ensures r.None? ==> values == old(values) && ids == old(ids)
      ensures r.Some? ==> r.value < size && r.value !in old(ids)
      ensures r.Some? ==> values == old(values)[v := Entry(1, r.value)] && ids == old(ids)[r.value := v]
    {
      hide Bijective, FreeList;
      if unused == [] && watermark == size {
        return None;
      }
      var id := watermark;
      if unused != [] {
        id := unused[|unused| - 1];
        TakeFree(ids, unused, watermark, v);
        unused := unused[..|unused| - 1];
      } else {
        TakeNew(ids, watermark, v);
        watermark := watermark + 1;
      }
      BindMore(values, ids, v, id);
      unusedSize := unusedSize - 1;
      values := values[v := Entry(1, id)];
      ids := ids[id := v];
      return Some(id);
    }

    /** `update_or_insert` */
    method UpdateOrInsert(v: V) returns (r: Option<nat>)
      requires Valid()
      modifies this
      ensures Valid() && (r.None? <==> v !in old(values) && |old(ids)| == size)
      ensures r.None? ==> values == old(values) && ids == old(ids)
      ensures r.Some? && v in old(values) ==> r.value == old(values)[v].id && ids == old(ids)
      ensures r.Some? && v in old(values) ==> values == old(values)[v := Entry(old(values)[v].count + 1, r.value)]
      ensures r.Some? && v !in old(values) ==> r.value !in old(ids) && ids == old(ids)[r.value := v]
      ensures r.Some? && v !in old(values) ==> values == old(values)[v := Entry(1, r.value)]
    {
      hide Bijective, FreeList;
      if v in values {
        Recount(values, ids, v, values[v].count + 1);
        values := values[v := Entry(values[v].count + 1, values[v].id)];
        return Some(values[v].id);
      }
      r := Insert(v);
    }

    /** The id and its value are given back. */
    method Release(v: V)
      requires Valid() && v in values
      modifies this
      ensures Valid() && values == old(values) - {v} && ids == old(ids) - {old(values)[v].id}
    {
      var id := values[v].id;
      Smaller(ids, id);
      GiveBack(ids, unused, watermark, id);
      BindLess(values, ids, v);
      hide Bijective, FreeList;
      unusedSize := unusedSize + 1;
      unused := unused + [id];
      values := values - {v};
      ids := ids - {id};
    }

    /** `remove_value`: the id, if this was the last reference. */
    method RemoveValue(v: V) returns (r: Option<nat>)
      requires Valid()
      modifies this
      ensures Valid() && (r.Some? <==> v in old(values) && old(values)[v].count == 1)
      ensures r.Some? ==> r.value == old(values)[v].id && values == old(values) - {v} && ids == old(ids) - {r.value}
      ensures r.None? ==> ids == old(ids)
      ensures r.None? ==> values == if v in old(values) then Lowered(old(values), v) else old(values)
    {
      if v !in values {
        return None;
      }
      assert values[v].count >= 1;
      hide Bijective, FreeList;
      if values[v].count > 1 {
        Recount(values, ids, v, values[v].count - 1);
        values := values[v := Entry(values[v].count - 1, values[v].id)];
        return None;
      }
      r := Some(values[v].id);
      Release(v);
    }

    /** `remove_id`: the value, if this was the last reference. */
    method RemoveId(id: nat) returns (r: Option<V>)
      requires Valid()
      modifies this
      ensures Valid() && (r.Some? <==> id in old(ids) && old(values)[old(ids)[id]].count == 1)
      ensures r.Some? ==> r.value == old(ids)[id] && values == old(values) - {r.value} && ids == old(ids) - {id}
      ensures r.None? ==> ids == old(ids)
      ensures r.None? ==> values == if id in old(ids) then Lowered(old(values), old(ids)[id]) else old(values)
    {
      if id !in ids {
        return None;
      }
      var v := ids[id];
      assert v in values && values[v].id == id && values[v].count >= 1;
      hide Bijective, FreeList;
      if values[v].count > 1 {
        Recount(values, ids, v, values[v].count - 1);
        values := values[v := Entry(values[v].count - 1, id)];
        return None;
      }
      Release(v);
      return Some(v);
    }
  }

  /** One reference less. */
  function Lowered<V(==)>(values: map<V, Entry>, v: V): map<V, Entry>
    requires v in values && values[v].count > 0
  {
    values[v := Entry(values[v].count - 1, values[v].id)]
  }

  lemma Smaller<K, V>(m: map<K, V>, k: K)
    requires k in m
    ensures |m| == |m - {k}| + 1
  {
    var rest := m - {k};
    assert m.Keys == rest.Keys + {k};
    assert |m| == |m.Keys| && |rest| == |rest.Keys|;
  }
}
