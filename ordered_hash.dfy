/** Ruby's Hash keeps its keys in insertion order, and `each` visits them in
    that order: an ordered map is a key sequence beside a map. */
module OrderedHash {
  import opened Sequences

  datatype OrderedMap<K(==,!new), V> = OrderedMap(keys: seq<K>, entries: map<K, V>)
  {
    ghost predicate Valid()
    {
      Distinct(keys) && forall k :: k in entries <==> k in keys
    }

    /** `hash[k] = v`: a new key goes last, an existing key keeps its place. */
    function Put(k: K, v: V): (m: OrderedMap<K, V>)
      ensures Valid() ==> m.Valid()
      ensures m.entries == entries[k := v]
      ensures m.keys == if k in entries then keys else keys + [k]
    {
      OrderedMap(if k in entries then keys else keys + [k], entries[k := v])
    }
  }

  function Empty<K(==,!new), V>(): (m: OrderedMap<K, V>)
    ensures m.Valid() && m.keys == [] && m.entries == map[]
  {
    OrderedMap([], map[])
  }

  /** A hash whose keys came from `xs` in first-appearance order has, after
      storing under `k`, the keys of `xs + [k]` in that order. */
  lemma PutKeys<K(!new), V>(m: OrderedMap<K, V>, xs: seq<K>, k: K, v: V)
    requires m.Valid() && m.keys == Dedup(xs)
    ensures m.Put(k, v).keys == Dedup(xs + [k])
  {
    DedupAppend(xs, k);
    if k in xs {
      var i :| 0 <= i < |xs| && xs[i] == k;
    }
    if k in m.keys {
      var i :| 0 <= i < |m.keys| && m.keys[i] == k;
    }
  }
}
