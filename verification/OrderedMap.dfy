/** The JavaScript `Map` (and plain object used as a map): lookup by key, iteration in order of first insertion. */
module OrderedMap {
  import opened Sequences

  datatype JsMap<K(==,!new), V> = JsMap(keys: seq<K>, at: map<K, V>) {

    ghost predicate Valid() {
      Distinct(keys) && forall k :: k in keys <==> k in at
    }

    function Set(k: K, v: V): (m: JsMap<K, V>)
      requires Valid()
      ensures m.Valid() && m.at == at[k := v]
      ensures m.keys == if k in at then keys else keys + [k]
    {
      JsMap(if k in at then keys else keys + [k], at[k := v])
    }
  }

  function Empty<K(==,!new), V>(): (m: JsMap<K, V>)
    ensures m.Valid() && m.keys == [] && m.at == map[]
  {
    JsMap([], map[])
  }
}
