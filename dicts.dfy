/** The dictionaries the recommender builds: plain JavaScript objects keyed by
    genre or tag name, and the `Map` keyed by media id. Both are modelled as
    remembering the order in which keys were first inserted, which is the
    order `Map.prototype.values` reports and the order `Object.entries`
    reports for keys that are not array indices; assigning to a key that is
    already present replaces its value without moving it. */
module Dicts {
  import opened Seqs

  datatype Dict<K(==,!new), V> = Dict(order: seq<K>, table: map<K, V>) {

    /** The keys in insertion order, each once, and exactly the keys of the table. */
    ghost predicate Valid() {
      && Distinct(order)
      && (forall k :: k in table <==> k in order)
    }

    /** `obj[k] = v` or `map.set(k, v)`. */
    function Set(k: K, v: V): (r: Dict<K, V>)
      ensures r.table == table[k := v]
      ensures r.order == if k in table then order else order + [k]
    {
      if k in table then Dict(order, table[k := v]) else Dict(order + [k], table[k := v])
    }

    /** `obj[k] || dflt`, for values where only the default itself is falsy. */
    function Get(k: K, dflt: V): V {
      if k in table then table[k] else dflt
    }

    /** `Object.values(obj)` or `Array.from(map.values())`. */
    function Values(): (vs: seq<V>)
      requires Valid()
      ensures |vs| == |order|
      ensures forall i :: 0 <= i < |order| ==> vs[i] == table[order[i]]
    {
      seq(|order|, i requires 0 <= i < |order| => table[order[i]])
    }
  }

  function Empty<K(==,!new), V>(): (d: Dict<K, V>)
    ensures d.Valid() && d.order == [] && d.table == map[]
  {
    Dict([], map[])
  }

  /** Assignment keeps the keys distinct and in step with the table. */
  lemma SetValid<K(!new), V>(d: Dict<K, V>, k: K, v: V)
    requires d.Valid()
    ensures d.Set(k, v).Valid()
  {
  }
}
