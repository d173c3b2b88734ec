/**
 * A JavaScript object used as a dictionary with string keys. Such an object enumerates
 * (`Object.values`, `Object.entries`) its keys in the order they were first inserted;
 * assigning to an existing key keeps its place.
 */
module Dicts {
  import opened Sequences

  datatype Dict<V> = Dict(keys: seq<string>, values: map<string, V>) {

    /** Each key is listed once, and the listed keys are exactly the keys with a value. */
    ghost predicate Valid() {
      Distinct(keys) && forall k :: k in values <==> k in keys
    }

    /** `obj[k] = v`. */
    function Put(k: string, v: V): (d: Dict<V>)
      requires Valid()
      ensures d.Valid()
      ensures d.values == values[k := v]
      ensures d.keys == if k in values then keys else keys + [k]
    {
      Dict(if k in values then keys else keys + [k], values[k := v])
    }

    /** Writing back the value a key already has changes nothing. */
    lemma PutSame(k: string)
      requires Valid() && k in values
      ensures Put(k, values[k]) == this
    {
    }

    /** A second write to a key overrides the first, and the key keeps its first place. */
    lemma PutTwice(k: string, v: V, w: V)
      requires Valid()
      ensures Put(k, v).Put(k, w) == Put(k, w)
    {
    }

    /** `Object.values(obj)`. */
    function Values(): (vs: seq<V>)
      requires Valid()
      ensures |vs| == |keys|
      ensures forall i :: 0 <= i < |keys| ==> vs[i] == values[keys[i]]
    {
      seq(|keys|, i requires 0 <= i < |keys| => values[keys[i]])
    }
  }

  /** `{}`. */
  function EmptyOf<V>(): (d: Dict<V>)
    ensures d.Valid() && d.keys == []
  {
    Dict([], map[])
  }
}
