/** An insertion-ordered dictionary with string keys: the semantics of a Python `dict`. */
module Ordered {
  import opened Text

  /** `keys` lists the keys in insertion order; `values` holds the entry of each. */
  datatype Dict<V> = Dict(keys: seq<string>, values: map<string, V>)

  /** The two views agree and no key is listed twice. */
  ghost predicate Valid<V>(d: Dict<V>) {
    && Distinct(d.keys)
    && (forall k :: k in d.values <==> k in d.keys)
  }

  function Empty<V>(): (r: Dict<V>)
    ensures Valid(r) && r.keys == [] && r.values == map[]
  {
    Dict([], map[])
  }

  /**
   * `d[k] = v`: a new key goes to the end of the order, an existing key keeps its place
   * and only its value changes.
   */
  function Put<V>(d: Dict<V>, k: string, v: V): (r: Dict<V>)
    requires Valid(d)
    ensures Valid(r)
    ensures r.values == d.values[k := v]
    ensures r.keys == if k in d.values then d.keys else d.keys + [k]
  {
    if k in d.values then d.(values := d.values[k := v])
    else Dict(d.keys + [k], d.values[k := v])
  }
}
