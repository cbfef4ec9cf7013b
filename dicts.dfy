/** Python dicts with string keys, as association lists kept in insertion order. */
module Dicts {
  import opened Errors

  type Dict<V> = seq<(string, V)>

  /** `d.keys()`, in insertion order. */
  function Keys<V>(d: Dict<V>): (ks: seq<string>)
    ensures |ks| == |d|
    ensures forall i :: 0 <= i < |d| ==> ks[i] == d[i].0
  {
    seq(|d|, i requires 0 <= i < |d| => d[i].0)
  }

  /** No key occurs twice, as in every Python dict. */
  predicate UniqueKeys<V>(d: Dict<V>) {
    forall i, j :: 0 <= i < j < |d| ==> d[i].0 != d[j].0
  }

  /** `d[key]`; `None` where Python raises `KeyError`. */
  function Get<V>(d: Dict<V>, key: string): (r: Option<V>)
    ensures r.Some? <==> key in Keys(d)
    ensures r.Some? ==> (key, r.value) in d
    ensures UniqueKeys(d) ==> forall i :: 0 <= i < |d| && d[i].0 == key ==> r == Some(d[i].1)
  {
    if d == [] then None
    else if d[0].0 == key then Some(d[0].1)
    else
      assert Keys(d) == [d[0].0] + Keys(d[1..]);
      Get(d[1..], key)
  }

  /** `sep.join(parts)`. */
  function Join(parts: seq<string>, sep: string): string {
    if |parts| == 0 then ""
    else if |parts| == 1 then parts[0]
    else parts[0] + sep + Join(parts[1..], sep)
  }
}
