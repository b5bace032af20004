/** Option values and the ordered key/value lists that stand for the game's Python dicts
    (a room's `exits`), whose keys keep their insertion order. */
module Common {

  datatype Option<+T> = None | Some(value: T)

  /** `key in d` followed by `d[key]` on a dict written as an ordered list of pairs. */
  function Lookup<T>(pairs: seq<(string, T)>, key: string): (r: Option<T>)
    ensures r.None? <==> forall i :: 0 <= i < |pairs| ==> pairs[i].0 != key
    ensures r.Some? ==> exists i :: 0 <= i < |pairs| && pairs[i] == (key, r.value)
  {
    if pairs == [] then None
    else if pairs[0].0 == key then Some(pairs[0].1)
    else Lookup(pairs[1..], key)
  }

  /** The keys of such a list, in insertion order (Python's `d.keys()`). */
  function Keys<T>(pairs: seq<(string, T)>): (r: seq<string>)
    ensures |r| == |pairs|
    ensures forall i :: 0 <= i < |pairs| ==> r[i] == pairs[i].0
  {
    if pairs == [] then [] else [pairs[0].0] + Keys(pairs[1..])
  }
}
