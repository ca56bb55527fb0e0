/**
 * The decoded configuration document: the nested value a YAML decoder hands to the
 * configuration code. Mappings keep their insertion order, as Python dictionaries do.
 */
module Document {
  import opened Wrappers

  /** `Scalar` stands for every number and boolean; their values play no role in the model. */
  datatype Value =
    | Null
    | Scalar
    | Str(s: string)
    | List(items: seq<Value>)
    | Dict(entries: seq<(string, Value)>)

  type Entries = seq<(string, Value)>

  /** The keys of a mapping, in insertion order. */
  function Keys(es: Entries): (ks: seq<string>)
    ensures |ks| == |es|
    ensures forall i :: 0 <= i < |es| ==> ks[i] == es[i].0
  {
    if es == [] then [] else [es[0].0] + Keys(es[1..])
  }

  /** `d.get(k)`: the value bound to `k`, if any. */
  function Lookup(es: Entries, k: string): (r: Option<Value>)
    ensures r.Some? <==> k in Keys(es)
  {
    if es == [] then None else if es[0].0 == k then Some(es[0].1) else Lookup(es[1..], k)
  }

  /** `d.get(k)` looks at the first binding, then at the rest. */
  lemma LookupCons(e: (string, Value), rest: Entries, k: string)
    ensures Lookup([e] + rest, k) == if e.0 == k then Some(e.1) else Lookup(rest, k)
  {
    assert ([e] + rest)[0] == e && ([e] + rest)[1..] == rest;
  }

  /** `d[k] = v`: rebinds `k` in place when present, otherwise appends the new binding. */
  function Put(es: Entries, k: string, v: Value): (r: Entries)
    ensures k in Keys(es) ==> Keys(r) == Keys(es)
    ensures k !in Keys(es) ==> r == es + [(k, v)]
    ensures Lookup(r, k) == Some(v)
    ensures forall k' :: k' != k ==> Lookup(r, k') == Lookup(es, k')
  {
    if es == [] then [(k, v)]
    else if es[0].0 == k then [(k, v)] + es[1..]
    else [es[0]] + Put(es[1..], k, v)
  }

  /** Every value of the mapping is itself a mapping (true of the empty mapping). */
  predicate AllDicts(es: Entries) {
    forall i :: 0 <= i < |es| ==> es[i].1.Dict?
  }

  /** A prefix one longer is the prefix followed by the next element. */
  lemma TakeSnoc<T>(s: seq<T>, j: nat)
    requires j < |s|
    ensures s[..j + 1] == s[..j] + [s[j]]
  {
  }
}
