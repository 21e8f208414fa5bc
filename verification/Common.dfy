/** Datatypes shared by every part of the model. */
module Common {

  datatype Option<+T> = None | Some(value: T)

  /** Element i of an oracle sequence, or d once the sequence is used up. */
  function At<T>(s: seq<T>, i: nat, d: T): T {
    if i < |s| then s[i] else d
  }

  /** Python's int() on a number: round toward zero. */
  function Trunc(x: real): int {
    if x >= 0.0 then x.Floor else -((-x).Floor)
  }

  lemma TruncMonotone(u: real, v: real)
    requires u <= v
    ensures Trunc(u) <= Trunc(v)
  {
  }

  ghost predicate NoDuplicates<T>(s: seq<T>) {
    forall i, j :: 0 <= i < j < |s| ==> s[i] != s[j]
  }

  /** The sequence s without the elements equal to x, order kept. */
  function Without<T(==,!new)>(s: seq<T>, x: T): (r: seq<T>)
    ensures forall y :: y in r <==> y in s && y != x
  {
    if s == [] then []
    else if s[0] == x then Without(s[1..], x)
    else [s[0]] + Without(s[1..], x)
  }

  lemma {:induction false} WithoutKeepsDistinct<T(!new)>(s: seq<T>, x: T)
    requires NoDuplicates(s)
    ensures NoDuplicates(Without(s, x))
  {
    if s != [] {
      WithoutKeepsDistinct(s[1..], x);
      assert s[0] !in s[1..];
    }
  }

  lemma RemoveKeepsExact<K(!new), V>(d: Dict<K, V>, k: K)
    requires d.Exact()
    ensures d.Remove(k).Exact()
  {
    WithoutKeepsDistinct(d.keys, k);
  }

  /** A Python dict: a finite map that remembers the order its keys were first inserted. */
  datatype Dict<K(==,!new), +V> = Dict(keys: seq<K>, vals: map<K, V>) {

    /** Every key listed has a value. */
    ghost predicate Valid() {
      forall k :: k in keys ==> k in vals
    }

    /** The list of keys is the domain of the map, each key once. */
    ghost predicate Exact() {
      NoDuplicates(keys) && forall k :: k in keys <==> k in vals
    }

    predicate Has(k: K) {
      k in vals
    }

    /** d[k] = v: an existing key keeps its place, a new key goes last. */
    function Put(k: K, v: V): (d: Dict<K, V>)
      ensures Valid() ==> d.Valid()
    {
      Dict(if k in vals then keys else keys + [k], vals[k := v])
    }

    /** del d[k] */
    function Remove(k: K): (d: Dict<K, V>)
      ensures Valid() ==> d.Valid()
    {
      Dict(Without(keys, k), vals - {k})
    }
  }
}
