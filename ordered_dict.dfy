/**
 * A Python dictionary with string keys: a map plus the order in which its
 * keys were inserted. Iteration and stable sorts over a dictionary see the
 * keys in that order, so the order is part of the model.
 */
module OrderedDict {

  /** No element occurs twice. */
  ghost predicate Distinct(s: seq<string>)
  {
    forall x :: multiset(s)[x] <= 1
  }

  /** In a sequence without repeats, an element occurs at one index only. */
  lemma DistinctAt(s: seq<string>, i: nat)
    requires Distinct(s) && i < |s|
    ensures s[i] !in s[..i]
    ensures forall j :: 0 <= j < |s| && j != i ==> s[j] != s[i]
  {
    var x := s[i];
    assert s == s[..i] + [x] + s[i + 1..];
    assert multiset(s)[x] == multiset(s[..i])[x] + 1 + multiset(s[i + 1..])[x];
    assert multiset(s[..i])[x] == 0 && multiset(s[i + 1..])[x] == 0;
    forall j | 0 <= j < |s| && j != i
      ensures s[j] != x
    {
      if j < i {
        assert s[j] in multiset(s[..i]);
      } else {
        assert s[j] in multiset(s[i + 1..]);
      }
    }
  }

  lemma DistinctPrefix(s: seq<string>, i: nat)
    requires Distinct(s) && i <= |s|
    ensures Distinct(s[..i])
  {
    assert s == s[..i] + s[i..];
    assert multiset(s) == multiset(s[..i]) + multiset(s[i..]);
    forall x
      ensures multiset(s[..i])[x] <= 1
    {
      assert multiset(s)[x] == multiset(s[..i])[x] + multiset(s[i..])[x];
    }
  }

  datatype Dict<V> = Dict(keys: seq<string>, vals: map<string, V>)
  {
    /** The keys are listed once each, and exactly the keys of the map are listed. */
    ghost predicate Valid()
    {
      Distinct(keys) && forall k :: k in vals <==> k in keys
    }
  }

  /** `{}` */
  function Empty<V>(): (d: Dict<V>)
    ensures d.Valid() && d.keys == [] && d.vals == map[]
  {
    Dict([], map[])
  }

  /** `d[k] = v`: a new key goes to the end, an existing key keeps its place. */
  function Put<V>(d: Dict<V>, k: string, v: V): (r: Dict<V>)
    requires d.Valid()
    ensures r.Valid()
    ensures r.vals == d.vals[k := v]
    ensures k in d.vals ==> r.keys == d.keys
    ensures k !in d.vals ==> r.keys == d.keys + [k]
  {
    if k in d.vals then Dict(d.keys, d.vals[k := v])
    else
      assert multiset(d.keys + [k]) == multiset(d.keys) + multiset{k};
      Dict(d.keys + [k], d.vals[k := v])
  }

  /** The keys of `s` other than `k`, in order. */
  function Without(s: seq<string>, k: string): (r: seq<string>)
    ensures forall x :: x in r <==> x in s && x != k
    ensures multiset(r) <= multiset(s)
    ensures k !in s ==> r == s
  {
    if s == [] then []
    else
      var last := s[|s| - 1];
      assert s == s[..|s| - 1] + [last];
      Without(s[..|s| - 1], k) + (if last == k then [] else [last])
  }

  /** `del d[k]`: the other keys keep their order. */
  function Delete<V>(d: Dict<V>, k: string): (r: Dict<V>)
    requires d.Valid()
    ensures r.Valid()
    ensures r.vals == d.vals - {k}
    ensures r.keys == Without(d.keys, k)
  {
    Dict(Without(d.keys, k), d.vals - {k})
  }
}
