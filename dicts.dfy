/**
 * Python dictionaries. A `dict` iterates in the order its keys were first
 * inserted, and several decisions of the planner (the first treatment key,
 * the tie-break between equal similarity scores) depend on that order, so a
 * dictionary is a map together with the sequence of its keys.
 */
module Dicts {

  datatype Dict<K(==), V> = Dict(keys: seq<K>, values: map<K, V>) {

    /** Every key is listed once, and the listed keys are exactly the map's keys. */
    predicate Valid() {
      && (forall i, j :: 0 <= i < j < |keys| ==> keys[i] != keys[j])
      && values.Keys == set k | k in keys
    }

    /** `d.get(k, default)`. */
    function Get(k: K, default: V): V {
      if k in values then values[k] else default
    }

    /** `d[k] = v`: an existing key keeps its position, a new key goes last. */
    function Set(k: K, v: V): (d: Dict<K, V>)
      requires Valid()
      ensures d.Valid()
      ensures d.values == values[k := v]
      ensures d.keys == if k in values then keys else keys + [k]
    {
      if k in values then Dict(keys, values[k := v]) else Dict(keys + [k], values[k := v])
    }
  }

  function Empty<K(==), V>(): (d: Dict<K, V>)
    ensures d.Valid() && d.keys == []
  {
    Dict([], map[])
  }

  /** The keys of a sequence of pairs, in order. */
  function Firsts<K, V>(pairs: seq<(K, V)>): (ks: seq<K>)
    ensures |ks| == |pairs|
    ensures forall i :: 0 <= i < |pairs| ==> ks[i] == pairs[i].0
  {
    if pairs == [] then [] else Firsts(pairs[..|pairs| - 1]) + [pairs[|pairs| - 1].0]
  }

  predicate Distinct<K(==)>(ks: seq<K>) {
    forall i, j :: 0 <= i < j < |ks| ==> ks[i] != ks[j]
  }

  /** `{k: v for k, v in pairs}`: pairs are inserted left to right, so a repeated key keeps its first position and its last value. */
  function FromPairs<K(==), V>(pairs: seq<(K, V)>): (d: Dict<K, V>)
    ensures d.Valid()
  {
    if pairs == [] then Empty()
    else FromPairs(pairs[..|pairs| - 1]).Set(pairs[|pairs| - 1].0, pairs[|pairs| - 1].1)
  }

  /** A key missing from the listed keys of a valid dictionary is missing from its map too. */
  lemma NotListedNotMapped<K, V>(d: Dict<K, V>, k: K)
    requires d.Valid() && k !in d.keys
    ensures k !in d.values
  {
  }

  /** No two pairs share a key. */
  predicate DistinctKeys<K(==), V>(pairs: seq<(K, V)>) {
    forall i, j :: 0 <= i < j < |pairs| ==> pairs[i].0 != pairs[j].0
  }

  /** Pairs with distinct keys are inserted in order, each key keeping its own value. */
  lemma {:induction false} FromPairsInOrder<K, V>(pairs: seq<(K, V)>)
    requires DistinctKeys(pairs)
    ensures FromPairs(pairs).keys == Firsts(pairs)
    ensures forall i :: 0 <= i < |pairs| ==> pairs[i].0 in FromPairs(pairs).values && FromPairs(pairs).values[pairs[i].0] == pairs[i].1
  {
    if pairs != [] {
      var n := |pairs| - 1;
      var init, last := pairs[..n], pairs[n];
      assert DistinctKeys(init) by {
        forall i, j | 0 <= i < j < n ensures init[i].0 != init[j].0 {
          assert init[i] == pairs[i] && init[j] == pairs[j];
        }
      }
      FromPairsInOrder(init);
      var d0 := FromPairs(init);
      assert last.0 !in d0.keys by {
        forall j | 0 <= j < n ensures d0.keys[j] != last.0 {
          assert d0.keys[j] == init[j].0 == pairs[j].0;
        }
      }
      assert Firsts(pairs) == Firsts(init) + [last.0];
      NotListedNotMapped(d0, last.0);
      assert FromPairs(pairs) == d0.Set(last.0, last.1);
      forall i | 0 <= i < n
        ensures pairs[i].0 in FromPairs(pairs).values && FromPairs(pairs).values[pairs[i].0] == pairs[i].1
      {
        assert init[i] == pairs[i];
        assert pairs[i].0 != last.0;
      }
    }
  }

  /** Distinct keys, stated on the pairs themselves. */
  lemma DistinctFirsts<K, V>(pairs: seq<(K, V)>)
    requires Distinct(Firsts(pairs))
    ensures DistinctKeys(pairs)
  {
    var ks := Firsts(pairs);
    forall i, j | 0 <= i < j < |pairs| ensures pairs[i].0 != pairs[j].0 {
      assert ks[i] != ks[j];
    }
  }

  /** When the keys of `pairs` are distinct, the comprehension keeps their order and pairs each key with its own value. */
  lemma FromPairsDistinct<K, V>(pairs: seq<(K, V)>)
    requires Distinct(Firsts(pairs))
    ensures FromPairs(pairs).keys == Firsts(pairs)
    ensures forall i :: 0 <= i < |pairs| ==> FromPairs(pairs).values[pairs[i].0] == pairs[i].1
  {
    DistinctFirsts(pairs);
    FromPairsInOrder(pairs);
  }
}
