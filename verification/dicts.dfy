/** Python dictionaries with string keys, as the `get_*_data` functions of
    facebook_downloader/downloader.py build them: `items()` iterates in the
    order keys were first inserted, and assigning to an existing key
    replaces its value without moving it. */
module Dicts {

  datatype Dict<V> = Dict(keys: seq<string>, entries: map<string, V>) {
    /** `keys` lists every key of `entries` once, in insertion order. */
    ghost predicate Valid() {
      && (forall i, j :: 0 <= i < j < |keys| ==> keys[i] != keys[j])
      && (forall k :: k in entries <==> k in keys)
    }
  }

  function Empty<V>(): (d: Dict<V>)
    ensures d.Valid() && d.keys == [] && d.entries == map[]
  {
    Dict([], map[])
  }

  /** `d[k] = v`: a new key is appended to the iteration order; an existing
      key keeps its place and gets the new value. */
  function Insert<V>(d: Dict<V>, k: string, v: V): (r: Dict<V>)
    requires d.Valid()
    ensures r.Valid()
    ensures r.entries == d.entries[k := v]
    ensures |r.keys| == if k in d.entries then |d.keys| else |d.keys| + 1
    ensures forall i :: 0 <= i < |d.keys| ==> r.keys[i] == d.keys[i]
  {
    if k in d.entries then Dict(d.keys, d.entries[k := v])
    else Dict(d.keys + [k], d.entries[k := v])
  }

  /** The dict a loop `for x in xs: result[key(x)] = value(x)` leaves,
      given the pairs `(key(x), value(x))` in loop order. */
  function FromPairs<V>(pairs: seq<(string, V)>): (d: Dict<V>)
    ensures d.Valid()
  {
    if pairs == [] then Empty()
    else
      var last := pairs[|pairs| - 1];
      Insert(FromPairs(pairs[..|pairs| - 1]), last.0, last.1)
  }

  /** The keys are exactly the keys of the pairs. */
  lemma {:induction false} FromPairsKeys<V>(pairs: seq<(string, V)>, k: string)
    ensures k in FromPairs(pairs).entries <==> exists i :: 0 <= i < |pairs| && pairs[i].0 == k
  {
    if pairs != [] {
      var n := |pairs| - 1;
      FromPairsKeys(pairs[..n], k);
      assert forall i :: 0 <= i < n ==> pairs[..n][i] == pairs[i];
    }
  }

  /** A key maps to the value of its last pair: a later assignment
      overwrites an earlier one. */
  lemma {:induction false} FromPairsLastWins<V>(pairs: seq<(string, V)>, i: nat)
    requires i < |pairs|
    requires forall j :: i < j < |pairs| ==> pairs[j].0 != pairs[i].0
    ensures pairs[i].0 in FromPairs(pairs).entries
    ensures FromPairs(pairs).entries[pairs[i].0] == pairs[i].1
  {
    var n := |pairs| - 1;
    if i < n {
      var init := pairs[..n];
      assert forall j :: i < j < n ==> init[j] == pairs[j];
      FromPairsLastWins(init, i);
    }
  }

  /** A key's place in the iteration order is fixed by its first pair: keys
      whose first pairs come in some order are iterated in that order. */
  lemma {:induction false} FromPairsOrder<V>(pairs: seq<(string, V)>, i: nat, j: nat)
    requires i < j < |pairs|
    requires forall p :: 0 <= p < i ==> pairs[p].0 != pairs[i].0
    requires forall p :: 0 <= p < j ==> pairs[p].0 != pairs[j].0
    ensures exists a, b ::
              && 0 <= a < b < |FromPairs(pairs).keys|
              && FromPairs(pairs).keys[a] == pairs[i].0
              && FromPairs(pairs).keys[b] == pairs[j].0
  {
    var n := |pairs| - 1;
    var init := pairs[..n];
    var d := FromPairs(init);
    var r := FromPairs(pairs);
    assert r == Insert(d, pairs[n].0, pairs[n].1);
    assert init[i] == pairs[i];
    if j < n {
      assert init[j] == pairs[j];
      assert forall p :: 0 <= p < i ==> init[p].0 != init[i].0 by {
        forall p | 0 <= p < i ensures init[p].0 != init[i].0 { assert init[p] == pairs[p]; }
      }
      assert forall p :: 0 <= p < j ==> init[p].0 != init[j].0 by {
        forall p | 0 <= p < j ensures init[p].0 != init[j].0 { assert init[p] == pairs[p]; }
      }
      FromPairsOrder(init, i, j);
      var a, b :| 0 <= a < b < |d.keys| && d.keys[a] == init[i].0 && d.keys[b] == init[j].0;
      assert r.keys[a] == pairs[i].0 && r.keys[b] == pairs[j].0;
    } else {
      FromPairsKeys(init, pairs[i].0);
      var a :| 0 <= a < |d.keys| && d.keys[a] == pairs[i].0;
      FromPairsKeys(init, pairs[j].0);
      assert pairs[j].0 !in d.entries;
      assert r.keys == d.keys + [pairs[j].0];
      assert r.keys[a] == pairs[i].0 && r.keys[|d.keys|] == pairs[j].0;
    }
  }
}
