/** Building a Python dict by assigning key/value pairs in order, as the
    collectors do for tags, health states and renamed keys: a later pair
    with the same key overwrites an earlier one. */
module Assoc {

  /** Pair `j` is the last one in `pairs` that carries its key. */
  ghost predicate IsLast<K, V>(pairs: seq<(K, V)>, j: int) {
    0 <= j < |pairs| && forall l :: j < l < |pairs| ==> pairs[l].0 != pairs[j].0
  }

  function Keys<K, V>(pairs: seq<(K, V)>): set<K> {
    set i | 0 <= i < |pairs| :: pairs[i].0
  }

  /** `d = {}` followed by `d[k] = v` for each pair in order. */
  function ToMap<K, V>(pairs: seq<(K, V)>): (m: map<K, V>)
    ensures m.Keys == Keys(pairs)
    ensures forall j :: IsLast(pairs, j) ==> m[pairs[j].0] == pairs[j].1
  {
    if |pairs| == 0 then map[]
    else
      var init := pairs[..|pairs| - 1];
      var last := pairs[|pairs| - 1];
      KeysSnoc(pairs);
      IsLastOfInit(pairs);
      ToMap(init)[last.0 := last.1]
  }

  /** The keys of a non-empty sequence are those of all but its last pair, and the last key. */
  lemma KeysSnoc<K, V>(pairs: seq<(K, V)>)
    requires |pairs| > 0
    ensures Keys(pairs) == Keys(pairs[..|pairs| - 1]) + {pairs[|pairs| - 1].0}
  {
    var init := pairs[..|pairs| - 1];
    forall i | 0 <= i < |pairs| ensures pairs[i].0 in Keys(init) + {pairs[|pairs| - 1].0} {
      if i < |pairs| - 1 {
        assert init[i] == pairs[i];
      }
    }
  }

  /** A pair that is last for its key stays last when the final pair is dropped. */
  lemma IsLastOfInit<K, V>(pairs: seq<(K, V)>)
    requires |pairs| > 0
    ensures forall j :: IsLast(pairs, j) && j < |pairs| - 1 ==> IsLast(pairs[..|pairs| - 1], j)
  {
  }

  /** Every entry of the dict is one of the assigned pairs. */
  lemma {:induction false} ToMapPairsIn<K, V>(pairs: seq<(K, V)>)
    ensures forall k :: k in ToMap(pairs) ==> (k, ToMap(pairs)[k]) in pairs
  {
    if |pairs| > 0 {
      var init := pairs[..|pairs| - 1];
      ToMapPairsIn(init);
      assert forall p :: p in init ==> p in pairs;
    }
  }
}
