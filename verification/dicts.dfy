/**
 Python's dict built from a sequence of (key, value) pairs, as a dict
 comprehension does: pairs are inserted in order, so a later pair with the
 same key overwrites an earlier one.
 */
module Dicts {

  /** The dict holding every pair of `kvs`, inserted in order. */
  function FromPairs<K, V>(kvs: seq<(K, V)>): (m: map<K, V>)
    ensures m.Keys == set i | 0 <= i < |kvs| :: kvs[i].0
    decreases |kvs|
  {
    if |kvs| == 0 then map[]
    else
      var init := kvs[..|kvs| - 1];
      var m0 := FromPairs(init);
      var m := m0[kvs[|kvs| - 1].0 := kvs[|kvs| - 1].1];
      assert m.Keys == set i | 0 <= i < |kvs| :: kvs[i].0 by {
        forall k | k in m.Keys ensures exists i :: 0 <= i < |kvs| && kvs[i].0 == k {
          if k != kvs[|kvs| - 1].0 {
            var i :| 0 <= i < |init| && init[i].0 == k;
            assert kvs[i].0 == k;
          }
        }
        forall i | 0 <= i < |kvs| ensures kvs[i].0 in m.Keys {
          if i < |kvs| - 1 {
            assert init[i].0 == kvs[i].0;
          }
        }
      }
      m
  }

  /** The value a key ends up with is the one of its last occurrence. */
  lemma {:induction false} FromPairsLastWins<K, V>(kvs: seq<(K, V)>, i: int)
    requires 0 <= i < |kvs|
    requires forall j :: i < j < |kvs| ==> kvs[j].0 != kvs[i].0
    ensures kvs[i].0 in FromPairs(kvs)
    ensures FromPairs(kvs)[kvs[i].0] == kvs[i].1
    decreases |kvs|
  {
    var init := kvs[..|kvs| - 1];
    if i < |kvs| - 1 {
      assert init[i] == kvs[i];
      FromPairsLastWins(init, i);
    }
  }
}
