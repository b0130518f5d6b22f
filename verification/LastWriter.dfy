/** Maps filled by successive insertions, as Rust's HashMap::insert does: a later pair
    with the same key replaces an earlier one. */
module LastWriter {

  function Inserted<K, V>(pairs: seq<(K, V)>): map<K, V> {
    if pairs == [] then map[]
    else Inserted(pairs[..|pairs|-1])[pairs[|pairs|-1].0 := pairs[|pairs|-1].1]
  }

  /** Pair i is the last one written for its key. */
  ghost predicate IsLast<K, V>(pairs: seq<(K, V)>, i: nat)
    requires i < |pairs|
  {
    forall j :: i < j < |pairs| ==> pairs[j].0 != pairs[i].0
  }

  lemma InsertedSnoc<K, V>(pairs: seq<(K, V)>, pair: (K, V))
    ensures Inserted(pairs + [pair]) == Inserted(pairs)[pair.0 := pair.1]
  {
    assert (pairs + [pair])[..|pairs|] == pairs;
  }

  /** The key of a lookup always has a last writer, and its value is the map's value. */
  lemma {:induction false} InsertedHasLast<K, V>(pairs: seq<(K, V)>, key: K) returns (i: nat)
    requires key in Inserted(pairs)
    ensures i < |pairs| && pairs[i].0 == key && IsLast(pairs, i) && Inserted(pairs)[key] == pairs[i].1
  {
    var n := |pairs| - 1;
    if pairs[n].0 == key {
      i := n;
    } else {
      i := InsertedHasLast(pairs[..n], key);
      assert pairs[..n][i] == pairs[i];
      forall j | i < j < |pairs| ensures pairs[j].0 != pairs[i].0 {
        if j < n {
          assert pairs[..n][j] == pairs[j];
        }
      }
    }
  }

  lemma {:induction false} InsertedContains<K, V>(pairs: seq<(K, V)>, i: nat)
    requires i < |pairs|
    ensures pairs[i].0 in Inserted(pairs)
    ensures IsLast(pairs, i) ==> Inserted(pairs)[pairs[i].0] == pairs[i].1
  {
    var n := |pairs| - 1;
    if i < n {
      InsertedContains(pairs[..n], i);
      assert pairs[..n][i] == pairs[i];
      if IsLast(pairs, i) {
        assert pairs[n].0 != pairs[i].0;
        forall j | i < j < n ensures pairs[..n][j].0 != pairs[..n][i].0 {
          assert pairs[j].0 != pairs[i].0;
        }
      }
    }
  }

  /** A pair stays in the map as long as its key is given no other value. */
  lemma {:induction false} StillInserted<K, V>(pairs: seq<(K, V)>, later: seq<(K, V)>, pair: (K, V))
    requires forall p :: p in later ==> p.0 == pair.0 ==> p == pair
    requires pair.0 in Inserted(pairs) && Inserted(pairs)[pair.0] == pair.1
    ensures pair.0 in Inserted(pairs + later) && Inserted(pairs + later)[pair.0] == pair.1
  {
    if later == [] {
      assert pairs + later == pairs;
    } else {
      var n := |later| - 1;
      StillInserted(pairs, later[..n], pair);
      assert pairs + later == (pairs + later[..n]) + [later[n]];
      InsertedSnoc(pairs + later[..n], later[n]);
      assert later[n] in later;
    }
  }
}
