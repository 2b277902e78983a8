/** A table under a sequence of upserts: the last write of each key wins and other keys keep their rows. */
module Upserts {
  datatype Write<K, V> = Write(key: K, value: V)

  function Applied<K, V>(table: map<K, V>, writes: seq<Write<K, V>>): map<K, V>
  {
    if writes == [] then table
    else
      var last := writes[|writes| - 1];
      Applied(table, writes[..|writes| - 1])[last.key := last.value]
  }

  function KeysOf<K, V>(writes: seq<Write<K, V>>): set<K>
  {
    set i | 0 <= i < |writes| :: writes[i].key
  }

  /** Position `i` holds the last write of `key`. */
  predicate IsLast<K(==), V>(writes: seq<Write<K, V>>, key: K, i: int)
  {
    && 0 <= i < |writes| && writes[i].key == key
    && forall j :: i < j < |writes| ==> writes[j].key != key
  }

  lemma {:induction false} LastExists<K, V>(writes: seq<Write<K, V>>, key: K) returns (i: int)
    requires key in KeysOf(writes)
    ensures IsLast(writes, key, i)
  {
    i := |writes| - 1;
    while writes[i].key != key
      invariant 0 <= i < |writes|
      invariant forall j :: i < j < |writes| ==> writes[j].key != key
      decreases i
    {
      i := i - 1;
    }
  }

  lemma {:induction false} AppliedIsLastWins<K, V>(table: map<K, V>, writes: seq<Write<K, V>>)
    ensures Applied(table, writes).Keys == table.Keys + KeysOf(writes)
    ensures forall key :: key in table && key !in KeysOf(writes) ==> Applied(table, writes)[key] == table[key]
    ensures forall key, i :: IsLast(writes, key, i) ==> Applied(table, writes)[key] == writes[i].value
  {
    if writes != [] {
      var n := |writes| - 1;
      var shorter := writes[..n];
      AppliedIsLastWins(table, shorter);
      assert KeysOf(writes) == KeysOf(shorter) + {writes[n].key} by {
        assert forall i :: 0 <= i < n ==> shorter[i] == writes[i];
      }
      forall key, i | IsLast(writes, key, i)
        ensures Applied(table, writes)[key] == writes[i].value
      {
        if i < n {
          assert IsLast(shorter, key, i);
        }
      }
    }
  }
}
