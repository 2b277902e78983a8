/** Small facts about sets and maps used by several modules. */
module Collections {
  import opened Wrappers

  lemma MemberOf<X>(s: set<X>) returns (x: X)
    requires s != {}
    ensures x in s
  {
    x :| x in s;
  }

  /** Some element of a set that has one. */
  method Pick<X>(s: set<X>) returns (x: X)
    requires s != {}
    ensures x in s
  {
    x :| x in s;
  }

  lemma KeyWithValue<K, V>(m: map<K, V>, v: V) returns (k: K)
    requires v in m.Values
    ensures k in m && m[k] == v
  {
    k :| k in m && m[k] == v;
  }

  function Lookup<K, V>(table: map<K, V>, key: K): Option<V>
  {
    if key in table then Some(table[key]) else None
  }

  /** Maps that look the same at every key are the same. */
  lemma SameLookups<K, V>(a: map<K, V>, b: map<K, V>)
    requires forall key: K :: Lookup(a, key) == Lookup(b, key)
    ensures a == b
  {
    forall key
      ensures key in a <==> key in b
      ensures key in a ==> a[key] == b[key]
    {
      assert Lookup(a, key) == Lookup(b, key);
    }
  }
}
