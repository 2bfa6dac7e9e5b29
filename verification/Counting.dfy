/** Sizes of sets and maps. */
module Counting {

  lemma {:induction false} ValuesCount<K, V>(m: map<K, V>)
    ensures |m.Values| <= |m|
    decreases |m|
  {
    if m == map[] {
      assert m.Values == {};
    } else {
      var k :| k in m;
      var rest := m - {k};
      ValuesCount(rest);
      forall v | v in m.Values ensures v in rest.Values + {m[k]} {
        var o :| o in m && m[o] == v;
        assert o != k ==> o in rest && rest[o] == v;
      }
      assert m.Values == rest.Values + {m[k]};
    }
  }

  lemma SubsetCount<T>(a: set<T>, b: set<T>)
    requires a <= b
    ensures |a| <= |b|
  {
    assert b == a + (b - a);
  }

  lemma NewKey<K, V>(m: map<K, V>, k: K, v: V)
    requires k !in m
    ensures |m[k := v]| == |m| + 1
  {
    assert m[k := v].Keys == m.Keys + {k};
    assert |m[k := v]| == |m[k := v].Keys| && |m| == |m.Keys|;
  }

  /** Taking away one key more. */
  lemma MinusOneMore<K, V>(m: map<K, V>, gone: set<K>, k: K)
    ensures m - gone - {k} == m - (gone + {k})
  {
  }

  lemma MinusNone<K, V>(m: map<K, V>)
    ensures m - {} == m
  {
  }
}
