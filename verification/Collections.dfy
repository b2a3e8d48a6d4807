/** Sizes of sets and maps, and maps after an insertion or a removal. */
module Collections {
  lemma SubsetSize<T>(a: set<T>, b: set<T>)
    requires a <= b
    ensures |a| <= |b|
  {
    assert b == a + (b - a);
  }

  lemma KeysSize<K, V>(m: map<K, V>)
    ensures |m| == |m.Keys|
  {
  }

  lemma AddedSize<K, V>(m: map<K, V>, key: K, x: V)
    requires key !in m
    ensures |m[key := x]| == |m| + 1
  {
    assert m[key := x].Keys == m.Keys + {key};
    assert |m[key := x]| == |m[key := x].Keys|;
  }

  lemma RemovedSize<K, V>(m: map<K, V>, key: K)
    requires key in m
    ensures |m - {key}| == |m| - 1
  {
    assert (m - {key}).Keys == m.Keys - {key};
    assert |m - {key}| == |(m - {key}).Keys|;
  }

  lemma SetThenRemoved<K, V>(m: map<K, V>, key: K, x: V)
    ensures m[key := x] - {key} == m - {key}
  {
  }

  lemma AddedThenRemoved<K, V>(m: map<K, V>, key: K, x: V)
    requires key !in m
    ensures m[key := x] - {key} == m
  {
  }

  lemma NothingRemoved<K, V>(m: map<K, V>, key: K)
    requires key !in m
    ensures m - {key} == m
  {
  }

  lemma SetTwice<K, V>(m: map<K, V>, key: K, x: V, y: V)
    ensures m[key := x][key := y] == m[key := y]
  {
  }
}
