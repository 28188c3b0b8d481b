/** Counting the entries of a table that satisfy a predicate. */
module Counting {

  ghost function Having<K, V>(m: map<K, V>, p: V -> bool): set<K> {
    set k | k in m && p(m[k])
  }

  ghost function Count<K, V>(m: map<K, V>, p: V -> bool): nat { |Having(m, p)| }

  function One(b: bool): nat { if b then 1 else 0 }

  lemma CountPut<K, V>(m: map<K, V>, k: K, v: V, p: V -> bool)
    ensures Count(m[k := v], p) == Count(m, p) - One(k in m && p(m[k])) + One(p(v))
  {
    var rest := Having(m, p) - {k};
    assert Having(m[k := v], p) == if p(v) then rest + {k} else rest;
    if k in m && p(m[k]) { assert Having(m, p) == rest + {k}; } else { assert Having(m, p) == rest; }
  }

  lemma CountDrop<K, V>(m: map<K, V>, k: K, p: V -> bool)
    requires k in m
    ensures Count(m - {k}, p) == Count(m, p) - One(p(m[k]))
  {
    assert Having(m - {k}, p) == Having(m, p) - {k};
  }

  lemma CountLess<K, V>(m: map<K, V>, p: V -> bool, q: V -> bool)
    requires forall k :: k in m && p(m[k]) ==> q(m[k])
    ensures Count(m, p) <= Count(m, q)
  {
    SubsetCard(Having(m, p), Having(m, q));
  }

  lemma SubsetCard<K>(a: set<K>, b: set<K>)
    requires a <= b
    ensures |a| <= |b|
  {
    if a != {} {
      var k :| k in a;
      SubsetCard(a - {k}, b - {k});
    }
  }

  lemma CountZero<K, V>(m: map<K, V>, p: V -> bool)
    requires forall k :: k in m ==> !p(m[k])
    ensures Count(m, p) == 0
  {
    assert Having(m, p) == {};
  }

  lemma CountWitness<K, V>(m: map<K, V>, p: V -> bool, k: K)
    requires k in m && p(m[k])
    ensures Count(m, p) >= 1
  {
    assert k in Having(m, p);
  }
}
