/** Counting the entries of a finite map that satisfy a predicate: how one
    update, removal or bulk rewrite changes the count. Every conservation law
    of the step machines is an equation between such counts. */
module Counting {

  ghost function Where<K, V>(m: map<K, V>, p: V -> bool): set<K> {
    set k | k in m && p(m[k])
  }

  ghost function Count<K, V>(m: map<K, V>, p: V -> bool): nat {
    |Where(m, p)|
  }

  ghost function One(b: bool): nat {
    if b then 1 else 0
  }

  lemma CountUpdate<K, V>(m: map<K, V>, k: K, v: V, p: V -> bool)
    ensures Count(m[k := v], p) == Count(m, p) - One(k in m && p(m[k])) + One(p(v))
  {
    var rest := Where(m, p) - {k};
    assert Where(m[k := v], p) == if p(v) then rest + {k} else rest;
    assert Where(m, p) == if k in m && p(m[k]) then rest + {k} else rest;
  }

  lemma CountRemove<K, V>(m: map<K, V>, k: K, p: V -> bool)
    ensures Count(m - {k}, p) == Count(m, p) - One(k in m && p(m[k]))
  {
    assert Where(m - {k}, p) == Where(m, p) - {k};
    if !(k in m && p(m[k])) {
      assert Where(m, p) - {k} == Where(m, p);
    }
  }

  /** Rewriting values in a way that `p` cannot see leaves the count alone. */
  lemma CountSame<K, V>(m: map<K, V>, m': map<K, V>, p: V -> bool)
    requires m.Keys == m'.Keys
    requires forall k :: k in m ==> p(m[k]) == p(m'[k])
    ensures Count(m, p) == Count(m', p)
  {
    assert Where(m, p) == Where(m', p);
  }
}
