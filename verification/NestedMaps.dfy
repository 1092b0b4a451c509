/** Maps from container to key to value: the shape of the store and of its views. */
module NestedMaps {
  import opened Data

  type Nested<V> = map<string, map<string, V>>

  function Lookup<V>(m: Nested<V>, c: string, k: string): Option<V> {
    if c in m && k in m[c] then Some(m[c][k]) else None
  }

  function Inner<V>(m: Nested<V>, c: string): map<string, V> {
    if c in m then m[c] else map[]
  }

  function Put<V>(m: Nested<V>, c: string, k: string, v: V): Nested<V> {
    m[c := Inner(m, c)[k := v]]
  }

  /** The keys of `top` replace those of `base`; all other keys of `base` stay. */
  function Overlay<V>(base: Nested<V>, top: Nested<V>): Nested<V> {
    map c | c in base.Keys + top.Keys :: Inner(base, c) + Inner(top, c)
  }

  /** Every key of `m` is in `n` with the same value. */
  ghost predicate SubMap<V>(m: Nested<V>, n: Nested<V>) {
    forall c, k :: Lookup(m, c, k).Some? ==> Lookup(n, c, k) == Lookup(m, c, k)
  }

  /** No container is empty. */
  ghost predicate Trim<V>(m: Nested<V>) {
    forall c | c in m :: m[c] != map[]
  }

  function Without<V>(m: Nested<V>, c: string): Nested<V> {
    m - {c}
  }

  lemma LookupOverlay<V>(base: Nested<V>, top: Nested<V>, c: string, k: string)
    ensures Lookup(Overlay(base, top), c, k)
         == if Lookup(top, c, k).Some? then Lookup(top, c, k) else Lookup(base, c, k)
  {
  }

  lemma TrimOverlay<V>(base: Nested<V>, top: Nested<V>)
    requires Trim(base) && Trim(top)
    ensures Trim(Overlay(base, top))
  {
    forall c | c in Overlay(base, top)
      ensures Overlay(base, top)[c] != map[]
    {
      if c in top {
        var k :| k in top[c];
        assert k in Overlay(base, top)[c];
      } else {
        var k :| k in base[c];
        assert k in Overlay(base, top)[c];
      }
    }
  }

  /** Views without empty containers are determined by their lookups. */
  lemma SameLookups<V>(m: Nested<V>, n: Nested<V>)
    requires Trim(m) && Trim(n)
    requires forall c, k :: Lookup(m, c, k) == Lookup(n, c, k)
    ensures m == n
  {
    forall c | c in m
      ensures c in n && m[c].Keys <= n[c].Keys
    {
      Covered(m, n, c);
    }
    forall c | c in n
      ensures c in m && n[c].Keys <= m[c].Keys
    {
      Covered(n, m, c);
    }
    forall c | c in m
      ensures m[c] == n[c]
    {
      forall k | k in m[c]
        ensures m[c][k] == n[c][k]
      {
        assert Lookup(m, c, k) == Lookup(n, c, k);
      }
    }
  }

  lemma Covered<V>(m: Nested<V>, n: Nested<V>, c: string)
    requires Trim(m) && c in m
    requires forall c, k :: Lookup(m, c, k) == Lookup(n, c, k)
    ensures c in n && m[c].Keys <= n[c].Keys
  {
    var k :| k in m[c];
    assert Lookup(m, c, k) == Lookup(n, c, k);
    forall k | k in m[c]
      ensures k in n[c]
    {
      assert Lookup(m, c, k) == Lookup(n, c, k);
    }
  }
}
