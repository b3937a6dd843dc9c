/** Finite sums over sets and maps, independent of any enumeration order. */
module Sums {

  ghost function SumOver<K(!new)>(keys: set<K>, f: K -> int): int
  {
    if keys == {} then 0
    else
      var k :| k in keys;
      f(k) + SumOver(keys - {k}, f)
  }

  /** Any element may be split off first. */
  lemma {:induction false} SumSplit<K(!new)>(keys: set<K>, f: K -> int, k: K)
    requires k in keys
    ensures SumOver(keys, f) == f(k) + SumOver(keys - {k}, f)
    decreases |keys|
  {
    var j :| j in keys && SumOver(keys, f) == f(j) + SumOver(keys - {j}, f);
    if j != k {
      SumSplit(keys - {j}, f, k);
      SumSplit(keys - {k}, f, j);
      assert keys - {j} - {k} == keys - {k} - {j};
    }
  }

  lemma {:induction false} SumCongruent<K(!new)>(keys: set<K>, f: K -> int, g: K -> int)
    requires forall k | k in keys :: f(k) == g(k)
    ensures SumOver(keys, f) == SumOver(keys, g)
    decreases |keys|
  {
    if keys != {} {
      var k :| k in keys;
      SumSplit(keys, f, k);
      SumSplit(keys, g, k);
      SumCongruent(keys - {k}, f, g);
    }
  }

  lemma {:induction false} SumAdd<K(!new)>(keys: set<K>, f: K -> int, g: K -> int, h: K -> int)
    requires forall k | k in keys :: h(k) == f(k) + g(k)
    ensures SumOver(keys, h) == SumOver(keys, f) + SumOver(keys, g)
    decreases |keys|
  {
    if keys != {} {
      var k :| k in keys;
      SumSplit(keys, f, k);
      SumSplit(keys, g, k);
      SumSplit(keys, h, k);
      SumAdd(keys - {k}, f, g, h);
    }
  }

  lemma {:induction false} SumZero<K(!new)>(keys: set<K>, f: K -> int)
    requires forall k | k in keys :: f(k) == 0
    ensures SumOver(keys, f) == 0
    decreases |keys|
  {
    if keys != {} {
      var k :| k in keys;
      SumSplit(keys, f, k);
      SumZero(keys - {k}, f);
    }
  }

  /** Terms outside `part` that vanish may be dropped. */
  lemma {:induction false} SumRestrict<K(!new)>(keys: set<K>, part: set<K>, f: K -> int)
    requires part <= keys && forall k | k in keys - part :: f(k) == 0
    ensures SumOver(keys, f) == SumOver(part, f)
    decreases |keys - part|
  {
    if keys - part != {} {
      var k :| k in keys - part;
      SumSplit(keys, f, k);
      SumRestrict(keys - {k}, part, f);
    } else {
      assert keys == part + (keys - part);
    }
  }

  ghost function Image<J(!new), K(!new)>(keys: set<J>, to: map<J, K>): set<K>
    requires keys <= to.Keys
  {
    set j | j in keys :: to[j]
  }

  /** Summing over an injective re-indexing. */
  lemma {:induction false} SumReindex<J(!new), K(!new)>(keys: set<J>, to: map<J, K>, f: K -> int, g: J -> int)
    requires keys <= to.Keys
    requires forall j | j in keys :: g(j) == f(to[j])
    requires forall i, j | i in keys && j in keys && to[i] == to[j] :: i == j
    ensures SumOver(keys, g) == SumOver(Image(keys, to), f)
    decreases |keys|
  {
    var image := Image(keys, to);
    if keys != {} {
      var j :| j in keys;
      SumSplit(keys, g, j);
      SumSplit(image, f, to[j]);
      SumReindex(keys - {j}, to, f, g);
      assert Image(keys - {j}, to) == image - {to[j]};
    }
  }

  // ------------------------------------------------------------ counters kept in maps

  /** Go's lookup in a counter map. */
  function Count<K>(m: map<K, int>, k: K): int
  {
    if k in m then m[k] else 0
  }

  /** m[k] += d */
  function Bump<K>(m: map<K, int>, k: K, d: int): map<K, int>
  {
    m[k := Count(m, k) + d]
  }

  ghost function Total<K(!new)>(m: map<K, int>): int
  {
    SumOver(m.Keys, k => Count(m, k))
  }

  lemma {:induction false} TotalBump<K(!new)>(m: map<K, int>, k: K, d: int)
    ensures Total(Bump(m, k, d)) == Total(m) + d
  {
    var b := Bump(m, k, d);
    SumSplit(b.Keys, x => Count(b, x), k);
    SumCongruent(b.Keys - {k}, x => Count(b, x), x => Count(m, x));
    if k in m {
      SumSplit(m.Keys, x => Count(m, x), k);
      assert b.Keys - {k} == m.Keys - {k};
    } else {
      assert b.Keys - {k} == m.Keys;
    }
  }

  lemma {:induction false} BumpCommutes<K>(m: map<K, int>, j: K, d: int, k: K, e: int)
    ensures Bump(Bump(m, j, d), k, e) == Bump(Bump(m, k, e), j, d)
  {
  }
}
