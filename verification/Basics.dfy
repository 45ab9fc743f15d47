/** A value that may be absent: a nil pointer, a missing key, a failed lookup. */
module Basics {
  datatype Option<+T> = None | Some(value: T)
}

/** Counting finite sets. */
module Sets {

  lemma {:induction false} SubsetSize<T>(a: set<T>, b: set<T>)
    requires a <= b
    ensures |a| <= |b|
  {
    if a != {} {
      var x :| x in a;
      SubsetSize(a - {x}, b - {x});
    }
  }

  /** A subset as large as the whole is the whole. */
  lemma SubsetSameSize<T>(a: set<T>, b: set<T>)
    requires a <= b && |a| >= |b|
    ensures a == b
  {
    forall x | x in b ensures x in a {
      if x !in a {
        SubsetSize(a, b - {x});
      }
    }
  }

  lemma OneElement<T>(s: set<T>) returns (x: T)
    requires |s| == 1
    ensures s == {x}
  {
    x :| x in s;
    SubsetSameSize({x}, s);
  }

  /** What a loop has covered of `all` after one more element, of which `rest` still held `x`. */
  lemma CoverOne<T>(all: set<T>, rest: set<T>, x: T)
    requires x in rest
    ensures all - (rest - {x}) == if x in all then (all - rest) + {x} else all - rest
  {
  }
}

/** Rearranging maps. */
module Maps {

  lemma RemoveUnder<K, V>(a: map<K, V>, b: map<K, V>, gone: set<K>)
    requires b.Keys !! gone
    ensures a + b - gone == (a - gone) + b
  {
  }

  /** Adding a binding below `b` shows only where `b` has none. */
  lemma AddUnder<K, V>(a: map<K, V>, b: map<K, V>, k: K, v: V)
    requires k !in a
    ensures a[k := v] + b == if k in a + b then a + b else (a + b)[k := v]
  {
  }

  lemma AddOver<K, V>(a: map<K, V>, b: map<K, V>, k: K, v: V)
    ensures a + b[k := v] == (a + b)[k := v]
  {
  }

  lemma UpdateSize<K, V>(m: map<K, V>, k: K, v: V)
    ensures |m[k := v]| == |m| + if k in m then 0 else 1
  {
    assert m[k := v].Keys == m.Keys + {k};
    assert k in m ==> m.Keys + {k} == m.Keys;
    assert |m[k := v]| == |m[k := v].Keys| && |m| == |m.Keys|;
  }

  lemma RemoveTwice<K, V>(m: map<K, V>, a: set<K>, b: set<K>)
    ensures m - a - b == m - (a + b)
  {
  }

  /** Copying one map into another, entry by entry in any order. */
  method Overlay<K(==), V>(before: map<K, V>, over: map<K, V>) returns (r: map<K, V>)
    ensures r == before + over
  {
    r := before;
    var rest := over.Keys;
    while rest != {}
      invariant rest <= over.Keys
      invariant r == before + (over - rest)
      decreases rest
    {
      var key :| key in rest;
      r := r[key := over[key]];
      rest := rest - {key};
    }
  }
}

module Seqs {

  ghost predicate Distinct<T>(s: seq<T>) {
    forall i, j :: 0 <= i < j < |s| ==> s[i] != s[j]
  }
}

/** Go's 64-bit integers. */
module GoInt {

  const TWO_POW_63: int := 0x8000_0000_0000_0000

  /** A 64-bit two's complement result. */
  function Wrap64(x: int): int {
    (x + TWO_POW_63) % (2 * TWO_POW_63) - TWO_POW_63
  }

  /** Division drops the fraction on both sides of zero. */
  function TruncDiv(x: int, y: int): int
    requires y > 0
  {
    if x >= 0 then x / y else -((-x) / y)
  }

  predicate Fits64(x: int) {
    -TWO_POW_63 <= x < TWO_POW_63
  }

  lemma MulMonotone(a: int, b: int, n: nat)
    requires a <= b
    ensures a * n <= b * n
  {
  }

  lemma WrapExact(x: int)
    ensures Wrap64(x) == x <==> Fits64(x)
    ensures Fits64(Wrap64(x))
  {
  }
}
