/**
 * The list operations the storefront and the admin page build on:
 * `Array.prototype.filter` against a key, and `Array.prototype.reduce`
 * as an integer sum.
 */
module Seqs {

  /** `s.filter(x => key(x) === v)`: the elements whose key is `v`, in their original order. */
  function Where<T(==,!new), K(==)>(s: seq<T>, key: T -> K, v: K): (r: seq<T>)
    ensures |r| <= |s|
    ensures forall x :: x in r <==> x in s && key(x) == v
  {
    if s == [] then []
    else if key(s[0]) == v then [s[0]] + Where(s[1..], key, v)
    else Where(s[1..], key, v)
  }

  /** `s.filter(x => key(x) !== v)`: the elements whose key is not `v`, in their original order. */
  function Except<T(==,!new), K(==)>(s: seq<T>, key: T -> K, v: K): (r: seq<T>)
    ensures |r| <= |s|
    ensures forall x :: x in r <==> x in s && key(x) != v
  {
    if s == [] then []
    else if key(s[0]) != v then [s[0]] + Except(s[1..], key, v)
    else Except(s[1..], key, v)
  }

  /** `s.reduce((sum, x) => sum + f(x), 0)`. */
  function Sum<T>(s: seq<T>, f: T -> int): int {
    if s == [] then 0 else f(s[0]) + Sum(s[1..], f)
  }

  /** Filtering a concatenation filters each part: the kept elements stay in their relative order. */
  lemma {:induction false} WhereAppend<T(!new), K>(a: seq<T>, b: seq<T>, key: T -> K, v: K)
    ensures Where(a + b, key, v) == Where(a, key, v) + Where(b, key, v)
  {
    if a == [] {
      assert a + b == b;
    } else {
      assert (a + b)[1..] == a[1..] + b;
      WhereAppend(a[1..], b, key, v);
    }
  }

  lemma {:induction false} ExceptAppend<T(!new), K>(a: seq<T>, b: seq<T>, key: T -> K, v: K)
    ensures Except(a + b, key, v) == Except(a, key, v) + Except(b, key, v)
  {
    if a == [] {
      assert a + b == b;
    } else {
      assert (a + b)[1..] == a[1..] + b;
      ExceptAppend(a[1..], b, key, v);
    }
  }

  /** Every element is kept by exactly one of the two filters. */
  lemma {:induction false} WhereExceptLength<T(!new), K>(s: seq<T>, key: T -> K, v: K)
    ensures |Where(s, key, v)| + |Except(s, key, v)| == |s|
  {
    if s != [] {
      WhereExceptLength(s[1..], key, v);
    }
  }

  /** A one-element list whose key is not `v` filters to nothing. */
  lemma WhereSingleMiss<T(!new), K>(x: T, key: T -> K, v: K)
    requires key(x) != v
    ensures Where([x], key, v) == []
  {
    assert [x][1..] == [];
  }

  /** Removing a key nobody has changes nothing. */
  lemma {:induction false} ExceptNoMatch<T(!new), K>(s: seq<T>, key: T -> K, v: K)
    requires forall i :: 0 <= i < |s| ==> key(s[i]) != v
    ensures Except(s, key, v) == s
  {
    if s != [] {
      ExceptNoMatch(s[1..], key, v);
      assert [s[0]] + s[1..] == s;
    }
  }

  /** Removing the same key twice is removing it once. */
  lemma ExceptIdempotent<T(!new), K>(s: seq<T>, key: T -> K, v: K)
    ensures Except(Except(s, key, v), key, v) == Except(s, key, v)
  {
    var r := Except(s, key, v);
    forall i | 0 <= i < |r| ensures key(r[i]) != v {
      assert r[i] in r;
    }
    ExceptNoMatch(r, key, v);
  }

  lemma {:induction false} SumAppend<T>(a: seq<T>, b: seq<T>, f: T -> int)
    ensures Sum(a + b, f) == Sum(a, f) + Sum(b, f)
  {
    if a == [] {
      assert a + b == b;
    } else {
      assert (a + b)[1..] == a[1..] + b;
      SumAppend(a[1..], b, f);
    }
  }

  /** Splitting a list by a key splits its sum: what a filter drops is what the other filter keeps. */
  lemma {:induction false} SumPartition<T(!new), K>(s: seq<T>, key: T -> K, v: K, f: T -> int)
    ensures Sum(Where(s, key, v), f) + Sum(Except(s, key, v), f) == Sum(s, f)
  {
    if s != [] {
      SumPartition(s[1..], key, v, f);
    }
  }
}
