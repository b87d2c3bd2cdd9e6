/** Sequence helpers: duplicate-freedom, removal of one value, the string order
    Python uses, sorting by a string key and de-duplication. */
module Seqs {

  /** No value occurs twice. */
  predicate NoDup<T(==)>(xs: seq<T>)
  {
    forall i, j :: 0 <= i < j < |xs| ==> xs[i] != xs[j]
  }

  lemma NoDupCons<T>(x: T, xs: seq<T>)
    requires x !in xs && NoDup(xs)
    ensures NoDup([x] + xs)
  {
    forall i, j | 0 <= i < j < |[x] + xs|
      ensures ([x] + xs)[i] != ([x] + xs)[j]
    {
      if i == 0 {
        assert ([x] + xs)[j] == xs[j - 1];
      } else {
        assert ([x] + xs)[i] == xs[i - 1] && ([x] + xs)[j] == xs[j - 1];
      }
    }
  }

  lemma NoDupConsIff<T>(x: T, xs: seq<T>)
    ensures NoDup([x] + xs) <==> x !in xs && NoDup(xs)
  {
    if NoDup([x] + xs) {
      forall i, j | 0 <= i < j < |xs| ensures xs[i] != xs[j] {
        assert ([x] + xs)[i + 1] == xs[i] && ([x] + xs)[j + 1] == xs[j];
      }
      forall i | 0 <= i < |xs| ensures xs[i] != x {
        assert ([x] + xs)[0] == x && ([x] + xs)[i + 1] == xs[i];
      }
    }
    if x !in xs && NoDup(xs) {
      NoDupCons(x, xs);
    }
  }

  /** A duplicate-free sequence has as many elements as it has distinct values. */
  lemma {:induction false} NoDupCardinality<T>(xs: seq<T>)
    requires NoDup(xs)
    ensures |set x | x in xs| == |xs|
  {
    if xs != [] {
      NoDupConsIff(xs[0], xs[1..]);
      assert xs == [xs[0]] + xs[1..];
      NoDupCardinality(xs[1..]);
      assert (set x | x in xs) == {xs[0]} + (set x | x in xs[1..]);
    }
  }

  lemma NoDupSnoc<T>(xs: seq<T>, x: T)
    requires x !in xs && NoDup(xs)
    ensures NoDup(xs + [x])
  {
    forall i, j | 0 <= i < j < |xs + [x]|
      ensures (xs + [x])[i] != (xs + [x])[j]
    {
      assert (xs + [x])[i] == xs[i];
      if j == |xs| {
        assert (xs + [x])[j] == x;
      } else {
        assert (xs + [x])[j] == xs[j];
      }
    }
  }

  lemma ConcatAssoc<T>(a: seq<T>, b: seq<T>, c: seq<T>)
    ensures (a + b) + c == a + (b + c)
  {
  }

  /** `xs` with every occurrence of `x` taken out, the rest in order. */
  function Without<T(==,!new)>(xs: seq<T>, x: T): (r: seq<T>)
    ensures forall y :: y in r <==> y in xs && y != x
    ensures |r| <= |xs|
  {
    if xs == [] then []
    else (if xs[0] == x then [] else [xs[0]]) + Without(xs[1..], x)
  }

  lemma {:induction false} WithoutNoDup<T(!new)>(xs: seq<T>, x: T)
    requires NoDup(xs)
    ensures NoDup(Without(xs, x))
  {
    if xs != [] {
      assert xs == [xs[0]] + xs[1..];
      WithoutNoDup(xs[1..], x);
      if xs[0] != x {
        NoDupCons(xs[0], Without(xs[1..], x));
      }
    }
  }

  lemma {:induction false} WithoutAbsent<T(!new)>(xs: seq<T>, x: T)
    requires x !in xs
    ensures Without(xs, x) == xs
  {
    if xs != [] {
      WithoutAbsent(xs[1..], x);
      assert xs == [xs[0]] + xs[1..];
    }
  }

  /** Unfolds Without on a sequence given as a head and a tail. */
  lemma WithoutCons<T(!new)>(h: T, t: seq<T>, x: T)
    ensures Without([h] + t, x) == (if h == x then [] else [h]) + Without(t, x)
  {
    assert ([h] + t)[0] == h && ([h] + t)[1..] == t;
  }

  /** Taking out a value that occurs exactly once shortens the sequence by one. */
  lemma {:induction false} WithoutLength<T(!new)>(xs: seq<T>, x: T)
    requires NoDup(xs) && x in xs
    ensures |Without(xs, x)| == |xs| - 1
  {
    assert xs == [xs[0]] + xs[1..];
    if xs[0] == x {
      assert x !in xs[1..];
      WithoutAbsent(xs[1..], x);
    } else {
      WithoutLength(xs[1..], x);
    }
  }

  /** Python's `<=` on strings: lexicographic by code point, a proper prefix first. */
  predicate LexLe(a: string, b: string)
  {
    if |a| == 0 then true
    else if |b| == 0 then false
    else if a[0] < b[0] then true
    else if b[0] < a[0] then false
    else LexLe(a[1..], b[1..])
  }

  lemma {:induction false} LexLeTotal(a: string, b: string)
    ensures LexLe(a, b) || LexLe(b, a)
  {
    if |a| > 0 && |b| > 0 && a[0] == b[0] {
      LexLeTotal(a[1..], b[1..]);
    }
  }

  lemma {:induction false} LexLeTrans(a: string, b: string, c: string)
    requires LexLe(a, b) && LexLe(b, c)
    ensures LexLe(a, c)
  {
    if |a| > 0 && |b| > 0 && |c| > 0 && a[0] == b[0] == c[0] {
      LexLeTrans(a[1..], b[1..], c[1..]);
    }
  }

  /** Ascending by `key` (ties in any order). */
  predicate SortedBy<T>(xs: seq<T>, key: T -> string)
  {
    forall i, j :: 0 <= i < j < |xs| ==> LexLe(key(xs[i]), key(xs[j]))
  }

  lemma PrependSorted<T>(y: T, ys: seq<T>, key: T -> string)
    requires SortedBy(ys, key)
    requires forall z :: z in ys ==> LexLe(key(y), key(z))
    ensures SortedBy([y] + ys, key)
  {
    forall i, j | 0 <= i < j < |[y] + ys|
      ensures LexLe(key(([y] + ys)[i]), key(([y] + ys)[j]))
    {
      assert ([y] + ys)[j] == ys[j - 1];
      if i > 0 {
        assert ([y] + ys)[i] == ys[i - 1];
      }
    }
  }

  /** Inserts `x` into the sorted `xs` in front of the first element not below it. */
  function InsertBy<T>(x: T, xs: seq<T>, key: T -> string): (r: seq<T>)
    requires SortedBy(xs, key)
    ensures SortedBy(r, key)
    ensures multiset(r) == multiset(xs) + multiset{x}
  {
    if xs == [] then [x]
    else if LexLe(key(x), key(xs[0])) then
      assert forall z :: z in xs ==> LexLe(key(x), key(z)) by {
        forall z | z in xs ensures LexLe(key(x), key(z)) {
          var k :| 0 <= k < |xs| && xs[k] == z;
          if k > 0 { LexLeTrans(key(x), key(xs[0]), key(z)); }
        }
      }
      PrependSorted(x, xs, key);
      assert xs == [xs[0]] + xs[1..];
      [x] + xs
    else
      LexLeTotal(key(x), key(xs[0]));
      var rest := InsertBy(x, xs[1..], key);
      assert forall z :: z in rest ==> LexLe(key(xs[0]), key(z)) by {
        forall z | z in rest ensures LexLe(key(xs[0]), key(z)) {
          assert z in multiset(rest);
          if z != x {
            assert z in multiset(xs[1..]);
            var k :| 0 <= k < |xs[1..]| && xs[1..][k] == z;
            assert xs[k + 1] == z;
          }
        }
      }
      PrependSorted(xs[0], rest, key);
      assert xs == [xs[0]] + xs[1..];
      [xs[0]] + rest
  }

  /** Insertion sort by `key`: an ascending permutation of `xs`. */
  function SortBy<T>(xs: seq<T>, key: T -> string): (r: seq<T>)
    ensures SortedBy(r, key)
    ensures multiset(r) == multiset(xs)
  {
    if xs == [] then []
    else
      assert xs == [xs[0]] + xs[1..];
      InsertBy(xs[0], SortBy(xs[1..], key), key)
  }

  /** The first occurrence of every value, in order of first appearance
      (pandas `drop_duplicates` with its default `keep="first"`). */
  function Dedup<T(==,!new)>(xs: seq<T>): (r: seq<T>)
    ensures forall x :: multiset(r)[x] == if x in xs then 1 else 0
  {
    if xs == [] then []
    else
      var init := xs[..|xs| - 1];
      var last := xs[|xs| - 1];
      assert xs == init + [last];
      var rest := Dedup(init);
      if last in rest then rest else rest + [last]
  }
}
