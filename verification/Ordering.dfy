/** The order of `std::string` and `std::stable_sort` by it, which the encoder uses for exports,
imports and signing keys. */
module Ordering {
  predicate Less(a: string, b: string) {
    b != "" && (a == "" || a[0] < b[0] || (a[0] == b[0] && Less(a[1..], b[1..])))
  }

  predicate AtMost(a: string, b: string) {
    !Less(b, a)
  }

  lemma {:induction false} LessTotal(a: string, b: string)
    ensures Less(a, b) || Less(b, a) || a == b
    ensures !(Less(a, b) && Less(b, a)) && !Less(a, a)
  {
    if a != "" && b != "" && a[0] == b[0] {
      LessTotal(a[1..], b[1..]);
      assert a == [a[0]] + a[1..] && b == [b[0]] + b[1..];
    }
    if a != "" {
      LessTotal(a[1..], a[1..]);
    }
  }

  lemma {:induction false} AtMostTransitive(a: string, b: string, c: string)
    requires AtMost(a, b) && AtMost(b, c)
    ensures AtMost(a, c)
  {
    if Less(c, a) && b != "" && c != "" && a[0] == b[0] == c[0] {
      AtMostTransitive(a[1..], b[1..], c[1..]);
    }
  }

  ghost predicate Sorted<T>(xs: seq<T>, key: T -> string) {
    forall i, j :: 0 <= i < j < |xs| ==> AtMost(key(xs[i]), key(xs[j]))
  }

  /** Puts `x` before the first element that is not smaller. */
  function Insert<T>(x: T, xs: seq<T>, key: T -> string): (r: seq<T>)
    ensures multiset(r) == multiset{x} + multiset(xs)
    ensures |r| == |xs| + 1
  {
    if xs == [] || AtMost(key(x), key(xs[0])) then [x] + xs
    else
      assert xs == [xs[0]] + xs[1..];
      [xs[0]] + Insert(x, xs[1..], key)
  }

  function Sort<T>(xs: seq<T>, key: T -> string): (r: seq<T>)
    ensures multiset(r) == multiset(xs)
    ensures |r| == |xs|
  {
    if xs == [] then []
    else
      assert xs == [xs[0]] + xs[1..];
      Insert(xs[0], Sort(xs[1..], key), key)
  }

  /** The elements with a given key, in order. */
  function WithKey<T>(xs: seq<T>, key: T -> string, k: string): seq<T> {
    if xs == [] then []
    else (if key(xs[0]) == k then [xs[0]] else []) + WithKey(xs[1..], key, k)
  }

  lemma {:induction false} InsertSorted<T>(x: T, xs: seq<T>, key: T -> string)
    requires Sorted(xs, key)
    ensures Sorted(Insert(x, xs, key), key)
  {
    if xs == [] {
    } else if AtMost(key(x), key(xs[0])) {
      forall j | 0 <= j < |xs|
        ensures AtMost(key(x), key(xs[j]))
      {
        if j > 0 {
          AtMostTransitive(key(x), key(xs[0]), key(xs[j]));
        }
      }
    } else {
      InsertSorted(x, xs[1..], key);
      var r := Insert(x, xs[1..], key);
      LessTotal(key(x), key(xs[0]));
      forall j | 0 <= j < |r|
        ensures AtMost(key(xs[0]), key(r[j]))
      {
        assert r[j] in multiset(r);
        if r[j] != x {
          assert r[j] in xs[1..];
        }
      }
    }
  }

  lemma {:induction false} SortSorted<T>(xs: seq<T>, key: T -> string)
    ensures Sorted(Sort(xs, key), key)
  {
    if xs != [] {
      SortSorted(xs[1..], key);
      InsertSorted(xs[0], Sort(xs[1..], key), key);
    }
  }

  lemma {:induction false} InsertWithKey<T>(x: T, xs: seq<T>, key: T -> string, k: string)
    ensures WithKey(Insert(x, xs, key), key, k)
         == (if key(x) == k then [x] else []) + WithKey(xs, key, k)
  {
    if xs != [] && !AtMost(key(x), key(xs[0])) {
      InsertWithKey(x, xs[1..], key, k);
      LessTotal(key(x), key(xs[0]));
      assert ([xs[0]] + Insert(x, xs[1..], key))[1..] == Insert(x, xs[1..], key);
    } else {
      assert ([x] + xs)[1..] == xs;
    }
  }

  /** Sorting keeps the order of elements with equal keys. */
  lemma {:induction false} SortStable<T>(xs: seq<T>, key: T -> string, k: string)
    ensures WithKey(Sort(xs, key), key, k) == WithKey(xs, key, k)
  {
    if xs != [] {
      SortStable(xs[1..], key, k);
      InsertWithKey(xs[0], Sort(xs[1..], key), key, k);
    }
  }

  lemma {:induction false} SortOfSorted<T>(xs: seq<T>, key: T -> string)
    requires Sorted(xs, key)
    ensures Sort(xs, key) == xs
  {
    if xs != [] {
      assert forall i :: 0 <= i < |xs| - 1 ==> xs[1..][i] == xs[i + 1];
      SortOfSorted(xs[1..], key);
      assert xs == [xs[0]] + xs[1..];
    }
  }

  /** A sorted order that keeps the order of equal keys is unique: this is `std::stable_sort`. */
  lemma {:induction false} StableSortUnique<T>(xs: seq<T>, ys: seq<T>, key: T -> string)
    requires Sorted(xs, key) && Sorted(ys, key)
    requires forall k :: WithKey(xs, key, k) == WithKey(ys, key, k)
    ensures xs == ys
  {
    if xs == [] {
      assert forall k :: WithKey(ys, key, k) == [];
    } else {
      var k := key(xs[0]);
      assert WithKey(ys, key, k) != [];
      HeadSmallest(ys, key, k);
      HeadSmallest(xs, key, key(ys[0]));
      LessTotal(k, key(ys[0]));
      assert WithKey(xs, key, k)[0] == xs[0] && WithKey(ys, key, k)[0] == ys[0];
      forall k'
        ensures WithKey(xs[1..], key, k') == WithKey(ys[1..], key, k')
      {
        assert WithKey(xs, key, k') == WithKey(ys, key, k');
        var head := if key(xs[0]) == k' then [xs[0]] else [];
        assert WithKey(xs, key, k')[|head|..] == WithKey(xs[1..], key, k');
        assert WithKey(ys, key, k')[|head|..] == WithKey(ys[1..], key, k');
      }
      assert forall i :: 0 <= i < |xs| - 1 ==> xs[1..][i] == xs[i + 1];
      assert forall i :: 0 <= i < |ys| - 1 ==> ys[1..][i] == ys[i + 1];
      StableSortUnique(xs[1..], ys[1..], key);
      assert xs == [xs[0]] + xs[1..] && ys == [ys[0]] + ys[1..];
    }
  }

  lemma {:induction false} HeadSmallest<T>(xs: seq<T>, key: T -> string, k: string)
    requires Sorted(xs, key) && WithKey(xs, key, k) != []
    ensures xs != [] && AtMost(key(xs[0]), k)
  {
    var i := FindKey(xs, key, k);
    LessTotal(k, k);
  }

  lemma {:induction false} FindKey<T>(xs: seq<T>, key: T -> string, k: string) returns (i: nat)
    requires WithKey(xs, key, k) != []
    ensures i < |xs| && key(xs[i]) == k
  {
    if key(xs[0]) == k {
      i := 0;
    } else {
      var j := FindKey(xs[1..], key, k);
      i := j + 1;
    }
  }

  function Self(s: string): string {
    s
  }

  /** At position `n` the texts part: `a` ends there, or has the smaller character. */
  predicate PartAt(a: string, b: string, n: nat) {
    n <= |a| && n < |b| && a[..n] == b[..n] && (n == |a| || a[n] < b[n])
  }

  /** The order is that of a dictionary. */
  lemma {:induction false} LessExactly(a: string, b: string)
    ensures Less(a, b) <==> exists n: nat :: PartAt(a, b, n)
  {
    if a == "" || b == "" || a[0] != b[0] {
      assert PartAt(a, b, 0) <==> b != "" && (a == "" || a[0] < b[0]);
    } else {
      LessExactly(a[1..], b[1..]);
      if n: nat :| PartAt(a[1..], b[1..], n) {
        assert a[..n + 1] == [a[0]] + a[1..][..n] && b[..n + 1] == [b[0]] + b[1..][..n];
        assert PartAt(a, b, n + 1);
      }
      if n: nat :| PartAt(a, b, n) {
        assert a[1..][..n - 1] == a[..n][1..] && b[1..][..n - 1] == b[..n][1..];
        assert PartAt(a[1..], b[1..], n - 1);
      }
    }
  }
}
