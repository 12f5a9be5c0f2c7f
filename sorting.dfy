/** Kotlin's `sortedBy` and `sortedByDescending`: a stable sort of a list by
    a selected key. Keys are integer sequences compared lexicographically,
    which covers both uses in the screens: `String.compareTo` (a name is the
    sequence of its character codes, a proper prefix sorts first) and a
    descending `Long` order (the one-element key `[-value]`). */
module Sorting {

  /** Lexicographic order on integer sequences. */
  predicate LexLess(a: seq<int>, b: seq<int>)
    decreases |a|
  {
    if a == [] then b != []
    else if b == [] then false
    else a[0] < b[0] || (a[0] == b[0] && LexLess(a[1..], b[1..]))
  }

  lemma {:induction false} LexLessIrreflexive(a: seq<int>)
    ensures !LexLess(a, a)
    decreases |a|
  {
    if a != [] {
      LexLessIrreflexive(a[1..]);
    }
  }

  lemma {:induction false} LexLessAsymmetric(a: seq<int>, b: seq<int>)
    ensures !(LexLess(a, b) && LexLess(b, a))
    decreases |a|
  {
    if a != [] && b != [] && a[0] == b[0] {
      LexLessAsymmetric(a[1..], b[1..]);
    }
  }

  lemma {:induction false} LexLessTransitive(a: seq<int>, b: seq<int>, c: seq<int>)
    requires LexLess(a, b) && LexLess(b, c)
    ensures LexLess(a, c)
    decreases |a|
  {
    if a != [] && a[0] == b[0] && b[0] == c[0] {
      LexLessTransitive(a[1..], b[1..], c[1..]);
    }
  }

  lemma {:induction false} LexLessTotal(a: seq<int>, b: seq<int>)
    ensures a == b || LexLess(a, b) || LexLess(b, a)
    decreases |a|
  {
    if a != [] && b != [] && a[0] == b[0] {
      LexLessTotal(a[1..], b[1..]);
      if a[1..] == b[1..] {
        assert a == [a[0]] + a[1..] && b == [b[0]] + b[1..];
      }
    }
  }

  /** "Not smaller" is transitive. */
  lemma LexLeTransitive(a: seq<int>, b: seq<int>, c: seq<int>)
    requires !LexLess(b, a) && !LexLess(c, b)
    ensures !LexLess(c, a)
  {
    LexLessTotal(a, b);
    LexLessTotal(b, c);
    if a != b && b != c {
      LexLessTransitive(a, b, c);
      LexLessAsymmetric(a, c);
    }
  }

  /** No element is followed by one with a strictly smaller key. */
  ghost predicate Sorted<T>(s: seq<T>, key: T -> seq<int>)
  {
    forall i, j :: 0 <= i < j < |s| ==> !LexLess(key(s[j]), key(s[i]))
  }

  /** The elements of `s` whose key is `k`, in their order in `s`. */
  function WithKey<T>(s: seq<T>, key: T -> seq<int>, k: seq<int>): seq<T>
  {
    if s == [] then [] else (if key(s[0]) == k then [s[0]] else []) + WithKey(s[1..], key, k)
  }

  lemma {:induction false} WithKeyAppend<T>(a: seq<T>, b: seq<T>, key: T -> seq<int>, k: seq<int>)
    ensures WithKey(a + b, key, k) == WithKey(a, key, k) + WithKey(b, key, k)
    decreases |a|
  {
    if a != [] {
      assert (a + b)[0] == a[0];
      assert (a + b)[1..] == a[1..] + b;
      WithKeyAppend(a[1..], b, key, k);
      var h: seq<T> := if key(a[0]) == k then [a[0]] else [];
      assert WithKey(a + b, key, k) == h + WithKey(a[1..] + b, key, k);
      assert WithKey(a, key, k) == h + WithKey(a[1..], key, k);
    } else {
      assert a + b == b;
    }
  }

  /** Inserts `x` in front of the first element whose key is not smaller
      than `x`'s, so that `x` precedes every element with an equal key. */
  function Insert<T>(x: T, s: seq<T>, key: T -> seq<int>): (r: seq<T>)
    ensures multiset(r) == multiset(s) + multiset{x}
  {
    if s == [] || !LexLess(key(s[0]), key(x)) then [x] + s
    else
      assert s == [s[0]] + s[1..];
      [s[0]] + Insert(x, s[1..], key)
  }

  lemma {:induction false} InsertSorted<T>(x: T, s: seq<T>, key: T -> seq<int>)
    requires Sorted(s, key)
    ensures Sorted(Insert(x, s, key), key)
    decreases |s|
  {
    if s == [] || !LexLess(key(s[0]), key(x)) {
      var r := [x] + s;
      forall i, j | 0 <= i < j < |r| ensures !LexLess(key(r[j]), key(r[i])) {
        if i == 0 && j > 1 {
          LexLeTransitive(key(x), key(s[0]), key(s[j - 1]));
        }
      }
    } else {
      InsertSorted(x, s[1..], key);
      var t := Insert(x, s[1..], key);
      var r := [s[0]] + t;
      forall j | 0 <= j < |t| ensures !LexLess(key(t[j]), key(s[0])) {
        assert t[j] in multiset(t);
        if t[j] == x {
          LexLessAsymmetric(key(s[0]), key(x));
        } else {
          assert t[j] in multiset(s[1..]);
          var m :| 0 <= m < |s[1..]| && s[1..][m] == t[j];
          assert s[m + 1] == t[j];
        }
      }
    }
  }

  /** Kotlin `sortedBy { key }` (and `sortedByDescending` with a negated key). */
  function SortBy<T>(s: seq<T>, key: T -> seq<int>): (r: seq<T>)
    ensures multiset(r) == multiset(s)
    ensures Sorted(r, key)
  {
    if s == [] then []
    else
      assert s == [s[0]] + s[1..];
      var t := SortBy(s[1..], key);
      InsertSorted(s[0], t, key);
      Insert(s[0], t, key)
  }

  /** Insertion keeps the relative order of equal keys, with `x` first. */
  lemma {:induction false} WithKeyInsert<T>(x: T, s: seq<T>, key: T -> seq<int>, k: seq<int>)
    ensures WithKey(Insert(x, s, key), key, k) == WithKey([x], key, k) + WithKey(s, key, k)
    decreases |s|
  {
    if s == [] || !LexLess(key(s[0]), key(x)) {
      WithKeyAppend([x], s, key, k);
    } else {
      WithKeyInsert(x, s[1..], key, k);
      WithKeySkip(x, s, key, k);
    }
  }

  /** One step of WithKeyInsert: `x` moves past a head with a smaller key. */
  lemma WithKeySkip<T>(x: T, s: seq<T>, key: T -> seq<int>, k: seq<int>)
    requires s != [] && LexLess(key(s[0]), key(x))
    requires WithKey(Insert(x, s[1..], key), key, k) == WithKey([x], key, k) + WithKey(s[1..], key, k)
    ensures WithKey(Insert(x, s, key), key, k) == WithKey([x], key, k) + WithKey(s, key, k)
  {
    var t := Insert(x, s[1..], key);
    var rest := WithKey(s[1..], key, k);
    var hs: seq<T> := if key(s[0]) == k then [s[0]] else [];
    var hx := WithKey([x], key, k);
    assert WithKey(Insert(x, s, key), key, k) == hs + (hx + rest) by {
      assert Insert(x, s, key) == [s[0]] + t;
      WithKeyCons(s[0], t, key, k);
    }
    assert WithKey(s, key, k) == hs + rest by {
      WithKeyCons(s[0], s[1..], key, k);
      assert [s[0]] + s[1..] == s;
    }
    assert hs == [] || hx == [] by {
      if key(x) == k {
        LexLessIrreflexive(k);
      } else {
        WithKeyCons(x, [], key, k);
        assert [x] + [] == [x];
      }
    }
    EmptyCommutes(WithKey(Insert(x, s, key), key, k), hs, hx, rest, WithKey(s, key, k));
  }

  /** When one of two pieces is empty their order does not matter. */
  lemma EmptyCommutes<T>(a: seq<T>, b: seq<T>, c: seq<T>, d: seq<T>, e: seq<T>)
    requires a == b + (c + d) && e == b + d
    requires b == [] || c == []
    ensures a == c + e
  {
    if b == [] {
      assert b + (c + d) == c + d;
    } else {
      assert c + e == e;
    }
  }

  lemma WithKeyCons<T>(y: T, t: seq<T>, key: T -> seq<int>, k: seq<int>)
    ensures WithKey([y] + t, key, k) == (if key(y) == k then [y] else []) + WithKey(t, key, k)
  {
    assert ([y] + t)[1..] == t;
  }

  /** The sort is stable: the elements of each key keep their input order. */
  lemma {:induction false} SortByStable<T>(s: seq<T>, key: T -> seq<int>, k: seq<int>)
    ensures WithKey(SortBy(s, key), key, k) == WithKey(s, key, k)
    decreases |s|
  {
    if s != [] {
      SortByStable(s[1..], key, k);
      StableStep(s, key, k);
    }
  }

  /** The inductive step of SortByStable, with the sorted tail's key-order
      as hypothesis. */
  lemma StableStep<T>(s: seq<T>, key: T -> seq<int>, k: seq<int>)
    requires s != []
    requires WithKey(SortBy(s[1..], key), key, k) == WithKey(s[1..], key, k)
    ensures WithKey(SortBy(s, key), key, k) == WithKey(s, key, k)
  {
    var t := SortBy(s[1..], key);
    calc {
      WithKey(SortBy(s, key), key, k);
    == { assert SortBy(s, key) == Insert(s[0], t, key); }
      WithKey(Insert(s[0], t, key), key, k);
    == { WithKeyInsert(s[0], t, key, k); }
      WithKey([s[0]], key, k) + WithKey(t, key, k);
    ==
      WithKey([s[0]], key, k) + WithKey(s[1..], key, k);
    == { WithKeyAppend([s[0]], s[1..], key, k); }
      WithKey([s[0]] + s[1..], key, k);
    == { assert [s[0]] + s[1..] == s; }
      WithKey(s, key, k);
    }
  }
}
