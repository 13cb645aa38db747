/**
 * Python's ordering of `str` values and of tuples of them, and the stable
 * `sorted(xs, key=...)` the pipeline applies to buses, categories, colliding
 * records and dumped records. A key is a tuple of strings; elements are sorted
 * as (key, element) pairs, the decorate-sort-undecorate reading of `key=`.
 */
module Sorting {
  import opened Text

  /** Python `a < b` on `str`: lexicographic by code point, a proper prefix first. */
  predicate LexLess(a: String, b: String)
    decreases |a|
  {
    if |a| == 0 then |b| > 0
    else if |b| == 0 then false
    else if a[0] != b[0] then a[0] < b[0]
    else LexLess(a[1..], b[1..])
  }

  lemma {:induction false} LexLessIrreflexive(a: String)
    ensures !LexLess(a, a)
    decreases |a|
  {
    if |a| > 0 {
      LexLessIrreflexive(a[1..]);
    }
  }

  lemma {:induction false} LexLessTransitive(a: String, b: String, c: String)
    requires LexLess(a, b) && LexLess(b, c)
    ensures LexLess(a, c)
    decreases |a|
  {
    if |a| > 0 && a[0] == b[0] && b[0] == c[0] {
      LexLessTransitive(a[1..], b[1..], c[1..]);
    }
  }

  lemma {:induction false} LexLessAsymmetric(a: String, b: String)
    ensures LexLess(a, b) ==> !LexLess(b, a)
    decreases |a|
  {
    if |a| > 0 && |b| > 0 && a[0] == b[0] {
      LexLessAsymmetric(a[1..], b[1..]);
    }
  }

  lemma {:induction false} LexLessTotal(a: String, b: String)
    ensures a == b || LexLess(a, b) || LexLess(b, a)
    decreases |a|
  {
    if |a| > 0 && |b| > 0 && a[0] == b[0] {
      LexLessTotal(a[1..], b[1..]);
      if a[1..] == b[1..] {
        assert a == [a[0]] + a[1..] && b == [b[0]] + b[1..];
      }
    }
  }

  type Key = seq<String>

  /** Python `a < b` on tuples of strings. */
  predicate KeyLess(a: Key, b: Key)
    decreases |a|
  {
    if |a| == 0 then |b| > 0
    else if |b| == 0 then false
    else if a[0] != b[0] then LexLess(a[0], b[0])
    else KeyLess(a[1..], b[1..])
  }

  predicate KeyLe(a: Key, b: Key) {
    a == b || KeyLess(a, b)
  }

  lemma {:induction false} KeyLessIrreflexive(a: Key)
    ensures !KeyLess(a, a)
    decreases |a|
  {
    if |a| > 0 {
      KeyLessIrreflexive(a[1..]);
    }
  }

  lemma {:induction false} KeyLessTransitive(a: Key, b: Key, c: Key)
    requires KeyLess(a, b) && KeyLess(b, c)
    ensures KeyLess(a, c)
    decreases |a|
  {
    if |a| > 0 && |b| > 0 && |c| > 0 {
      if a[0] == b[0] && b[0] == c[0] {
        KeyLessTransitive(a[1..], b[1..], c[1..]);
      } else if a[0] != b[0] && b[0] != c[0] {
        LexLessTransitive(a[0], b[0], c[0]);
        if a[0] == c[0] {
          LexLessIrreflexive(a[0]);
        }
      }
    }
  }

  lemma {:induction false} KeyLessTotal(a: Key, b: Key)
    ensures a == b || KeyLess(a, b) || KeyLess(b, a)
    decreases |a|
  {
    if |a| > 0 && |b| > 0 {
      if a[0] == b[0] {
        KeyLessTotal(a[1..], b[1..]);
        if a[1..] == b[1..] {
          assert a == [a[0]] + a[1..] && b == [b[0]] + b[1..];
        }
      } else {
        LexLessTotal(a[0], b[0]);
      }
    }
  }

  lemma KeyLeTransitive(a: Key, b: Key, c: Key)
    requires KeyLe(a, b) && KeyLe(b, c)
    ensures KeyLe(a, c)
  {
    if KeyLess(a, b) && KeyLess(b, c) {
      KeyLessTransitive(a, b, c);
    }
  }

  /** Keys are in ascending (non-decreasing) order. */
  predicate Sorted<T>(xs: seq<(Key, T)>) {
    forall i, j :: 0 <= i < j < |xs| ==> KeyLe(xs[i].0, xs[j].0)
  }

  /** The elements of a sorted pair sequence, keys dropped. */
  function Elements<T>(xs: seq<(Key, T)>): (r: seq<T>)
    ensures |r| == |xs| && forall i :: 0 <= i < |xs| ==> r[i] == xs[i].1
  {
    seq(|xs|, i requires 0 <= i < |xs| => xs[i].1)
  }

  lemma {:induction false} ElementsAppend<T>(a: seq<(Key, T)>, b: seq<(Key, T)>)
    ensures Elements(a + b) == Elements(a) + Elements(b)
  {
    assert |Elements(a + b)| == |Elements(a) + Elements(b)|;
  }

  /** Insert after every element whose key is not larger (keeps the sort stable). */
  function Insert<T>(x: (Key, T), xs: seq<(Key, T)>): (r: seq<(Key, T)>)
    requires Sorted(xs)
    ensures Sorted(r)
    ensures multiset(r) == multiset(xs) + multiset{x}
    decreases |xs|
  {
    if xs == [] then [x]
    else if KeyLess(x.0, xs[0].0) then
      InsertFront(x, xs);
      [x] + xs
    else
      SortedTail(xs);
      var tail := Insert(x, xs[1..]);
      InsertAfterHead(x, xs, tail);
      [xs[0]] + tail
  }

  lemma SortedTail<T>(xs: seq<(Key, T)>)
    requires Sorted(xs) && xs != []
    ensures Sorted(xs[1..])
  {
    forall i, j | 0 <= i < j < |xs| - 1 ensures KeyLe(xs[1..][i].0, xs[1..][j].0) {
      assert xs[1..][i] == xs[i + 1] && xs[1..][j] == xs[j + 1];
    }
  }

  lemma InsertFront<T>(x: (Key, T), xs: seq<(Key, T)>)
    requires Sorted(xs) && xs != [] && KeyLess(x.0, xs[0].0)
    ensures Sorted([x] + xs)
  {
    forall j | 0 < j < |xs| ensures KeyLe(x.0, xs[j].0) {
      KeyLeTransitive(x.0, xs[0].0, xs[j].0);
    }
    var r := [x] + xs;
    forall i, j | 0 <= i < j < |r| ensures KeyLe(r[i].0, r[j].0) {
      if i > 0 {
        assert r[i] == xs[i - 1] && r[j] == xs[j - 1];
      } else {
        assert r[j] == xs[j - 1];
      }
    }
  }

  lemma InsertAfterHead<T>(x: (Key, T), xs: seq<(Key, T)>, tail: seq<(Key, T)>)
    requires Sorted(xs) && xs != [] && !KeyLess(x.0, xs[0].0)
    requires Sorted(tail) && multiset(tail) == multiset(xs[1..]) + multiset{x}
    ensures Sorted([xs[0]] + tail)
    ensures multiset([xs[0]] + tail) == multiset(xs) + multiset{x}
  {
    KeyLessTotal(x.0, xs[0].0);
    assert xs == [xs[0]] + xs[1..];
    forall k | 0 <= k < |tail| ensures KeyLe(xs[0].0, tail[k].0) {
      assert tail[k] in multiset(tail);
      if tail[k] != x {
        assert tail[k] in xs[1..];
        var j :| 0 <= j < |xs[1..]| && xs[1..][j] == tail[k];
        assert xs[j + 1] == tail[k];
      }
    }
    var r := [xs[0]] + tail;
    forall i, j | 0 <= i < j < |r| ensures KeyLe(r[i].0, r[j].0) {
      if i > 0 {
        assert r[i] == tail[i - 1] && r[j] == tail[j - 1];
      } else {
        assert r[j] == tail[j - 1];
      }
    }
  }

  lemma {:induction false} InsertElements<T>(x: (Key, T), xs: seq<(Key, T)>)
    requires Sorted(xs)
    ensures multiset(Elements(Insert(x, xs))) == multiset(Elements(xs)) + multiset{x.1}
    decreases |xs|
  {
    if xs == [] {
    } else if KeyLess(x.0, xs[0].0) {
      ElementsAppend([x], xs);
    } else {
      SortedTail(xs);
      var tail := Insert(x, xs[1..]);
      assert Insert(x, xs) == [xs[0]] + tail;
      InsertElements(x, xs[1..]);
      assert xs == [xs[0]] + xs[1..];
      ConsElements(xs[0], tail, xs[1..], x.1);
    }
  }

  lemma ConsElements<T>(a: (Key, T), tail: seq<(Key, T)>, rest: seq<(Key, T)>, b: T)
    requires multiset(Elements(tail)) == multiset(Elements(rest)) + multiset{b}
    ensures multiset(Elements([a] + tail)) == multiset(Elements([a] + rest)) + multiset{b}
  {
    ElementsAppend([a], tail);
    ElementsAppend([a], rest);
  }

  /** Python `sorted(...)` on (key, element) pairs: stable, ascending by key. */
  function SortByKey<T>(xs: seq<(Key, T)>): (ys: seq<(Key, T)>)
    ensures Sorted(ys)
    ensures multiset(ys) == multiset(xs)
    ensures multiset(Elements(ys)) == multiset(Elements(xs))
    decreases |xs|
  {
    if xs == [] then []
    else
      var init := xs[..|xs| - 1];
      assert xs == init + [xs[|xs| - 1]];
      ElementsAppend(init, [xs[|xs| - 1]]);
      InsertElements(xs[|xs| - 1], SortByKey(init));
      Insert(xs[|xs| - 1], SortByKey(init))
  }

  /** The pairs whose key is `k`, in their order in `xs`. */
  function WithKey<T>(xs: seq<(Key, T)>, k: Key): seq<(Key, T)>
    decreases |xs|
  {
    if xs == [] then []
    else (if xs[0].0 == k then [xs[0]] else []) + WithKey(xs[1..], k)
  }

  lemma {:induction false} WithKeyAppend<T>(a: seq<(Key, T)>, b: seq<(Key, T)>, k: Key)
    ensures WithKey(a + b, k) == WithKey(a, k) + WithKey(b, k)
    decreases |a|
  {
    if a == [] {
      assert a + b == b;
    } else {
      assert (a + b)[1..] == a[1..] + b;
      WithKeyAppend(a[1..], b, k);
    }
  }

  lemma {:induction false} WithKeyNone<T>(xs: seq<(Key, T)>, k: Key)
    requires forall i :: 0 <= i < |xs| ==> xs[i].0 != k
    ensures WithKey(xs, k) == []
    decreases |xs|
  {
    if xs != [] {
      WithKeyNone(xs[1..], k);
    }
  }

  /**
   * Insertion puts the new pair after every pair with the same key, so among
   * the pairs of one key it comes last.
   */
  lemma {:induction false} InsertWithKey<T>(x: (Key, T), xs: seq<(Key, T)>, k: Key)
    requires Sorted(xs)
    ensures WithKey(Insert(x, xs), k) == WithKey(xs, k) + (if x.0 == k then [x] else [])
    decreases |xs|
  {
    if xs == [] {
    } else if KeyLess(x.0, xs[0].0) {
      assert Insert(x, xs) == [x] + xs;
      assert ([x] + xs)[1..] == xs;
      if x.0 == k {
        forall i | 0 <= i < |xs| ensures xs[i].0 != k {
          if i > 0 && xs[i].0 != xs[0].0 {
            KeyLessTransitive(x.0, xs[0].0, xs[i].0);
          }
          KeyLessIrreflexive(x.0);
        }
        WithKeyNone(xs, k);
      }
    } else {
      SortedTail(xs);
      var tail := Insert(x, xs[1..]);
      assert Insert(x, xs) == [xs[0]] + tail;
      assert ([xs[0]] + tail)[1..] == tail;
      InsertWithKey(x, xs[1..], k);
    }
  }

  /**
   * `sorted` is stable: for every key, the pairs with that key come out in
   * the order they went in.
   */
  lemma {:induction false} SortByKeyStable<T>(xs: seq<(Key, T)>, k: Key)
    ensures WithKey(SortByKey(xs), k) == WithKey(xs, k)
    decreases |xs|
  {
    if xs != [] {
      var init, x := xs[..|xs| - 1], xs[|xs| - 1];
      assert xs == init + [x];
      SortByKeyStable(init, k);
      InsertWithKey(x, SortByKey(init), k);
      WithKeyAppend(init, [x], k);
      assert WithKey([x], k) == (if x.0 == k then [x] else []) + WithKey([x][1..], k);
    }
  }

  /** No key occurs twice. */
  predicate DistinctKeys<T>(xs: seq<(Key, T)>) {
    forall i, j :: 0 <= i < j < |xs| ==> xs[i].0 != xs[j].0
  }

  /** Keys strictly ascending. */
  predicate StrictlySorted<T>(xs: seq<(Key, T)>) {
    forall i, j :: 0 <= i < j < |xs| ==> KeyLess(xs[i].0, xs[j].0)
  }

  /** Inserting a new key into a strictly ascending sequence keeps it strictly ascending. */
  lemma {:induction false} InsertStrict<T>(x: (Key, T), xs: seq<(Key, T)>)
    requires StrictlySorted(xs)
    requires forall e :: e in xs ==> e.0 != x.0
    ensures Sorted(xs) && StrictlySorted(Insert(x, xs))
    decreases |xs|
  {
    if xs == [] {
    } else if KeyLess(x.0, xs[0].0) {
      forall j | 0 <= j < |xs| ensures KeyLess(x.0, xs[j].0) {
        if j > 0 {
          KeyLessTransitive(x.0, xs[0].0, xs[j].0);
        }
      }
    } else {
      assert xs == [xs[0]] + xs[1..];
      InsertStrict(x, xs[1..]);
      var tail := Insert(x, xs[1..]);
      KeyLessTotal(x.0, xs[0].0);
      forall k | 0 <= k < |tail| ensures KeyLess(xs[0].0, tail[k].0) {
        assert tail[k] in multiset(tail);
      }
    }
  }

  /** Without repeated keys the stable sort is strictly ascending. */
  lemma {:induction false} SortByKeyStrict<T>(xs: seq<(Key, T)>)
    requires DistinctKeys(xs)
    ensures StrictlySorted(SortByKey(xs))
    decreases |xs|
  {
    if xs != [] {
      var init := xs[..|xs| - 1];
      var x := xs[|xs| - 1];
      SortByKeyStrict(init);
      var s := SortByKey(init);
      forall e | e in s ensures e.0 != x.0 {
        assert e in multiset(init);
        var j :| 0 <= j < |init| && init[j] == e;
        assert xs[j] == e;
      }
      InsertStrict(x, s);
    }
  }
}
