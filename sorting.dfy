/**
 * Python's `sorted(xs, key=..., reverse=...)` over an integer key: a
 * stable sort, so items with equal keys keep their original order, also
 * when `reverse` is set.
 */
module Sorting {

  /** a may come before b in a list sorted by the given direction. */
  predicate InOrder(a: int, b: int, reverse: bool) {
    if reverse then a >= b else a <= b
  }

  predicate SortedBy<T>(s: seq<T>, key: T -> int, reverse: bool) {
    forall i, j :: 0 <= i < j < |s| ==> InOrder(key(s[i]), key(s[j]), reverse)
  }

  /** The items of s whose key is k, in the order s has them. */
  function WithKey<T>(s: seq<T>, key: T -> int, k: int): seq<T> {
    if s == [] then [] else (if key(s[0]) == k then [s[0]] else []) + WithKey(s[1..], key, k)
  }

  lemma {:induction false} WithKeyAppend<T>(a: seq<T>, b: seq<T>, key: T -> int, k: int)
    ensures WithKey(a + b, key, k) == WithKey(a, key, k) + WithKey(b, key, k)
  {
    if a != [] {
      assert (a + b)[1..] == a[1..] + b;
      WithKeyAppend(a[1..], b, key, k);
    } else {
      assert a + b == b;
    }
  }

  /** Puts x in front of the first item it may precede, so x stays ahead of the items whose key equals its own. */
  function InsertByKey<T>(x: T, s: seq<T>, key: T -> int, reverse: bool): (r: seq<T>)
    ensures multiset(r) == multiset(s) + multiset{x}
  {
    if s == [] then [x]
    else if InOrder(key(x), key(s[0]), reverse) then [x] + s
    else
      assert s == [s[0]] + s[1..];
      [s[0]] + InsertByKey(x, s[1..], key, reverse)
  }

  lemma InOrderTotal(a: int, b: int, reverse: bool)
    ensures InOrder(a, b, reverse) || InOrder(b, a, reverse)
  {
  }

  /** A head that may precede every item of an ordered list keeps it ordered. */
  lemma SortedCons<T>(y: T, s: seq<T>, key: T -> int, reverse: bool)
    requires SortedBy(s, key, reverse)
    requires forall m :: 0 <= m < |s| ==> InOrder(key(y), key(s[m]), reverse)
    ensures SortedBy([y] + s, key, reverse)
  {
    var r := [y] + s;
    forall i, j | 0 <= i < j < |r| ensures InOrder(key(r[i]), key(r[j]), reverse) {
      assert r[j] == s[j - 1];
      if i > 0 {
        assert r[i] == s[i - 1];
      }
    }
  }

  lemma {:induction false} InsertSorted<T>(x: T, s: seq<T>, key: T -> int, reverse: bool)
    requires SortedBy(s, key, reverse)
    ensures SortedBy(InsertByKey(x, s, key, reverse), key, reverse)
  {
    if s != [] && !InOrder(key(x), key(s[0]), reverse) {
      var tail := s[1..];
      var rest := InsertByKey(x, tail, key, reverse);
      assert SortedBy(tail, key, reverse) by {
        forall i, j | 0 <= i < j < |tail| ensures InOrder(key(tail[i]), key(tail[j]), reverse) {
          assert tail[i] == s[i + 1] && tail[j] == s[j + 1];
        }
      }
      InsertSorted(x, tail, key, reverse);
      InOrderTotal(key(x), key(s[0]), reverse);
      forall m | 0 <= m < |rest| ensures InOrder(key(s[0]), key(rest[m]), reverse) {
        assert rest[m] in multiset(tail) + multiset{x};
        if rest[m] != x {
          assert rest[m] in tail;
          var j :| 0 <= j < |tail| && tail[j] == rest[m];
          assert s[j + 1] == rest[m];
        }
      }
      SortedCons(s[0], rest, key, reverse);
      assert InsertByKey(x, s, key, reverse) == [s[0]] + rest;
    }
  }

  lemma WithKeyCons<T>(y: T, s: seq<T>, key: T -> int, k: int)
    ensures WithKey([y] + s, key, k) == (if key(y) == k then [y] else []) + WithKey(s, key, k)
  {
    assert ([y] + s)[1..] == s;
  }

  /** Inserting x adds x to the group of its own key, in front, and leaves every other group alone. */
  lemma {:induction false} InsertStable<T>(x: T, s: seq<T>, key: T -> int, reverse: bool, k: int)
    ensures WithKey(InsertByKey(x, s, key, reverse), key, k) == (if key(x) == k then [x] else []) + WithKey(s, key, k)
  {
    if s == [] {
      WithKeyCons(x, s, key, k);
    } else if InOrder(key(x), key(s[0]), reverse) {
      WithKeyCons(x, s, key, k);
    } else {
      var rest := InsertByKey(x, s[1..], key, reverse);
      InsertStable(x, s[1..], key, reverse, k);
      assert InsertByKey(x, s, key, reverse) == [s[0]] + rest;
      StepPastHead(x, s[0], rest, s[1..], key, k);
      assert s == [s[0]] + s[1..];
    }
  }

  /** The step of InsertStable where x moves past a head y whose key differs from its own. */
  lemma StepPastHead<T>(x: T, y: T, rest: seq<T>, tail: seq<T>, key: T -> int, k: int)
    requires key(x) != key(y)
    requires WithKey(rest, key, k) == (if key(x) == k then [x] else []) + WithKey(tail, key, k)
    ensures WithKey([y] + rest, key, k) == (if key(x) == k then [x] else []) + WithKey([y] + tail, key, k)
  {
    WithKeyCons(y, rest, key, k);
    WithKeyCons(y, tail, key, k);
  }

  /** `sorted(s, key=key, reverse=reverse)`. */
  function SortByKey<T>(s: seq<T>, key: T -> int, reverse: bool): (r: seq<T>)
    ensures multiset(r) == multiset(s)
  {
    if s == [] then []
    else
      assert s == [s[0]] + s[1..];
      InsertByKey(s[0], SortByKey(s[1..], key, reverse), key, reverse)
  }

  /** The sorted list is in order. */
  lemma {:induction false} SortSorted<T>(s: seq<T>, key: T -> int, reverse: bool)
    ensures SortedBy(SortByKey(s, key, reverse), key, reverse)
  {
    if s != [] {
      SortSorted(s[1..], key, reverse);
      InsertSorted(s[0], SortByKey(s[1..], key, reverse), key, reverse);
    }
  }

  /** The sort is stable: items sharing a key appear in their original order. */
  lemma {:induction false} SortStable<T>(s: seq<T>, key: T -> int, reverse: bool, k: int)
    ensures WithKey(SortByKey(s, key, reverse), key, k) == WithKey(s, key, k)
  {
    if s != [] {
      SortStable(s[1..], key, reverse, k);
      InsertStable(s[0], SortByKey(s[1..], key, reverse), key, reverse, k);
    }
  }

  lemma SortStableAll<T>(s: seq<T>, key: T -> int, reverse: bool)
    ensures forall k :: WithKey(SortByKey(s, key, reverse), key, k) == WithKey(s, key, k)
  {
    forall k ensures WithKey(SortByKey(s, key, reverse), key, k) == WithKey(s, key, k) {
      SortStable(s, key, reverse, k);
    }
  }

  /** The last item of a list is the last item of its key's group. */
  lemma WithKeyEndsWithLast<T>(s: seq<T>, key: T -> int)
    requires s != []
    ensures var g := WithKey(s, key, key(s[|s| - 1])); g != [] && g[|g| - 1] == s[|s| - 1]
  {
    var n := |s| - 1;
    assert s == s[..n] + [s[n]];
    WithKeyAppend(s[..n], [s[n]], key, key(s[n]));
    assert [s[n]][1..] == [];
  }

  /** An ascending sort leaves in last place a last item that no other item's key exceeds. */
  lemma SortKeepsNewestLast<T>(s: seq<T>, key: T -> int)
    requires s != []
    requires forall i :: 0 <= i < |s| ==> key(s[i]) <= key(s[|s| - 1])
    ensures var r := SortByKey(s, key, false); r != [] && r[|r| - 1] == s[|s| - 1]
  {
    var x := s[|s| - 1];
    var r := SortByKey(s, key, false);
    assert x in multiset(r);
    var n := |r| - 1;
    assert key(r[n]) == key(x) by {
      SortSorted(s, key, false);
      var j :| 0 <= j < |r| && r[j] == x;
      assert r[n] in multiset(s);
    }
    SortStable(s, key, false, key(x));
    WithKeyEndsWithLast(r, key);
    WithKeyEndsWithLast(s, key);
  }

  /** A descending sort starts with an item whose key is the largest. */
  lemma SortStartsWithLargest<T>(s: seq<T>, key: T -> int, x: T)
    requires x in s
    requires forall i :: 0 <= i < |s| ==> key(s[i]) <= key(x)
    ensures var r := SortByKey(s, key, true); r != [] && key(r[0]) == key(x)
  {
    var r := SortByKey(s, key, true);
    assert x in multiset(r);
    SortSorted(s, key, true);
    assert r[0] in multiset(s);
  }
}
