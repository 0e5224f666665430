/**
 * A stable sort by an integer key: the order `Array.prototype.sort` produces for the comparator
 * `(a, b) => key(a) - key(b)` (the sort has been required to be stable since ECMAScript 2019,
 * section 22.1.3.27 of ECMA-262, 10th edition), and the order this model gives to the rows of an
 * `order by` query.
 */
module Sorting {
  import opened Seqs

  predicate SortedBy<T>(s: seq<T>, key: T -> int) {
    forall i, j :: 0 <= i < j < |s| ==> key(s[i]) <= key(s[j])
  }

  /** The elements whose key is `k`. */
  function KeyIs<T>(key: T -> int, k: int): T -> bool {
    y => key(y) == k
  }

  /** Puts `x` in front of the first element whose key is not smaller than its own. */
  function Insert<T>(x: T, s: seq<T>, key: T -> int): (r: seq<T>)
    ensures multiset(r) == multiset(s) + multiset{x}
    ensures |r| == |s| + 1
  {
    if s == [] then [x]
    else if key(s[0]) >= key(x) then [x] + s
    else
      assert s == [s[0]] + s[1..];
      [s[0]] + Insert(x, s[1..], key)
  }

  /** The stable sort of `s` by `key`, ascending. */
  function SortBy<T>(s: seq<T>, key: T -> int): (r: seq<T>)
    ensures multiset(r) == multiset(s)
    ensures |r| == |s|
  {
    if s == [] then []
    else
      assert s == [s[0]] + s[1..];
      Insert(s[0], SortBy(s[1..], key), key)
  }

  lemma {:induction false} InsertSorted<T>(x: T, s: seq<T>, key: T -> int)
    requires SortedBy(s, key)
    ensures SortedBy(Insert(x, s, key), key)
  {
    if s != [] && key(s[0]) < key(x) {
      InsertSorted(x, s[1..], key);
      var r := Insert(x, s, key);
      var t := Insert(x, s[1..], key);
      assert r == [s[0]] + t;
      forall j | 0 < j < |r| ensures key(s[0]) <= key(r[j]) {
        assert r[j] in multiset(t);
        assert r[j] in multiset(s[1..]) + multiset{x};
        if r[j] != x {
          assert r[j] in s[1..];
        }
      }
    }
  }

  /** Inserting before an element with a larger key than `x` leaves that element last. */
  lemma {:induction false} InsertBeforeLargest<T>(y: T, t: seq<T>, x: T, key: T -> int)
    requires key(y) < key(x)
    ensures Insert(y, t + [x], key) == Insert(y, t, key) + [x]
  {
    var u := t + [x];
    if t == [] {
      assert u == [x];
    } else if key(t[0]) >= key(y) {
      assert u[0] == t[0];
      assert [y] + u == ([y] + t) + [x];
    } else {
      assert u[0] == t[0] && u[1..] == t[1..] + [x];
      InsertBeforeLargest(y, t[1..], x, key);
      assert Insert(y, u, key) == [t[0]] + (Insert(y, t[1..], key) + [x]);
      assert [t[0]] + (Insert(y, t[1..], key) + [x]) == ([t[0]] + Insert(y, t[1..], key)) + [x];
    }
  }

  /** An element with a larger key than all others sorts last. */
  lemma {:induction false} SortByAppendLargest<T>(s: seq<T>, x: T, key: T -> int)
    requires forall k :: 0 <= k < |s| ==> key(s[k]) < key(x)
    ensures SortBy(s + [x], key) == SortBy(s, key) + [x]
  {
    if s == [] {
      assert s + [x] == [x];
    } else {
      assert (s + [x])[0] == s[0];
      assert (s + [x])[1..] == s[1..] + [x];
      SortByAppendLargest(s[1..], x, key);
      InsertBeforeLargest(s[0], SortBy(s[1..], key), x, key);
    }
  }

  /** The rows come out in non-decreasing key order. */
  lemma {:induction false} SortBySorted<T>(s: seq<T>, key: T -> int)
    ensures SortedBy(SortBy(s, key), key)
  {
    if s != [] {
      SortBySorted(s[1..], key);
      InsertSorted(s[0], SortBy(s[1..], key), key);
    }
  }

  lemma {:induction false} InsertKeepsKeyOrder<T>(x: T, s: seq<T>, key: T -> int, k: int)
    ensures Filter(Insert(x, s, key), KeyIs(key, k))
         == (if key(x) == k then [x] else []) + Filter(s, KeyIs(key, k))
  {
    var p := KeyIs(key, k);
    if s == [] {
    } else if key(s[0]) >= key(x) {
      assert ([x] + s)[1..] == s;
    } else {
      InsertKeepsKeyOrder(x, s[1..], key, k);
      assert ([s[0]] + Insert(x, s[1..], key))[1..] == Insert(x, s[1..], key);
    }
  }

  /** Stability: the elements with any one key keep their relative input order. */
  lemma {:induction false} SortByStable<T>(s: seq<T>, key: T -> int, k: int)
    ensures Filter(SortBy(s, key), KeyIs(key, k)) == Filter(s, KeyIs(key, k))
  {
    if s != [] {
      SortByStable(s[1..], key, k);
      InsertKeepsKeyOrder(s[0], SortBy(s[1..], key), key, k);
    }
  }

  /** Input that is already in key order is left as it is. */
  lemma {:induction false} SortBySortedInput<T>(s: seq<T>, key: T -> int)
    requires SortedBy(s, key)
    ensures SortBy(s, key) == s
  {
    if s != [] {
      SortBySortedInput(s[1..], key);
      if |s| > 1 {
        assert key(s[1]) >= key(s[0]);
      }
    }
  }

  lemma MapCons<T>(a: T, t: seq<T>, f: T -> T)
    ensures Map([a] + t, f) == [f(a)] + Map(t, f)
  {
    var l := Map([a] + t, f);
    var r := [f(a)] + Map(t, f);
    forall k | 0 <= k < |l| ensures l[k] == r[k] {
      if k > 0 {
        assert ([a] + t)[k] == t[k - 1];
      }
    }
  }

  lemma {:induction false} InsertMap<T>(x: T, s: seq<T>, key: T -> int, f: T -> T)
    requires key(f(x)) == key(x)
    requires forall k :: 0 <= k < |s| ==> key(f(s[k])) == key(s[k])
    ensures Insert(f(x), Map(s, f), key) == Map(Insert(x, s, key), f)
  {
    var ms := Map(s, f);
    if s == [] {
      assert Map([x], f) == [f(x)];
    } else if key(s[0]) >= key(x) {
      assert key(ms[0]) >= key(f(x));
      MapCons(x, s, f);
    } else {
      assert key(ms[0]) < key(f(x));
      var rest := s[1..];
      assert s == [s[0]] + rest;
      MapCons(s[0], rest, f);
      assert ms[1..] == Map(rest, f);
      assert forall k :: 0 <= k < |rest| ==> key(f(rest[k])) == key(rest[k]) by {
        forall k | 0 <= k < |rest| ensures key(f(rest[k])) == key(rest[k]) {
          assert rest[k] == s[k + 1];
        }
      }
      InsertMap(x, rest, key, f);
      MapCons(s[0], Insert(x, rest, key), f);
    }
  }

  /** A change that keeps every element's key commutes with the sort. */
  lemma {:induction false} SortByMap<T>(s: seq<T>, key: T -> int, f: T -> T)
    requires forall k :: 0 <= k < |s| ==> key(f(s[k])) == key(s[k])
    ensures SortBy(Map(s, f), key) == Map(SortBy(s, key), f)
  {
    if s != [] {
      assert Map(s, f)[1..] == Map(s[1..], f);
      SortByMap(s[1..], key, f);
      var sorted := SortBy(s[1..], key);
      forall k | 0 <= k < |sorted| ensures key(f(sorted[k])) == key(sorted[k]) {
        assert sorted[k] in multiset(s[1..]);
      }
      InsertMap(s[0], sorted, key, f);
    }
  }
}
