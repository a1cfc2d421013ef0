/** `Array.prototype.sort(compare)`. The language has required a stable sort
    since ES2019; with a comparator that orders elements consistently (by a
    numeric key), the result is the unique stable sorted permutation, which
    the insertion sort below computes. A comparator that returns NaN counts
    as returning 0, as the specification of `sort` prescribes. */
module Sorting {

  function Sign(x: int): int {
    if x < 0 then -1 else if x > 0 then 1 else 0
  }

  /** Places `x` in front of the first element it does not sort after. */
  function Insert<T>(x: T, s: seq<T>, cmp: (T, T) -> int): (r: seq<T>)
    ensures multiset(r) == multiset(s) + multiset{x}
  {
    if s == [] || cmp(x, s[0]) <= 0 then [x] + s
    else
      assert s == [s[0]] + s[1..];
      [s[0]] + Insert(x, s[1..], cmp)
  }

  /** A stable sort of `s` by `cmp`: each element goes in front of the
      already sorted later elements it does not sort after. */
  function SortBy<T>(s: seq<T>, cmp: (T, T) -> int): (r: seq<T>)
    ensures multiset(r) == multiset(s)
  {
    if s == [] then []
    else
      assert s == [s[0]] + s[1..];
      Insert(s[0], SortBy(s[1..], cmp), cmp)
  }

  /** `cmp` orders the elements of `s` by `key`. */
  ghost predicate ConsistentWith<T(!new)>(cmp: (T, T) -> int, key: T -> int, s: seq<T>) {
    forall a, b :: a in s && b in s ==> Sign(cmp(a, b)) == Sign(key(a) - key(b))
  }

  ghost predicate SortedByKey<T>(r: seq<T>, key: T -> int) {
    forall i, j :: 0 <= i < j < |r| ==> key(r[i]) <= key(r[j])
  }

  lemma {:induction false} InsertSorted<T(!new)>(x: T, t: seq<T>, cmp: (T, T) -> int, key: T -> int)
    requires ConsistentWith(cmp, key, [x] + t)
    requires SortedByKey(t, key)
    ensures SortedByKey(Insert(x, t, cmp), key)
  {
    if t != [] && cmp(x, t[0]) > 0 {
      assert x in [x] + t && t[0] in [x] + t;
      var rest := t[1..];
      ConsistentWithoutHead(cmp, key, x, t);
      InsertSorted(x, rest, cmp, key);
      forall z | z in rest ensures key(t[0]) <= key(z) {
        var k :| 0 <= k < |rest| && rest[k] == z;
        assert t[k + 1] == z;
      }
      InsertAbove(x, rest, cmp, key, key(t[0]));
      ConsSorted(t[0], Insert(x, rest, cmp), key);
    } else if t != [] {
      assert x in [x] + t && t[0] in [x] + t;
      assert key(x) <= key(t[0]);
    }
  }

  /** Consistency on `[x] + t` holds on `[x]` and the tail of `t`. */
  lemma ConsistentWithoutHead<T(!new)>(cmp: (T, T) -> int, key: T -> int, x: T, t: seq<T>)
    requires t != [] && ConsistentWith(cmp, key, [x] + t)
    ensures ConsistentWith(cmp, key, [x] + t[1..])
  {
    forall a | a in [x] + t[1..] ensures a in [x] + t {
      if a != x {
        assert a in t[1..];
      }
    }
  }

  /** Inserting an element above a bound into a list above that bound stays above it. */
  lemma InsertAbove<T>(x: T, s: seq<T>, cmp: (T, T) -> int, key: T -> int, lo: int)
    requires lo <= key(x) && forall z :: z in s ==> lo <= key(z)
    ensures forall y :: y in Insert(x, s, cmp) ==> lo <= key(y)
  {
    forall y | y in Insert(x, s, cmp) ensures lo <= key(y) {
      assert y in multiset(Insert(x, s, cmp));
      assert y == x || y in multiset(s);
    }
  }

  /** A head no greater than anything in a sorted tail gives a sorted list. */
  lemma ConsSorted<T>(h: T, r: seq<T>, key: T -> int)
    requires SortedByKey(r, key) && forall y :: y in r ==> key(h) <= key(y)
    ensures SortedByKey([h] + r, key)
  {
    var s := [h] + r;
    forall i, j | 0 <= i < j < |s| ensures key(s[i]) <= key(s[j]) {
      assert s[j] == r[j - 1];
      if i > 0 {
        assert s[i] == r[i - 1];
      }
    }
  }

  /** With a comparator consistent with a key, the sort orders by that key. */
  lemma {:induction false} SortBySorted<T(!new)>(s: seq<T>, cmp: (T, T) -> int, key: T -> int)
    requires ConsistentWith(cmp, key, s)
    ensures SortedByKey(SortBy(s, cmp), key)
  {
    if s != [] {
      assert s == [s[0]] + s[1..];
      assert ConsistentWith(cmp, key, s[1..]);
      SortBySorted(s[1..], cmp, key);
      var t := SortBy(s[1..], cmp);
      assert ConsistentWith(cmp, key, [s[0]] + t) by {
        forall a | a in [s[0]] + t ensures a in s {
          assert a in multiset([s[0]] + t);
        }
      }
      InsertSorted(s[0], t, cmp, key);
    }
  }
}
