/** Small generic vocabulary shared by every module: an optional value and the
    two array builtins the application leans on, `filter` and
    `Array.from(new Set(xs))`. */
module Base {

  /** A value that may be absent (JavaScript's `undefined`/`null`). */
  datatype Option<T> = None | Some(value: T) {
    function GetOr(default: T): T {
      if Some? then value else default
    }
  }

  /** `xs.filter(p)`: the elements of `xs` that satisfy `p`, in their original order. */
  function Filter<T(!new)>(p: T -> bool, xs: seq<T>): (r: seq<T>)
    ensures |r| <= |xs|
    ensures forall x :: x in r <==> x in xs && p(x)
  {
    if xs == [] then [] else (if p(xs[0]) then [xs[0]] else []) + Filter(p, xs[1..])
  }

  /** Filtering distributes over concatenation: together with the one-element
      case this pins `Filter` down as the order-preserving selection. */
  lemma {:induction false} FilterAppend<T(!new)>(p: T -> bool, a: seq<T>, b: seq<T>)
    ensures Filter(p, a + b) == Filter(p, a) + Filter(p, b)
  {
    if a == [] {
      assert a + b == b;
    } else {
      assert (a + b)[1..] == a[1..] + b;
      FilterAppend(p, a[1..], b);
    }
  }

  /** A filter removes nothing exactly when every element passes it, and then
      it returns its input unchanged. */
  lemma {:induction false} FilterKeepsAll<T(!new)>(p: T -> bool, xs: seq<T>)
    ensures |Filter(p, xs)| == |xs| <==> forall x :: x in xs ==> p(x)
    ensures (forall x :: x in xs ==> p(x)) ==> Filter(p, xs) == xs
  {
    if xs != [] {
      FilterKeepsAll(p, xs[1..]);
      assert forall x :: x in xs[1..] ==> x in xs;
      if !p(xs[0]) {
        assert |Filter(p, xs[1..])| <= |xs| - 1;
      }
      assert xs == [xs[0]] + xs[1..];
    }
  }

  /** Filtering twice with the same predicate changes nothing more. */
  lemma {:induction false} FilterIdempotent<T(!new)>(p: T -> bool, xs: seq<T>)
    ensures Filter(p, Filter(p, xs)) == Filter(p, xs)
  {
    FilterKeepsAll(p, Filter(p, xs));
  }

  /** The multiset of a sequence splits into the part a filter keeps and the
      part it drops. */
  lemma FilterPartition<T(!new)>(p: T -> bool, xs: seq<T>)
    ensures multiset(xs) == multiset(Filter(p, xs)) + multiset(Filter(x => !p(x), xs))
  {
    var q := x => !p(x);
    forall x ensures multiset(xs)[x] == multiset(Filter(p, xs))[x] + multiset(Filter(q, xs))[x] {
      FilterCount(p, xs, x);
      FilterCount(q, xs, x);
    }
  }

  /** A filter keeps every copy of a value that passes and none of one that fails. */
  lemma {:induction false} FilterCount<T(!new)>(p: T -> bool, xs: seq<T>, x: T)
    ensures multiset(Filter(p, xs))[x] == if p(x) then multiset(xs)[x] else 0
  {
    if xs != [] {
      FilterCount(p, xs[1..], x);
      assert xs == [xs[0]] + xs[1..];
    }
  }

  /** `rel` holds of every pair of elements in their order in `xs`. */
  predicate Pairwise<T>(rel: (T, T) -> bool, xs: seq<T>) {
    forall i, j :: 0 <= i < j < |xs| ==> rel(xs[i], xs[j])
  }

  /** Filtering keeps a pairwise property: the survivors keep their order. */
  lemma {:induction false} FilterPairwise<T(!new)>(p: T -> bool, rel: (T, T) -> bool, xs: seq<T>)
    requires Pairwise(rel, xs)
    ensures Pairwise(rel, Filter(p, xs))
  {
    if xs != [] {
      var rest := xs[1..];
      assert Pairwise(rel, rest) by {
        forall i, j | 0 <= i < j < |rest| ensures rel(rest[i], rest[j]) {
          assert rest[i] == xs[i + 1] && rest[j] == xs[j + 1];
        }
      }
      FilterPairwise(p, rel, rest);
      var rr := Filter(p, rest);
      if p(xs[0]) {
        var r := [xs[0]] + rr;
        forall i, j | 0 <= i < j < |r| ensures rel(r[i], r[j]) {
          if i == 0 {
            assert r[j] == rr[j - 1];
            assert r[j] in rest;
            var k :| 0 <= k < |rest| && rest[k] == r[j];
            assert xs[k + 1] == r[j];
          } else {
            assert r[i] == rr[i - 1] && r[j] == rr[j - 1];
          }
        }
      }
    }
  }

  /** No element occurs twice. */
  predicate Distinct<T(==)>(xs: seq<T>) {
    forall i, j :: 0 <= i < j < |xs| ==> xs[i] != xs[j]
  }

  /** A sequence is duplicate-free exactly when no value occurs twice in its multiset. */
  lemma {:induction false} DistinctMultiset<T>(xs: seq<T>)
    ensures Distinct(xs) <==> forall x :: multiset(xs)[x] <= 1
  {
    if xs != [] {
      var rest := xs[1..];
      DistinctMultiset(rest);
      assert xs == [xs[0]] + rest;
      assert multiset(xs) == multiset{xs[0]} + multiset(rest);
      if Distinct(xs) {
        assert Distinct(rest) by {
          forall i, j | 0 <= i < j < |rest| ensures rest[i] != rest[j] {
            assert rest[i] == xs[i + 1] && rest[j] == xs[j + 1];
          }
        }
        assert xs[0] !in rest by {
          forall k | 0 <= k < |rest| ensures rest[k] != xs[0] {
            assert rest[k] == xs[k + 1];
          }
        }
      } else {
        var i, j :| 0 <= i < j < |xs| && xs[i] == xs[j];
        if i == 0 {
          assert xs[j] in rest;
          assert multiset(xs)[xs[0]] >= 2;
        } else {
          assert rest[i - 1] == rest[j - 1];
          assert !Distinct(rest);
          var x :| multiset(rest)[x] > 1;
          assert multiset(xs)[x] > 1;
        }
      }
    }
  }

  /** Reordering keeps a sequence duplicate-free. */
  lemma DistinctPermutation<T>(xs: seq<T>, ys: seq<T>)
    requires multiset(xs) == multiset(ys) && Distinct(xs)
    ensures Distinct(ys)
  {
    DistinctMultiset(xs);
    DistinctMultiset(ys);
  }

  /** `Array.from(new Set(xs))`: each value once, in order of first occurrence. */
  function Dedup<T(==,!new)>(xs: seq<T>): (r: seq<T>)
    ensures Distinct(r)
    ensures forall x :: x in r <==> x in xs
  {
    if xs == [] then []
    else
      var r := Dedup(xs[..|xs| - 1]);
      assert forall x :: x in xs <==> x in xs[..|xs| - 1] || x == xs[|xs| - 1] by {
        assert xs == xs[..|xs| - 1] + [xs[|xs| - 1]];
      }
      if xs[|xs| - 1] in r then r else r + [xs[|xs| - 1]]
  }
}
