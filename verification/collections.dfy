/**
 * The array operations the pages use, on sequences: `filter`, `reduce` as a sum,
 * `some`, and `sort` with a numeric comparator (`(a, b) => key(a) - key(b)`),
 * which is stable since ES2019.
 */
module Collections {

  /** `xs.filter(p)`. */
  function Filter<T>(xs: seq<T>, p: T -> bool): (r: seq<T>)
    ensures |r| <= |xs|
    ensures forall i :: 0 <= i < |r| ==> p(r[i])
    ensures multiset(r) <= multiset(xs)
  {
    if xs == [] then []
    else
      assert xs == [xs[0]] + xs[1..];
      (if p(xs[0]) then [xs[0]] else []) + Filter(xs[1..], p)
  }

  /** Filtering a sequence with a given first element. */
  lemma FilterCons<T>(x: T, rest: seq<T>, p: T -> bool)
    ensures Filter([x] + rest, p) == (if p(x) then [x] else []) + Filter(rest, p)
  {
    assert ([x] + rest)[0] == x && ([x] + rest)[1..] == rest;
  }

  /** Filtering commutes with concatenation: the kept elements stay in their order. */
  lemma {:induction false} FilterConcat<T>(a: seq<T>, b: seq<T>, p: T -> bool)
    ensures Filter(a + b, p) == Filter(a, p) + Filter(b, p)
  {
    if a == [] {
      assert a + b == b;
    } else {
      assert (a + b)[0] == a[0] && (a + b)[1..] == a[1..] + b;
      FilterConcat(a[1..], b, p);
    }
  }

  /** An element is kept exactly when it is present and satisfies the predicate. */
  lemma {:induction false} FilterMembership<T>(xs: seq<T>, p: T -> bool, x: T)
    ensures x in Filter(xs, p) <==> x in xs && p(x)
  {
    if xs != [] {
      FilterMembership(xs[1..], p, x);
      assert xs == [xs[0]] + xs[1..];
    }
  }

  /** Filtering with a predicate that holds everywhere keeps everything. */
  lemma {:induction false} FilterAll<T>(xs: seq<T>, p: T -> bool)
    requires forall i :: 0 <= i < |xs| ==> p(xs[i])
    ensures Filter(xs, p) == xs
  {
    if xs != [] {
      FilterAll(xs[1..], p);
    }
  }

  /** Filtering with a predicate that holds nowhere keeps nothing. */
  lemma {:induction false} FilterNone<T>(xs: seq<T>, p: T -> bool)
    requires forall i :: 0 <= i < |xs| ==> !p(xs[i])
    ensures Filter(xs, p) == []
  {
    if xs != [] {
      FilterNone(xs[1..], p);
    }
  }

  /** The kept elements, stated for every value at once. */
  lemma FilterMembers<T>(xs: seq<T>, p: T -> bool)
    ensures forall x :: x in Filter(xs, p) <==> x in xs && p(x)
  {
    forall x ensures x in Filter(xs, p) <==> x in xs && p(x) {
      FilterMembership(xs, p, x);
    }
  }

  /** Filtering by a predicate and by its negation splits a sequence's length. */
  lemma {:induction false} FilterComplement<T>(xs: seq<T>, p: T -> bool, q: T -> bool)
    requires forall x :: q(x) == !p(x)
    ensures |Filter(xs, p)| + |Filter(xs, q)| == |xs|
  {
    if xs != [] {
      FilterComplement(xs[1..], p, q);
    }
  }

  /** A stronger predicate keeps no more elements. */
  lemma {:induction false} FilterStronger<T>(xs: seq<T>, p: T -> bool, q: T -> bool)
    requires forall x :: q(x) ==> p(x)
    ensures |Filter(xs, q)| <= |Filter(xs, p)|
  {
    if xs != [] {
      FilterStronger(xs[1..], p, q);
    }
  }

  /** Two disjoint predicates whose union is `p` split what `p` keeps. */
  lemma {:induction false} FilterSplit<T>(xs: seq<T>, p: T -> bool, q: T -> bool, r: T -> bool)
    requires forall x :: p(x) == (q(x) || r(x))
    requires forall x :: !(q(x) && r(x))
    ensures multiset(Filter(xs, q)) + multiset(Filter(xs, r)) == multiset(Filter(xs, p))
  {
    if xs != [] {
      var x, rest := xs[0], xs[1..];
      assert xs == [x] + rest;
      FilterSplit(rest, p, q, r);
      FilterSplitStep(x, rest, p, q, r);
    }
  }

  lemma FilterSplitStep<T>(x: T, rest: seq<T>, p: T -> bool, q: T -> bool, r: T -> bool)
    requires p(x) == (q(x) || r(x)) && !(q(x) && r(x))
    requires multiset(Filter(rest, q)) + multiset(Filter(rest, r)) == multiset(Filter(rest, p))
    ensures multiset(Filter([x] + rest, q)) + multiset(Filter([x] + rest, r)) == multiset(Filter([x] + rest, p))
  {
    FilterCons(x, rest, q);
    FilterCons(x, rest, r);
    FilterCons(x, rest, p);
    var hq, hr, hp := (if q(x) then [x] else []), (if r(x) then [x] else []), (if p(x) then [x] else []);
    assert multiset(hq) + multiset(hr) == multiset(hp);
    MultisetsAppend(hq, hr, hp, Filter(rest, q), Filter(rest, r), Filter(rest, p));
  }

  lemma MultisetsAppend<T>(hq: seq<T>, hr: seq<T>, hp: seq<T>, fq: seq<T>, fr: seq<T>, fp: seq<T>)
    requires multiset(hq) + multiset(hr) == multiset(hp)
    requires multiset(fq) + multiset(fr) == multiset(fp)
    ensures multiset(hq + fq) + multiset(hr + fr) == multiset(hp + fp)
  {
  }

  /** Extending a prefix by one element. */
  lemma TakeSnoc<T>(xs: seq<T>, n: nat)
    requires n < |xs|
    ensures xs[..n + 1] == xs[..n] + [xs[n]]
  {
  }

  lemma TakeAll<T>(xs: seq<T>)
    ensures xs[..|xs|] == xs
  {
  }

  lemma AppendNil<T>(a: seq<T>)
    ensures a + [] == a
  {
  }

  lemma AppendAssoc<T>(a: seq<T>, b: seq<T>, c: seq<T>)
    ensures a + (b + c) == (a + b) + c
  {
  }

  /** `xs.reduce((acc, x) => acc + f(x), 0)`. */
  function SumBy<T>(xs: seq<T>, f: T -> int): int {
    if xs == [] then 0 else f(xs[0]) + SumBy(xs[1..], f)
  }

  lemma {:induction false} SumByConcat<T>(a: seq<T>, b: seq<T>, f: T -> int)
    ensures SumBy(a + b, f) == SumBy(a, f) + SumBy(b, f)
  {
    if a == [] {
      assert a + b == b;
    } else {
      assert (a + b)[0] == a[0] && (a + b)[1..] == a[1..] + b;
      SumByConcat(a[1..], b, f);
    }
  }

  /** A sum of zero terms is zero. */
  lemma {:induction false} SumByZero<T>(xs: seq<T>, f: T -> int)
    requires forall i :: 0 <= i < |xs| ==> f(xs[i]) == 0
    ensures SumBy(xs, f) == 0
  {
    if xs != [] {
      SumByZero(xs[1..], f);
    }
  }

  /** Two sums whose terms agree everywhere are equal. */
  lemma {:induction false} SumByEqual<T, U>(a: seq<T>, b: seq<U>, f: T -> int, h: U -> int)
    requires |a| == |b|
    requires forall i :: 0 <= i < |a| ==> f(a[i]) == h(b[i])
    ensures SumBy(a, f) == SumBy(b, h)
  {
    if a != [] {
      SumByEqual(a[1..], b[1..], f, h);
    }
  }

  /** Two sums whose terms agree everywhere but at `m` differ as the terms at `m` do. */
  lemma {:induction false} SumByUpdate<T, U>(a: seq<T>, b: seq<U>, f: T -> int, h: U -> int, m: nat)
    requires |a| == |b| && m < |a|
    requires forall i :: 0 <= i < |a| && i != m ==> f(a[i]) == h(b[i])
    ensures SumBy(a, f) == SumBy(b, h) + f(a[m]) - h(b[m])
  {
    if m == 0 {
      SumByEqual(a[1..], b[1..], f, h);
    } else {
      SumByUpdate(a[1..], b[1..], f, h, m - 1);
    }
  }

  /** A sum of non-negative terms over a filtered sequence is at most the whole sum. */
  lemma {:induction false} SumByFilterBound<T>(xs: seq<T>, p: T -> bool, f: T -> int)
    requires forall i :: 0 <= i < |xs| ==> f(xs[i]) >= 0
    ensures 0 <= SumBy(Filter(xs, p), f) <= SumBy(xs, f)
  {
    if xs != [] {
      SumByFilterBound(xs[1..], p, f);
      var head := if p(xs[0]) then [xs[0]] else [];
      SumByConcat(head, Filter(xs[1..], p), f);
    }
  }

  /** Removing the element at `j`. */
  lemma RemoveAt<T>(ys: seq<T>, j: nat)
    requires j < |ys|
    ensures ys == ys[..j] + [ys[j]] + ys[j + 1..]
    ensures multiset(ys[..j] + ys[j + 1..]) == multiset(ys) - multiset{ys[j]}
  {
    assert ys == ys[..j] + [ys[j]] + ys[j + 1..];
  }

  /** A sum does not depend on the order of its terms. */
  lemma {:induction false} SumByPermutation<T>(xs: seq<T>, ys: seq<T>, f: T -> int)
    requires multiset(xs) == multiset(ys)
    ensures SumBy(xs, f) == SumBy(ys, f)
    decreases |xs|
  {
    if xs == [] {
      assert |ys| == |multiset(ys)| == 0;
    } else {
      var j := PermutationTail(xs, ys);
      var rest := ys[..j] + ys[j + 1..];
      SumByPermutation(xs[1..], rest, f);
      SumByRemoveAt(ys[..j], ys[j], ys[j + 1..], f);
    }
  }

  lemma SumByRemoveAt<T>(a: seq<T>, x: T, b: seq<T>, f: T -> int)
    ensures SumBy(a + [x] + b, f) == f(x) + SumBy(a + b, f)
  {
    AppendAssoc(a, [x], b);
    SumByConcat(a, [x] + b, f);
    SumByConcat(a, b, f);
    assert ([x] + b)[1..] == b;
  }

  /** The first element of `xs` sits at some position `j` of its permutation `ys`; without it, the rests are permutations. */
  lemma PermutationTail<T>(xs: seq<T>, ys: seq<T>) returns (j: nat)
    requires xs != [] && multiset(xs) == multiset(ys)
    ensures j < |ys| && ys[j] == xs[0]
    ensures xs == [xs[0]] + xs[1..] && ys == ys[..j] + [ys[j]] + ys[j + 1..]
    ensures multiset(xs[1..]) == multiset(ys[..j] + ys[j + 1..])
  {
    assert xs[0] in multiset(ys);
    j :| 0 <= j < |ys| && ys[j] == xs[0];
    RemoveAt(ys, j);
    assert xs == [xs[0]] + xs[1..];
  }

  /** Filtering two permutations of each other gives permutations of each other. */
  lemma {:induction false} FilterPermutation<T>(xs: seq<T>, ys: seq<T>, p: T -> bool)
    requires multiset(xs) == multiset(ys)
    ensures multiset(Filter(xs, p)) == multiset(Filter(ys, p))
    decreases |xs|
  {
    if xs == [] {
      assert |ys| == |multiset(ys)| == 0;
    } else {
      var j := PermutationTail(xs, ys);
      var rest := ys[..j] + ys[j + 1..];
      FilterPermutation(xs[1..], rest, p);
      FilterRemoveAt(ys[..j], ys[j], ys[j + 1..], p);
      FilterConcat([xs[0]], xs[1..], p);
      assert multiset(Filter(xs, p)) == multiset(Filter([xs[0]], p)) + multiset(Filter(xs[1..], p));
    }
  }

  lemma FilterRemoveAt<T>(a: seq<T>, x: T, b: seq<T>, p: T -> bool)
    ensures multiset(Filter(a + [x] + b, p)) == multiset(Filter([x], p)) + multiset(Filter(a + b, p))
  {
    AppendAssoc(a, [x], b);
    FilterConcat(a, [x] + b, p);
    FilterConcat([x], b, p);
    FilterConcat(a, b, p);
  }

  // ---------------------------------------------------------------------------
  // Counting distinct elements

  /** The set of values `f` takes on a sequence. */
  function ImageSet<T, U>(xs: seq<T>, f: T -> U): (r: set<U>)
    ensures forall i :: 0 <= i < |xs| ==> f(xs[i]) in r
    ensures forall u :: u in r ==> exists i :: 0 <= i < |xs| && f(xs[i]) == u
  {
    if xs == [] then {} else {f(xs[0])} + ImageSet(xs[1..], f)
  }

  /** No two positions of the sequence have the same image. */
  predicate DistinctImages<T, U(==)>(xs: seq<T>, f: T -> U) {
    forall i, j :: 0 <= i < j < |xs| ==> f(xs[i]) != f(xs[j])
  }

  /** Distinct images are as many as the elements; in general there are at most as many. */
  lemma {:induction false} ImageSetCard<T, U>(xs: seq<T>, f: T -> U)
    ensures |ImageSet(xs, f)| <= |xs|
    ensures DistinctImages(xs, f) ==> |ImageSet(xs, f)| == |xs|
  {
    if xs != [] {
      ImageSetCard(xs[1..], f);
      if DistinctImages(xs, f) {
        assert DistinctImages(xs[1..], f) by {
          forall i, j | 0 <= i < j < |xs| - 1 ensures f(xs[1..][i]) != f(xs[1..][j]) {
            assert f(xs[i + 1]) != f(xs[j + 1]);
          }
        }
        assert f(xs[0]) !in ImageSet(xs[1..], f);
      }
    }
  }

  /** A subset has no more elements than its superset. */
  lemma {:induction false} SubsetCard<U>(a: set<U>, b: set<U>)
    requires a <= b
    ensures |a| <= |b|
    decreases |a|
  {
    if a != {} {
      var x :| x in a;
      SubsetCard(a - {x}, b - {x});
    }
  }

  /** A sequence whose images are distinct and lie in `s` has at most `|s|` elements. */
  lemma DistinctInto<T, U>(xs: seq<T>, f: T -> U, s: set<U>)
    requires DistinctImages(xs, f)
    requires forall i :: 0 <= i < |xs| ==> f(xs[i]) in s
    ensures |xs| <= |s|
  {
    ImageSetCard(xs, f);
    SubsetCard(ImageSet(xs, f), s);
  }

  /** Filtering keeps images distinct. */
  lemma {:induction false} FilterDistinct<T, U>(xs: seq<T>, p: T -> bool, f: T -> U)
    requires DistinctImages(xs, f)
    ensures DistinctImages(Filter(xs, p), f)
  {
    if xs != [] {
      DistinctTail(xs, f);
      FilterDistinct(xs[1..], p, f);
      var rest := Filter(xs[1..], p);
      FilterCons(xs[0], xs[1..], p);
      assert [xs[0]] + xs[1..] == xs;
      if p(xs[0]) {
        forall j | 0 <= j < |rest| ensures f(xs[0]) != f(rest[j]) {
          FilterMembership(xs[1..], p, rest[j]);
          var k :| 0 <= k < |xs[1..]| && xs[1..][k] == rest[j];
          assert f(xs[0]) != f(xs[k + 1]);
        }
        DistinctCons(xs[0], rest, f);
      }
    }
  }

  lemma DistinctTail<T, U>(xs: seq<T>, f: T -> U)
    requires xs != [] && DistinctImages(xs, f)
    ensures DistinctImages(xs[1..], f)
  {
    forall i, j | 0 <= i < j < |xs| - 1 ensures f(xs[1..][i]) != f(xs[1..][j]) {
      assert f(xs[i + 1]) != f(xs[j + 1]);
    }
  }

  lemma DistinctCons<T, U>(x: T, rest: seq<T>, f: T -> U)
    requires DistinctImages(rest, f)
    requires forall j :: 0 <= j < |rest| ==> f(x) != f(rest[j])
    ensures DistinctImages([x] + rest, f)
  {
    var r := [x] + rest;
    forall i, j | 0 <= i < j < |r| ensures f(r[i]) != f(r[j]) {
      if i == 0 {
        assert r[j] == rest[j - 1];
      } else {
        assert r[i] == rest[i - 1] && r[j] == rest[j - 1];
      }
    }
  }

  // ---------------------------------------------------------------------------
  // Stable sort by an integer key

  ghost predicate SortedBy<T>(xs: seq<T>, key: T -> int) {
    forall i, j :: 0 <= i < j < |xs| ==> key(xs[i]) <= key(xs[j])
  }

  /** The elements whose key is `k`, in their order. */
  function WithKey<T>(xs: seq<T>, key: T -> int, k: int): seq<T> {
    if xs == [] then []
    else (if key(xs[0]) == k then [xs[0]] else []) + WithKey(xs[1..], key, k)
  }

  /** Puts `x` before the first element whose key is not smaller than its own. */
  function InsertBy<T>(x: T, s: seq<T>, key: T -> int): (r: seq<T>)
    ensures |r| == |s| + 1 && multiset(r) == multiset(s) + multiset{x}
  {
    if s == [] then [x]
    else if key(x) <= key(s[0]) then [x] + s
    else
      assert s == [s[0]] + s[1..];
      [s[0]] + InsertBy(x, s[1..], key)
  }

  /** Inserting into a sorted sequence keeps it sorted. */
  lemma {:induction false} InsertBySorted<T>(x: T, s: seq<T>, key: T -> int)
    requires SortedBy(s, key)
    ensures SortedBy(InsertBy(x, s, key), key)
  {
    if s != [] && key(x) > key(s[0]) {
      SortedTail(s, key);
      InsertBySorted(x, s[1..], key);
      var rest := InsertBy(x, s[1..], key);
      LowerBound(s[0], rest, x, s[1..], key);
    }
  }

  /** An element below `x` and below every element of `s` is below every element of any permutation of `s` plus `x`. */
  lemma LowerBound<T>(b: T, r: seq<T>, x: T, s: seq<T>, key: T -> int)
    requires multiset(r) == multiset(s) + multiset{x}
    requires key(b) <= key(x) && forall i :: 0 <= i < |s| ==> key(b) <= key(s[i])
    ensures forall i :: 0 <= i < |r| ==> key(b) <= key(r[i])
  {
    forall i | 0 <= i < |r| ensures key(b) <= key(r[i]) {
      assert r[i] in multiset(r);
      if r[i] != x {
        assert r[i] in multiset(s);
        var j :| 0 <= j < |s| && s[j] == r[i];
      }
    }
  }

  /** `xs.sort((a, b) => key(a) - key(b))`, a stable sort (insertion sort). */
  function SortBy<T>(xs: seq<T>, key: T -> int): (r: seq<T>)
    ensures |r| == |xs| && multiset(r) == multiset(xs)
    ensures SortedBy(r, key)
  {
    if xs == [] then []
    else
      assert xs == [xs[0]] + xs[1..];
      var rest := SortBy(xs[1..], key);
      InsertBySorted(xs[0], rest, key);
      InsertBy(xs[0], rest, key)
  }

  lemma SortedTail<T>(s: seq<T>, key: T -> int)
    requires s != [] && SortedBy(s, key)
    ensures SortedBy(s[1..], key)
  {
    forall i, j | 0 <= i < j < |s| - 1 ensures key(s[1..][i]) <= key(s[1..][j]) {
      assert s[1..][i] == s[i + 1] && s[1..][j] == s[j + 1];
    }
  }

  lemma WithKeyCons<T>(x: T, s: seq<T>, key: T -> int, k: int)
    ensures WithKey([x] + s, key, k) == (if key(x) == k then [x] else []) + WithKey(s, key, k)
  {
    assert ([x] + s)[0] == x && ([x] + s)[1..] == s;
  }

  lemma {:induction false} WithKeyInsert<T>(x: T, s: seq<T>, key: T -> int, k: int)
    ensures WithKey(InsertBy(x, s, key), key, k) == WithKey([x] + s, key, k)
  {
    if s != [] && key(x) > key(s[0]) {
      var tail := InsertBy(x, s[1..], key);
      assert InsertBy(x, s, key) == [s[0]] + tail;
      WithKeyInsert(x, s[1..], key, k);
      WithKeyCons(s[0], tail, key, k);
      WithKeyCons(x, s[1..], key, k);
      WithKeyCons(x, s, key, k);
      assert s == [s[0]] + s[1..];
      WithKeyCons(s[0], s[1..], key, k);
      var w := WithKey(s[1..], key, k);
      if key(x) == k {
        assert WithKey(s, key, k) == w;
        assert WithKey(InsertBy(x, s, key), key, k) == [x] + w;
      } else {
        assert WithKey(tail, key, k) == w;
      }
    }
  }

  /** Stability: for every key, the elements with that key keep their relative order. */
  lemma {:induction false} SortByStable<T>(xs: seq<T>, key: T -> int, k: int)
    ensures WithKey(SortBy(xs, key), key, k) == WithKey(xs, key, k)
  {
    if xs != [] {
      SortByStable(xs[1..], key, k);
      WithKeyInsert(xs[0], SortBy(xs[1..], key), key, k);
      assert ([xs[0]] + SortBy(xs[1..], key))[1..] == SortBy(xs[1..], key);
    }
  }

  lemma {:induction false} WithKeyConcat<T>(a: seq<T>, b: seq<T>, key: T -> int, k: int)
    ensures WithKey(a + b, key, k) == WithKey(a, key, k) + WithKey(b, key, k)
  {
    if a == [] {
      assert a + b == b;
    } else {
      assert (a + b)[0] == a[0] && (a + b)[1..] == a[1..] + b;
      WithKeyConcat(a[1..], b, key, k);
      var h := if key(a[0]) == k then [a[0]] else [];
      AppendAssoc(h, WithKey(a[1..], key, k), WithKey(b, key, k));
    }
  }

  /** A sequence that is already sorted is left as it is. */
  lemma {:induction false} SortBySorted<T>(xs: seq<T>, key: T -> int)
    requires SortedBy(xs, key)
    ensures SortBy(xs, key) == xs
  {
    if xs != [] {
      SortBySorted(xs[1..], key);
    }
  }

  /** Filtering a sorted sequence keeps it sorted. */
  lemma {:induction false} FilterSortedBy<T>(xs: seq<T>, p: T -> bool, key: T -> int)
    requires SortedBy(xs, key)
    ensures SortedBy(Filter(xs, p), key)
  {
    if xs != [] {
      SortedTail(xs, key);
      FilterSortedBy(xs[1..], p, key);
      FilterCons(xs[0], xs[1..], p);
      assert [xs[0]] + xs[1..] == xs;
      var rest := Filter(xs[1..], p);
      if p(xs[0]) {
        forall j | 0 <= j < |rest| ensures key(xs[0]) <= key(rest[j]) {
          FilterMembership(xs[1..], p, rest[j]);
          var k :| 0 <= k < |xs[1..]| && xs[1..][k] == rest[j];
          assert xs[1..][k] == xs[k + 1];
        }
        var r := [xs[0]] + rest;
        forall i, j | 0 <= i < j < |r| ensures key(r[i]) <= key(r[j]) {
          if i > 0 {
            assert r[i] == rest[i - 1] && r[j] == rest[j - 1];
          } else {
            assert r[j] == rest[j - 1];
          }
        }
      }
    }
  }
}
