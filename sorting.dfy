/** A stable sort driven by a comparison `ge(a, b)` ("a may come before b").
    It models Python's `list.sort(key=..., reverse=True)` and JavaScript's
    `Array.prototype.sort` with a consistent comparator (both stable), built
    as an insertion sort: every element goes after all elements already
    placed that may come before it. */
module Sorting {

  /** `ge` is total and transitive: a consistent comparator. */
  ghost predicate TotalPreorder<T(!new)>(ge: (T, T) -> bool) {
    (forall a, b :: ge(a, b) || ge(b, a)) &&
    (forall a, b, c :: ge(a, b) && ge(b, c) ==> ge(a, c))
  }

  predicate SortedBy<T>(s: seq<T>, ge: (T, T) -> bool) {
    forall i, j :: 0 <= i < j < |s| ==> ge(s[i], s[j])
  }

  /** `a` and `b` tie under the comparator. */
  predicate Tie<T>(ge: (T, T) -> bool, a: T, b: T) { ge(a, b) && ge(b, a) }

  /** The elements of `s` that tie with `v`, in their order in `s`. */
  function TiesWith<T>(s: seq<T>, v: T, ge: (T, T) -> bool): seq<T> {
    if s == [] then [] else (if Tie(ge, s[0], v) then [s[0]] else []) + TiesWith(s[1..], v, ge)
  }

  function Insert<T>(x: T, r: seq<T>, ge: (T, T) -> bool): (out: seq<T>)
    ensures |out| == |r| + 1
    ensures multiset(out) == multiset(r) + multiset{x}
  {
    if r == [] then [x]
    else if ge(r[0], x) then
      assert r == [r[0]] + r[1..];
      [r[0]] + Insert(x, r[1..], ge)
    else [x] + r
  }

  function SortBy<T>(s: seq<T>, ge: (T, T) -> bool): (r: seq<T>)
    ensures |r| == |s|
    ensures multiset(r) == multiset(s)
  {
    if s == [] then []
    else
      assert s == s[..|s| - 1] + [s[|s| - 1]];
      Insert(s[|s| - 1], SortBy(s[..|s| - 1], ge), ge)
  }

  lemma {:induction false} InsertSorted<T(!new)>(x: T, r: seq<T>, ge: (T, T) -> bool)
    requires TotalPreorder(ge) && SortedBy(r, ge)
    ensures SortedBy(Insert(x, r, ge), ge)
  {
    if r != [] && ge(r[0], x) {
      InsertSorted(x, r[1..], ge);
      var tail := Insert(x, r[1..], ge);
      assert multiset(tail) == multiset(r[1..]) + multiset{x};
      forall k | 0 <= k < |tail| ensures ge(r[0], tail[k]) {
        assert tail[k] in multiset(tail);
        if tail[k] != x {
          assert tail[k] in multiset(r[1..]);
          var m :| 0 <= m < |r[1..]| && r[1..][m] == tail[k];
          assert r[m + 1] == tail[k];
        }
      }
    }
  }

  /** The result of `SortBy` is ordered by `ge`. */
  lemma {:induction false} SortBySorted<T(!new)>(s: seq<T>, ge: (T, T) -> bool)
    requires TotalPreorder(ge)
    ensures SortedBy(SortBy(s, ge), ge)
  {
    if s != [] {
      SortBySorted(s[..|s| - 1], ge);
      InsertSorted(s[|s| - 1], SortBy(s[..|s| - 1], ge), ge);
    }
  }

  lemma {:induction false} TiesWithConcat<T>(a: seq<T>, b: seq<T>, v: T, ge: (T, T) -> bool)
    ensures TiesWith(a + b, v, ge) == TiesWith(a, v, ge) + TiesWith(b, v, ge)
  {
    if a != [] {
      assert (a + b)[1..] == a[1..] + b;
      TiesWithConcat(a[1..], b, v, ge);
    } else {
      assert a + b == b;
    }
  }

  lemma {:induction false} TiesWithNone<T>(s: seq<T>, v: T, ge: (T, T) -> bool)
    requires forall k :: 0 <= k < |s| ==> !Tie(ge, s[k], v)
    ensures TiesWith(s, v, ge) == []
  {
    if s != [] {
      TiesWithNone(s[1..], v, ge);
    }
  }

  lemma Transitive3<T(!new)>(a: T, b: T, c: T, d: T, ge: (T, T) -> bool)
    requires TotalPreorder(ge)
    ensures ge(a, b) && ge(b, c) && ge(c, d) ==> ge(a, d)
  {
  }

  /** Nothing after a place where `x` goes first ties with what ties with `x`. */
  lemma NoTiesBehind<T(!new)>(x: T, r: seq<T>, v: T, ge: (T, T) -> bool)
    requires TotalPreorder(ge) && SortedBy(r, ge) && r != [] && !ge(r[0], x) && Tie(ge, x, v)
    ensures forall k :: 0 <= k < |r| ==> !Tie(ge, r[k], v)
  {
    forall k | 0 <= k < |r| ensures !Tie(ge, r[k], v) {
      if k > 0 {
        assert ge(r[0], r[k]);
      } else {
        assert ge(r[0], r[0]);
      }
      Transitive3(r[0], r[k], v, x, ge);
    }
  }

  lemma AppendAssoc<T>(a: seq<T>, b: seq<T>, c: seq<T>)
    ensures a + (b + c) == (a + b) + c
  {
  }

  /** One step of `InsertTies` past an element that goes first. */
  /** Taking the first element of `a` out of `a`, and a matching element
      out of a permutation `b`, leaves two permutations of each other. */
  lemma RemoveMatching<T>(a: seq<T>, b: seq<T>, k: nat)
    requires multiset(a) == multiset(b) && a != [] && k < |b| && b[k] == a[0]
    ensures multiset(a[1..]) == multiset(b[..k] + b[k + 1..])
  {
    var x, rest := a[0], b[..k] + b[k + 1..];
    assert a == [x] + a[1..];
    assert b == b[..k] + [x] + b[k + 1..];
    forall y ensures multiset(a[1..])[y] == multiset(rest)[y] {
      assert multiset(a)[y] == multiset([x])[y] + multiset(a[1..])[y];
      assert multiset(b)[y] == multiset(b[..k])[y] + multiset([x])[y] + multiset(b[k + 1..])[y];
    }
  }

  lemma InsertTiesSkip<T>(x: T, r: seq<T>, v: T, ge: (T, T) -> bool, tie: seq<T>)
    requires r != [] && ge(r[0], x)
    requires TiesWith(Insert(x, r[1..], ge), v, ge) == TiesWith(r[1..], v, ge) + tie
    ensures TiesWith(Insert(x, r, ge), v, ge) == TiesWith(r, v, ge) + tie
  {
    var t := Insert(x, r[1..], ge);
    var u := Insert(x, r, ge);
    assert u == [r[0]] + t;
    assert u[0] == r[0] && u[1..] == t;
    var h := if Tie(ge, r[0], v) then [r[0]] else [];
    assert TiesWith(u, v, ge) == h + TiesWith(t, v, ge);
    assert TiesWith(r, v, ge) == h + TiesWith(r[1..], v, ge);
    AppendAssoc(h, TiesWith(r[1..], v, ge), tie);
  }

  /** `InsertTies` where `x` goes in front. */
  lemma InsertTiesFront<T(!new)>(x: T, r: seq<T>, v: T, ge: (T, T) -> bool)
    requires TotalPreorder(ge) && SortedBy(r, ge) && r != [] && !ge(r[0], x)
    ensures TiesWith(Insert(x, r, ge), v, ge) == TiesWith(r, v, ge) + (if Tie(ge, x, v) then [x] else [])
  {
    TiesWithConcat([x], r, v, ge);
    if Tie(ge, x, v) {
      NoTiesBehind(x, r, v, ge);
      TiesWithNone(r, v, ge);
    }
  }

  lemma {:induction false} InsertTies<T(!new)>(x: T, r: seq<T>, v: T, ge: (T, T) -> bool)
    requires TotalPreorder(ge) && SortedBy(r, ge)
    ensures TiesWith(Insert(x, r, ge), v, ge) == TiesWith(r, v, ge) + (if Tie(ge, x, v) then [x] else [])
  {
    if r == [] {
    } else if ge(r[0], x) {
      assert SortedBy(r[1..], ge);
      InsertTies(x, r[1..], v, ge);
      InsertTiesSkip(x, r, v, ge, if Tie(ge, x, v) then [x] else []);
    } else {
      InsertTiesFront(x, r, v, ge);
    }
  }

  /** One step of `SortByStable`: the ties of `init + [last]` once `last`
      is inserted into `si`, a stable ordering of `init`. */
  lemma StableStep<T>(init: seq<T>, last: T, v: T, ge: (T, T) -> bool, si: seq<T>, u: seq<T>)
    requires TiesWith(u, v, ge) == TiesWith(si, v, ge) + (if Tie(ge, last, v) then [last] else [])
    requires TiesWith(si, v, ge) == TiesWith(init, v, ge)
    ensures TiesWith(u, v, ge) == TiesWith(init + [last], v, ge)
  {
    assert [last][1..] == [];
    assert TiesWith([last], v, ge) == (if Tie(ge, last, v) then [last] else []) + TiesWith([], v, ge);
    TiesWithConcat(init, [last], v, ge);
  }

  /** Stability: elements that tie keep their relative input order. */
  lemma {:induction false} SortByStable<T(!new)>(s: seq<T>, v: T, ge: (T, T) -> bool)
    requires TotalPreorder(ge)
    ensures TiesWith(SortBy(s, ge), v, ge) == TiesWith(s, v, ge)
  {
    if s != [] {
      var init, last := s[..|s| - 1], s[|s| - 1];
      var si := SortBy(init, ge);
      assert SortBy(s, ge) == Insert(last, si, ge);
      SortBySorted(init, ge);
      InsertTies(last, si, v, ge);
      SortByStable(init, v, ge);
      FrontLast(s);
      StableStep(init, last, v, ge, si, SortBy(s, ge));
    }
  }

  lemma FrontLast<T>(s: seq<T>)
    requires s != []
    ensures s == s[..|s| - 1] + [s[|s| - 1]]
  {
  }

  /** Filtering one more element of a prefix. */
  lemma FilterStep<T>(s: seq<T>, i: nat, p: T -> bool)
    requires i < |s|
    ensures Filter(s[..i + 1], p) == Filter(s[..i], p) + (if p(s[i]) then [s[i]] else [])
  {
    FilterAppend(s[..i], [s[i]], p);
    assert s[..i + 1] == s[..i] + [s[i]];
  }

  /** Filtering a sequence with one more element at its end. */
  lemma FilterSnoc<T>(a: seq<T>, x: T, p: T -> bool)
    ensures Filter(a + [x], p) == Filter(a, p) + (if p(x) then [x] else [])
  {
    FilterAppend(a, [x], p);
    assert Filter([x], p) == (if p(x) then [x] else []) + Filter([x][1..], p);
  }

  /** One more element of a prefix. */
  lemma PrefixStep<T>(s: seq<T>, i: nat)
    requires i < |s|
    ensures s[..i + 1] == s[..i] + [s[i]]
  {
  }

  /** The front of a sorted sequence is sorted and goes before its last element. */
  lemma SortedFront<T>(s: seq<T>, ge: (T, T) -> bool)
    requires SortedBy(s, ge) && s != []
    ensures SortedBy(s[..|s| - 1], ge)
    ensures forall k :: 0 <= k < |s| - 1 ==> ge(s[k], s[|s| - 1])
  {
  }

  /** An input already in order is left as it is. */
  lemma {:induction false} SortBySortedInput<T(!new)>(s: seq<T>, ge: (T, T) -> bool)
    requires SortedBy(s, ge)
    ensures SortBy(s, ge) == s
  {
    if s != [] {
      var init, last := s[..|s| - 1], s[|s| - 1];
      SortedFront(s, ge);
      SortBySortedInput(init, ge);
      assert forall k :: 0 <= k < |init| ==> init[k] == s[k];
      assert SortBy(s, ge) == Insert(last, init, ge);
      InsertAtEnd(last, init, ge);
      FrontLast(s);
    }
  }

  lemma {:induction false} InsertAtEnd<T>(x: T, r: seq<T>, ge: (T, T) -> bool)
    requires forall k :: 0 <= k < |r| ==> ge(r[k], x)
    ensures Insert(x, r, ge) == r + [x]
  {
    if r != [] {
      InsertAtEnd(x, r[1..], ge);
      assert r == [r[0]] + r[1..];
    }
  }

  /** The first `n` elements, or all of them, for a constant `n >= 0`
      (`xs[:n]`, `slice(0, n)`); nothing for a negative `n`. */
  function Take<T>(s: seq<T>, n: int): (r: seq<T>)
    ensures |r| == if 0 <= n < |s| then n else if n < 0 then 0 else |s|
    ensures forall i :: 0 <= i < |r| ==> r[i] == s[i]
  {
    if n < 0 then [] else if n < |s| then s[..n] else s
  }

  /** A prefix of a sorted sequence is sorted. */
  lemma TakeSorted<T>(s: seq<T>, n: int, ge: (T, T) -> bool)
    requires SortedBy(s, ge)
    ensures SortedBy(Take(s, n), ge)
  {
  }

  /** The first `n` elements of `s` sorted are sorted, and they are some of
      the elements of `s`, each as often as at most in `s`. */
  lemma TopOf<T(!new)>(s: seq<T>, ge: (T, T) -> bool, n: int)
    requires TotalPreorder(ge)
    ensures var r := Take(SortBy(s, ge), n);
      SortedBy(r, ge) && multiset(r) <= multiset(s) && forall k :: 0 <= k < |r| ==> r[k] in s
  {
    var sorted := SortBy(s, ge);
    var r := Take(sorted, n);
    SortBySorted(s, ge);
    TakeSorted(sorted, n, ge);
    assert sorted == r + sorted[|r|..];
    forall k | 0 <= k < |r| ensures r[k] in s {
      assert sorted[k] in multiset(sorted);
    }
  }

  /** The first elements of a sorted permutation of `s`: an element of `s`
      left out ranks no higher than any element kept. */
  lemma PrefixMaximal<T>(s: seq<T>, sorted: seq<T>, r: seq<T>, ge: (T, T) -> bool, x: T)
    requires SortedBy(sorted, ge) && multiset(sorted) == multiset(s)
    requires |r| <= |sorted| && forall i :: 0 <= i < |r| ==> r[i] == sorted[i]
    requires x in s && x !in r
    ensures forall k :: 0 <= k < |r| ==> ge(r[k], x)
  {
    assert x in multiset(sorted);
    var j :| 0 <= j < |sorted| && sorted[j] == x;
    assert j >= |r| by {
      assert forall i :: 0 <= i < |r| ==> r[i] in r;
    }
  }

  /** `xs[:n]` and `DataFrame.head(n)` for any `n`: the first n elements,
      or all but the last -n when n is negative. */
  function Head<T>(s: seq<T>, n: int): (r: seq<T>)
    ensures |r| == if n >= 0 then (if n < |s| then n else |s|) else (if |s| + n > 0 then |s| + n else 0)
    ensures r == s[..|r|]
  {
    if n >= |s| then s
    else if n >= 0 then s[..n]
    else if |s| + n <= 0 then []
    else s[..|s| + n]
  }

  lemma HeadIndex<T>(s: seq<T>, n: int, k: int)
    requires 0 <= k < |Head(s, n)|
    ensures k < |s| && Head(s, n)[k] == s[k]
  {
    var r := Head(s, n);
    assert r[k] == s[..|r|][k];
  }

  /** The elements of `s` satisfying `p`, in order (`filter`). */
  function Filter<T>(s: seq<T>, p: T -> bool): (r: seq<T>)
    ensures |r| <= |s|
    ensures forall i :: 0 <= i < |r| ==> p(r[i])
  {
    if s == [] then []
    else (if p(s[0]) then [s[0]] else []) + Filter(s[1..], p)
  }

  lemma {:induction false} FilterMembership<T>(s: seq<T>, p: T -> bool, x: T)
    ensures x in Filter(s, p) <==> x in s && p(x)
  {
    if s != [] {
      FilterMembership(s[1..], p, x);
      assert s == [s[0]] + s[1..];
    }
  }

  lemma {:induction false} FilterAppend<T>(a: seq<T>, b: seq<T>, p: T -> bool)
    ensures Filter(a + b, p) == Filter(a, p) + Filter(b, p)
  {
    if a != [] {
      FilterAppend(a[1..], b, p);
      var h := if p(a[0]) then [a[0]] else [];
      assert (a + b)[0] == a[0];
      assert (a + b)[1..] == a[1..] + b;
      assert Filter(a + b, p) == h + Filter(a[1..] + b, p);
      assert Filter(a, p) == h + Filter(a[1..], p);
      AppendAssoc(h, Filter(a[1..], p), Filter(b, p));
    } else {
      assert a + b == b;
    }
  }

  /** An element that passes the filter lands at the position given by the
      number of passing elements before it. */
  lemma FilterPosition<T>(s: seq<T>, p: T -> bool, j: nat)
    requires j < |s| && p(s[j])
    ensures var k := |Filter(s[..j], p)|; k < |Filter(s, p)| && Filter(s, p)[k] == s[j]
  {
    assert s == s[..j] + [s[j]] + s[j + 1..];
    FilterAppend(s[..j] + [s[j]], s[j + 1..], p);
    FilterAppend(s[..j], [s[j]], p);
    assert Filter([s[j]], p) == [s[j]];
  }

  /** Passing elements keep their relative order: a later one has more
      passing elements before it. */
  lemma FilterCountMonotone<T>(s: seq<T>, p: T -> bool, i: nat, j: nat)
    requires i < j <= |s| && p(s[i])
    ensures |Filter(s[..i], p)| < |Filter(s[..j], p)|
  {
    assert s[..j] == s[..i] + [s[i]] + s[i + 1..j];
    FilterAppend(s[..i] + [s[i]], s[i + 1..j], p);
    FilterAppend(s[..i], [s[i]], p);
    assert Filter([s[i]], p) == [s[i]];
  }

  /** Two passing elements keep their relative order. */
  lemma FilterOrder<T>(s: seq<T>, p: T -> bool, i: nat, j: nat)
    requires i < j < |s| && p(s[i]) && p(s[j])
    ensures exists a, b :: 0 <= a < b < |Filter(s, p)| && Filter(s, p)[a] == s[i] && Filter(s, p)[b] == s[j]
  {
    FilterPosition(s, p, i);
    FilterPosition(s, p, j);
    FilterCountMonotone(s, p, i, j);
  }

  /** Filtering a sorted sequence keeps it sorted. */
  lemma {:induction false} FilterSorted<T>(s: seq<T>, p: T -> bool, ge: (T, T) -> bool)
    requires SortedBy(s, ge)
    ensures SortedBy(Filter(s, p), ge)
  {
    if s != [] {
      assert SortedBy(s[1..], ge);
      FilterSorted(s[1..], p, ge);
      var rest := Filter(s[1..], p);
      forall k | 0 <= k < |rest| ensures ge(s[0], rest[k]) {
        FilterMembership(s[1..], p, rest[k]);
        var m :| 0 <= m < |s[1..]| && s[1..][m] == rest[k];
      }
    }
  }

  /** The number of occurrences of `x` in `s` (`value_counts()[x]`, `count`). */
  function Occurrences<T(==)>(s: seq<T>, x: T): (n: nat)
    ensures n <= |s|
    ensures n > 0 <==> x in s
  {
    if s == [] then 0
    else (if s[0] == x then 1 else 0) + Occurrences(s[1..], x)
  }

  lemma OccurrencesCons<T>(x: T, s: seq<T>, y: T)
    ensures Occurrences([x] + s, y) == (if x == y then 1 else 0) + Occurrences(s, y)
  {
    assert ([x] + s)[1..] == s;
  }

  lemma {:induction false} OccurrencesSnoc<T>(s: seq<T>, x: T, y: T)
    ensures Occurrences(s + [x], y) == Occurrences(s, y) + (if x == y then 1 else 0)
  {
    if s != [] {
      OccurrencesSnoc(s[1..], x, y);
      assert (s + [x])[1..] == s[1..] + [x];
    } else {
      assert s + [x] == [x];
    }
  }

  /** The values of `s` without repeats, in order of first occurrence. */
  function Distinct<T(==,!new)>(s: seq<T>): (r: seq<T>)
    ensures forall x :: x in r <==> x in s
    ensures forall i, j :: 0 <= i < j < |r| ==> r[i] != r[j]
  {
    if s == [] then []
    else
      var rest := Distinct(s[..|s| - 1]);
      if s[|s| - 1] in rest then rest else rest + [s[|s| - 1]]
  }

  /** A sequence without repeats keeps none after a permutation. */
  lemma DistinctOnce<T>(pre: seq<T>, st: seq<T>, i: nat, j: nat)
    requires multiset(pre) == multiset(st) && i < j < |st|
    requires forall a, b :: 0 <= a < b < |pre| ==> pre[a] != pre[b]
    ensures st[i] != st[j]
  {
    if st[i] == st[j] {
      var x := st[i];
      assert st == st[..j] + st[j..];
      assert x in st[..j] && x in st[j..];
      assert multiset(st)[x] >= 2;
      CountAtMostOnce(pre, x);
    }
  }

  lemma {:induction false} CountAtMostOnce<T>(s: seq<T>, x: T)
    requires forall a, b :: 0 <= a < b < |s| ==> s[a] != s[b]
    ensures multiset(s)[x] <= 1
  {
    if s != [] {
      assert s == [s[0]] + s[1..];
      CountAtMostOnce(s[1..], x);
      if s[0] == x {
        assert x !in s[1..];
      }
    }
  }

  /** The position of the first occurrence of `x` in `s`. */
  function FirstIndex<T(==)>(s: seq<T>, x: T): (i: nat)
    requires x in s
    ensures i < |s| && s[i] == x && x !in s[..i]
  {
    if s[0] == x then 0
    else
      var i := FirstIndex(s[1..], x) + 1;
      assert s[..i] == [s[0]] + s[1..][..i - 1];
      i
  }

  /** An occurrence with no earlier one is the first occurrence. */
  lemma FirstIndexUnique<T>(s: seq<T>, x: T, i: nat)
    requires i < |s| && s[i] == x && x !in s[..i]
    ensures FirstIndex(s, x) == i
  {
    var f := FirstIndex(s, x);
  }

  /** `Distinct` lists the values in the order of their first occurrence. */
  lemma {:induction false} DistinctFirstOrder<T(!new)>(s: seq<T>, i: nat, j: nat)
    requires i < j < |Distinct(s)|
    ensures FirstIndex(s, Distinct(s)[i]) < FirstIndex(s, Distinct(s)[j])
  {
    var r := Distinct(s);
    var init, last := s[..|s| - 1], s[|s| - 1];
    var rest := Distinct(init);
    FirstInFront(s, r[i]);
    if j < |rest| {
      assert r[i] == rest[i] && r[j] == rest[j];
      FirstInFront(s, r[j]);
      DistinctFirstOrder(init, i, j);
    } else {
      assert r == rest + [last] && r[j] == last && last !in init;
      assert r[i] == rest[i];
      assert s[..|s| - 1] == init;
      FirstIndexUnique(s, last, |s| - 1);
    }
  }

  /** A value occurring in all but the last element is first found there. */
  lemma FirstInFront<T>(s: seq<T>, x: T)
    requires s != [] && x in s[..|s| - 1]
    ensures FirstIndex(s, x) == FirstIndex(s[..|s| - 1], x)
  {
    var init := s[..|s| - 1];
    var f := FirstIndex(init, x);
    assert s[..f] == init[..f];
    FirstIndexUnique(s, x, f);
  }

  /** A filter every element passes keeps the whole sequence. */
  lemma {:induction false} FilterKeepsAll<T>(s: seq<T>, p: T -> bool)
    requires forall k :: 0 <= k < |s| ==> p(s[k])
    ensures Filter(s, p) == s
  {
    if s != [] {
      FilterKeepsAll(s[1..], p);
      assert [s[0]] + s[1..] == s;
    }
  }

  /** A filter and its complement split a sequence into two parts that
      together hold every element as often as before. */
  lemma {:induction false} FilterPartition<T>(s: seq<T>, p: T -> bool, q: T -> bool)
    requires forall x :: q(x) == !p(x)
    ensures multiset(Filter(s, p)) + multiset(Filter(s, q)) == multiset(s)
  {
    if s != [] {
      var a, b := Filter(s[1..], p), Filter(s[1..], q);
      FilterPartition(s[1..], p, q);
      var hp := if p(s[0]) then [s[0]] else [];
      var hq := if q(s[0]) then [s[0]] else [];
      assert multiset(Filter(s, p)) == multiset(hp) + multiset(a) by {
        assert Filter(s, p) == hp + a;
      }
      assert multiset(Filter(s, q)) == multiset(hq) + multiset(b) by {
        assert Filter(s, q) == hq + b;
      }
      assert multiset(s) == multiset{s[0]} + multiset(s[1..]) by {
        assert s == [s[0]] + s[1..];
      }
      assert multiset(hp) + multiset(hq) == multiset{s[0]} by {
        assert q(s[0]) == !p(s[0]);
      }
    }
  }

  /** Nothing passes a filter no element satisfies. */
  lemma FilterNone<T>(s: seq<T>, p: T -> bool)
    requires forall k :: 0 <= k < |s| ==> !p(s[k])
    ensures Filter(s, p) == []
  {
    if Filter(s, p) != [] {
      FilterMembership(s, p, Filter(s, p)[0]);
    }
  }

  // Counting values

  predicate CountGe(a: (string, nat), b: (string, nat)) { a.1 >= b.1 }

  /** The distinct values of `ds` with their counts, in first-occurrence order. */
  function CountsInOrder(ds: seq<string>): (t: seq<(string, nat)>)
    ensures |t| == |Distinct(ds)|
    ensures forall k :: 0 <= k < |t| ==> t[k] == (Distinct(ds)[k], Occurrences(ds, Distinct(ds)[k]))
  {
    var ls := Distinct(ds);
    seq(|ls|, i requires 0 <= i < |ls| => (ls[i], Occurrences(ds, ls[i])))
  }

  /** `value_counts()`: each distinct value with its count, most frequent
      first; ties keep their order of first occurrence. */
  function ValueCounts(ds: seq<string>): seq<(string, nat)> {
    SortBy(CountsInOrder(ds), CountGe)
  }

  /** The counts are sorted, every entry is a value of `ds` with its count,
      and every value of `ds` has an entry. */
  lemma ValueCountsSpec(ds: seq<string>)
    ensures SortedBy(ValueCounts(ds), CountGe)
    ensures |ValueCounts(ds)| == |Distinct(ds)|
    ensures forall k :: 0 <= k < |ValueCounts(ds)| ==>
      ValueCounts(ds)[k].0 in ds && ValueCounts(ds)[k].1 == Occurrences(ds, ValueCounts(ds)[k].0)
    ensures forall d :: d in ds ==> exists k :: 0 <= k < |ValueCounts(ds)| && ValueCounts(ds)[k].0 == d
  {
    var t := CountsInOrder(ds);
    var vc := ValueCounts(ds);
    assert TotalPreorder(CountGe);
    SortBySorted(t, CountGe);
    forall k | 0 <= k < |vc| ensures vc[k].0 in ds && vc[k].1 == Occurrences(ds, vc[k].0) {
      assert vc[k] in multiset(t);
      var i :| 0 <= i < |t| && t[i] == vc[k];
    }
    forall d | d in ds ensures exists k :: 0 <= k < |vc| && vc[k].0 == d {
      var i :| 0 <= i < |Distinct(ds)| && Distinct(ds)[i] == d;
      assert t[i] in multiset(vc);
      var k :| 0 <= k < |vc| && vc[k] == t[i];
    }
  }

  /** A non-empty column has at least one entry. */
  lemma ValueCountsNonEmpty(ds: seq<string>)
    requires ds != []
    ensures ValueCounts(ds) != []
  {
    assert ds[0] in Distinct(ds);
  }

  /** No value has two entries. */
  lemma ValueCountsDistinct(ds: seq<string>)
    ensures forall i, j :: 0 <= i < j < |ValueCounts(ds)| ==> ValueCounts(ds)[i].0 != ValueCounts(ds)[j].0
  {
    var t := CountsInOrder(ds);
    var vc := ValueCounts(ds);
    ValueCountsSpec(ds);
    forall i, j | 0 <= i < j < |vc| ensures vc[i].0 != vc[j].0 {
      DistinctOnce(t, vc, i, j);
    }
  }

  /** Any reordering of the counts keeps every entry a value of `ds` with
      its count, keeps an entry for every value, and lists no value twice. */
  lemma PermutedCountsSpec(ds: seq<string>, st: seq<(string, nat)>)
    requires multiset(st) == multiset(CountsInOrder(ds))
    ensures forall k :: 0 <= k < |st| ==> st[k].0 in ds && st[k].1 == Occurrences(ds, st[k].0)
    ensures forall d :: d in ds ==> exists k :: 0 <= k < |st| && st[k].0 == d
    ensures forall i, j :: 0 <= i < j < |st| ==> st[i].0 != st[j].0
  {
    var t := CountsInOrder(ds);
    forall k | 0 <= k < |st| ensures st[k].0 in ds && st[k].1 == Occurrences(ds, st[k].0) {
      assert st[k] in multiset(t);
      var i :| 0 <= i < |t| && t[i] == st[k];
    }
    forall d | d in ds ensures exists k :: 0 <= k < |st| && st[k].0 == d {
      var i :| 0 <= i < |Distinct(ds)| && Distinct(ds)[i] == d;
      assert t[i] in multiset(st);
      var k :| 0 <= k < |st| && st[k] == t[i];
    }
    forall i, j | 0 <= i < j < |st| ensures st[i].0 != st[j].0 {
      DistinctOnce(t, st, i, j);
    }
  }
}
