// Shared vocabulary: options, and filtering and mapping of sequences from the right-hand end,
// which is the end the modelled loops append to.

module Wrappers {
  datatype Option<+T> = None | Some(value: T) {
    function GetOr(default: T): T {
      match this
      case Some(v) => v
      case None => default
    }
  }
}

module Arithmetic {
  function Min(a: int, b: int): int {
    if a < b then a else b
  }

  function Max(a: int, b: int): int {
    if a < b then b else a
  }

  lemma MulMonotone(a: int, b: int, c: int)
    requires a <= b && 0 <= c
    ensures a * c <= b * c
  {
  }
}

module Sequences {
  function Filter<T>(s: seq<T>, p: T -> bool): seq<T> {
    if s == [] then []
    else
      var init, last := s[..|s| - 1], s[|s| - 1];
      Filter(init, p) + if p(last) then [last] else []
  }

  function Map<T, U>(s: seq<T>, f: T -> U): (r: seq<U>)
    ensures |r| == |s|
    ensures forall i :: 0 <= i < |s| ==> r[i] == f(s[i])
  {
    if s == [] then [] else Map(s[..|s| - 1], f) + [f(s[|s| - 1])]
  }

  ghost predicate Distinct<T>(s: seq<T>) {
    forall i, j :: 0 <= i < j < |s| ==> s[i] != s[j]
  }

  /** `s` is `a` and `b` interleaved, each keeping its own order. */
  ghost predicate IsMerge<T>(s: seq<T>, a: seq<T>, b: seq<T>) {
    if s == [] then a == [] && b == []
    else
      var init, last := s[..|s| - 1], s[|s| - 1];
      || (a != [] && a[|a| - 1] == last && IsMerge(init, a[..|a| - 1], b))
      || (b != [] && b[|b| - 1] == last && IsMerge(init, a, b[..|b| - 1]))
  }

  /** `a` is `s` with some elements left out. */
  ghost predicate Subsequence<T>(a: seq<T>, s: seq<T>) {
    if s == [] then a == []
    else
      var init, last := s[..|s| - 1], s[|s| - 1];
      Subsequence(a, init) || (a != [] && a[|a| - 1] == last && Subsequence(a[..|a| - 1], init))
  }

  lemma SubsequenceSnoc<T>(a: seq<T>, s: seq<T>, x: T)
    requires Subsequence(a, s)
    ensures Subsequence(a, s + [x]) && Subsequence(a + [x], s + [x])
  {
    assert (s + [x])[..|s|] == s && (a + [x])[..|a|] == a;
  }

  lemma {:induction false} SubsequenceOfItself<T>(s: seq<T>)
    ensures Subsequence(s, s)
  {
    if s != [] {
      SubsequenceOfItself(s[..|s| - 1]);
    }
  }

  lemma {:induction false} SubsequenceTransitive<T>(a: seq<T>, b: seq<T>, s: seq<T>)
    requires Subsequence(a, b) && Subsequence(b, s)
    ensures Subsequence(a, s)
    decreases |s|
  {
    if s != [] {
      var init := s[..|s| - 1];
      if Subsequence(b, init) {
        SubsequenceTransitive(a, b, init);
      } else if Subsequence(a, b[..|b| - 1]) {
        SubsequenceTransitive(a, b[..|b| - 1], init);
      } else {
        SubsequenceTransitive(a[..|a| - 1], b[..|b| - 1], init);
      }
    }
  }

  lemma FilterSnoc<T>(s: seq<T>, x: T, p: T -> bool)
    ensures Filter(s + [x], p) == Filter(s, p) + if p(x) then [x] else []
  {
    assert (s + [x])[..|s|] == s;
  }

  lemma {:induction false} FilterConcat<T>(a: seq<T>, b: seq<T>, p: T -> bool)
    ensures Filter(a + b, p) == Filter(a, p) + Filter(b, p)
  {
    if b == [] {
      assert a + b == a;
    } else {
      var init, last := b[..|b| - 1], b[|b| - 1];
      assert a + b == (a + init) + [last];
      FilterSnoc(a + init, last, p);
      FilterConcat(a, init, p);
    }
  }

  lemma {:induction false} FilterMembers<T>(s: seq<T>, p: T -> bool)
    ensures forall x :: x in Filter(s, p) <==> x in s && p(x)
  {
    if s != [] {
      var init, last := s[..|s| - 1], s[|s| - 1];
      FilterMembers(init, p);
      assert s == init + [last];
    }
  }

  lemma {:induction false} FilterTwice<T>(s: seq<T>, p: T -> bool, q: T -> bool, both: T -> bool)
    requires forall x :: x in s ==> both(x) == (p(x) && q(x))
    ensures Filter(Filter(s, p), q) == Filter(s, both)
  {
    if s != [] {
      var init, last := s[..|s| - 1], s[|s| - 1];
      FilterTwice(init, p, q, both);
      if p(last) {
        FilterSnoc(Filter(init, p), last, q);
      } else {
        assert Filter(s, p) == Filter(init, p);
      }
    }
  }

  lemma {:induction false} FilterNone<T>(s: seq<T>, p: T -> bool)
    requires forall x :: x in s ==> !p(x)
    ensures Filter(s, p) == []
  {
    if s != [] {
      FilterNone(s[..|s| - 1], p);
    }
  }

  lemma {:induction false} FilterAll<T>(s: seq<T>, p: T -> bool)
    requires forall x :: x in s ==> p(x)
    ensures Filter(s, p) == s
  {
    if s != [] {
      FilterAll(s[..|s| - 1], p);
      assert s == s[..|s| - 1] + [s[|s| - 1]];
    }
  }

  /** Filtering by a predicate and by its complement splits a sequence into an ordered merge. */
  lemma {:induction false} FilterMerges<T>(s: seq<T>, p: T -> bool, notP: T -> bool)
    requires forall x :: x in s ==> notP(x) == !p(x)
    ensures IsMerge(s, Filter(s, p), Filter(s, notP))
  {
    if s != [] {
      var init, last := s[..|s| - 1], s[|s| - 1];
      FilterMerges(init, p, notP);
      if p(last) {
        assert (Filter(init, p) + [last])[..|Filter(s, p)| - 1] == Filter(init, p);
        assert Filter(s, notP) == Filter(init, notP);
      } else {
        assert (Filter(init, notP) + [last])[..|Filter(s, notP)| - 1] == Filter(init, notP);
        assert Filter(s, p) == Filter(init, p);
      }
    }
  }

  lemma SubsetSize<T>(a: set<T>, b: set<T>)
    requires a <= b
    ensures |a| <= |b|
  {
    assert b == a + (b - a);
  }

  lemma MultisetSnoc<T>(s: seq<T>, x: T)
    ensures multiset(s + [x]) == multiset(s) + multiset{x}
  {
  }

  lemma MultisetCancel<T>(a: multiset<T>, b: multiset<T>, x: T)
    requires a + multiset{x} == b + multiset{x}
    ensures a == b
  {
    forall y ensures a[y] == b[y] {
      assert (a + multiset{x})[y] == (b + multiset{x})[y];
    }
  }

  lemma {:induction false} FilterSplitsLength<T>(s: seq<T>, p: T -> bool, notP: T -> bool)
    requires forall x :: x in s ==> notP(x) == !p(x)
    ensures |s| == |Filter(s, p)| + |Filter(s, notP)|
  {
    if s != [] {
      FilterSplitsLength(s[..|s| - 1], p, notP);
    }
  }

  lemma {:induction false} FilterSplitsMultiset<T>(s: seq<T>, p: T -> bool, notP: T -> bool)
    requires forall x :: x in s ==> notP(x) == !p(x)
    ensures multiset(s) == multiset(Filter(s, p)) + multiset(Filter(s, notP))
  {
    if s != [] {
      var init, last := s[..|s| - 1], s[|s| - 1];
      FilterSplitsMultiset(init, p, notP);
      MultisetSnoc(init, last);
      assert s == init + [last];
      if p(last) {
        MultisetSnoc(Filter(init, p), last);
        assert Filter(s, notP) == Filter(init, notP);
      } else {
        MultisetSnoc(Filter(init, notP), last);
        assert Filter(s, p) == Filter(init, p);
      }
    }
  }

  lemma MapSnoc<T, U>(s: seq<T>, x: T, f: T -> U)
    ensures Map(s + [x], f) == Map(s, f) + [f(x)]
  {
    assert (s + [x])[..|s|] == s;
  }

  lemma MapConcat<T, U>(a: seq<T>, b: seq<T>, f: T -> U)
    ensures Map(a + b, f) == Map(a, f) + Map(b, f)
  {
  }

  /** Mapping respects reordering. */
  lemma {:induction false} MapMultiset<T, U>(a: seq<T>, b: seq<T>, f: T -> U)
    requires multiset(a) == multiset(b)
    ensures multiset(Map(a, f)) == multiset(Map(b, f))
  {
    if a == [] {
      assert |b| == |multiset(b)| == 0;
    } else {
      var init, last := a[..|a| - 1], a[|a| - 1];
      assert a == init + [last];
      assert last in multiset(b);
      var k :| 0 <= k < |b| && b[k] == last;
      var rest := b[..k] + b[k + 1..];
      assert b == b[..k] + [last] + b[k + 1..];
      assert multiset(b) == multiset(rest) + multiset{last};
      MultisetSnoc(init, last);
      MultisetCancel(multiset(init), multiset(rest), last);
      MapMultiset(init, rest, f);
      MapConcat(b[..k], b[k + 1..], f);
      MapConcat(b[..k] + [last], b[k + 1..], f);
      MapSnoc(b[..k], last, f);
    }
  }
}
