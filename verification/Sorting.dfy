/** The stable `sorted(...)` that the impact code applies to batches, rows and
    range bounds, and the condition under which its result is determined by the
    elements alone. */
module Sorting {

  ghost predicate TotalPreorder<T(!new)>(leq: (T, T) -> bool) {
    && (forall x, y :: leq(x, y) || leq(y, x))
    && (forall x, y, z :: leq(x, y) && leq(y, z) ==> leq(x, z))
  }

  ghost predicate Sorted<T>(leq: (T, T) -> bool, s: seq<T>) {
    forall i, j | 0 <= i < j < |s| :: leq(s[i], s[j])
  }

  /** Equivalent elements are equal, as when rows are keyed by a unique index. */
  ghost predicate Keyed<T>(leq: (T, T) -> bool, s: seq<T>) {
    forall i, j | 0 <= i < |s| && 0 <= j < |s| && leq(s[i], s[j]) && leq(s[j], s[i]) :: s[i] == s[j]
  }

  /** Puts `x` after every element that is not above it. */
  function Insert<T>(leq: (T, T) -> bool, s: seq<T>, x: T): (r: seq<T>)
    ensures multiset(r) == multiset(s) + multiset{x}
  {
    if s == [] then [x]
    else
      var last := s[|s| - 1];
      assert s == s[..|s| - 1] + [last];
      if leq(last, x) then s + [x] else Insert(leq, s[..|s| - 1], x) + [last]
  }

  function SortBy<T>(leq: (T, T) -> bool, s: seq<T>): (r: seq<T>)
    ensures multiset(r) == multiset(s)
  {
    if s == [] then []
    else
      assert s == s[..|s| - 1] + [s[|s| - 1]];
      Insert(leq, SortBy(leq, s[..|s| - 1]), s[|s| - 1])
  }

  lemma {:induction false} InsertSorted<T(!new)>(leq: (T, T) -> bool, s: seq<T>, x: T)
    requires TotalPreorder(leq) && Sorted(leq, s)
    ensures Sorted(leq, Insert(leq, s, x))
  {
    if s != [] {
      var n := |s| - 1;
      if !leq(s[n], x) {
        var r := Insert(leq, s[..n], x);
        InsertSorted(leq, s[..n], x);
        forall i | 0 <= i < |r| ensures leq(r[i], s[n]) {
          assert r[i] in multiset(r);
          assert r[i] in multiset(s[..n]) || r[i] == x;
        }
      } else {
        forall i | 0 <= i < n ensures leq(s[i], x) {
          assert leq(s[i], s[n]);
        }
      }
    }
  }

  lemma {:induction false} SortBySorts<T(!new)>(leq: (T, T) -> bool, s: seq<T>)
    requires TotalPreorder(leq)
    ensures Sorted(leq, SortBy(leq, s))
  {
    if s != [] {
      SortBySorts(leq, s[..|s| - 1]);
      InsertSorted(leq, SortBy(leq, s[..|s| - 1]), s[|s| - 1]);
    }
  }

  /** Sorting a sorted sequence changes nothing. */
  lemma {:induction false} SortByIsIdentity<T(!new)>(leq: (T, T) -> bool, s: seq<T>)
    requires Sorted(leq, s)
    ensures SortBy(leq, s) == s
  {
    if s != [] {
      var n := |s| - 1;
      SortByIsIdentity(leq, s[..n]);
      assert s == s[..n] + [s[n]];
      if n > 0 {
        assert leq(s[..n][n - 1], s[n]);
      }
    }
  }

  lemma GreatestLast<T(!new)>(leq: (T, T) -> bool, s: seq<T>, x: T)
    requires Sorted(leq, s) && TotalPreorder(leq) && x in multiset(s)
    ensures s != [] && leq(x, s[|s| - 1])
  {
    var i :| 0 <= i < |s| && s[i] == x;
    assert leq(x, x);
    assert i < |s| - 1 ==> leq(s[i], s[|s| - 1]);
  }

  lemma KeyedPrefix<T>(leq: (T, T) -> bool, s: seq<T>, n: nat)
    requires Keyed(leq, s) && n <= |s|
    ensures Keyed(leq, s[..n])
  {
    forall i, j | 0 <= i < n && 0 <= j < n && leq(s[..n][i], s[..n][j]) && leq(s[..n][j], s[..n][i])
      ensures s[..n][i] == s[..n][j]
    {
      assert s[i] == s[j];
    }
  }

  lemma KeyedElements<T>(leq: (T, T) -> bool, s: seq<T>, x: T, y: T)
    requires Keyed(leq, s) && x in multiset(s) && y in multiset(s) && leq(x, y) && leq(y, x)
    ensures x == y
  {
    var i :| 0 <= i < |s| && s[i] == x;
    var j :| 0 <= j < |s| && s[j] == y;
  }

  lemma WithoutLast<T>(s: seq<T>)
    requires s != []
    ensures multiset(s[..|s| - 1]) == multiset(s) - multiset{s[|s| - 1]}
  {
    assert s == s[..|s| - 1] + [s[|s| - 1]];
  }

  lemma SameWithoutLast<T>(a: seq<T>, b: seq<T>)
    requires |a| == |b| > 0 && a[|a| - 1] == b[|b| - 1] && multiset(a) == multiset(b)
    ensures multiset(a[..|a| - 1]) == multiset(b[..|b| - 1])
  {
    WithoutLast(a);
    WithoutLast(b);
  }

  /** Two sorted arrangements of the same keyed elements are the same sequence. */
  lemma {:induction false} SortedUnique<T(!new)>(leq: (T, T) -> bool, a: seq<T>, b: seq<T>)
    requires Sorted(leq, a) && Sorted(leq, b) && TotalPreorder(leq)
    requires multiset(a) == multiset(b) && Keyed(leq, a)
    ensures a == b
  {
    assert |a| == |multiset(a)| == |multiset(b)| == |b|;
    if a != [] {
      var n := |a| - 1;
      var x, y := a[n], b[n];
      assert x in multiset(a) && y in multiset(b);
      GreatestLast(leq, a, y);
      GreatestLast(leq, b, x);
      KeyedElements(leq, a, x, y);
      SameWithoutLast(a, b);
      KeyedPrefix(leq, a, n);
      SortedUnique(leq, a[..n], b[..n]);
    }
  }

  /** So the order in which keyed elements are handed to a sort is irrelevant. */
  lemma SortByForgetsOrder<T(!new)>(leq: (T, T) -> bool, a: seq<T>, b: seq<T>)
    requires TotalPreorder(leq) && multiset(a) == multiset(b) && Sorted(leq, b) && Keyed(leq, b)
    ensures SortBy(leq, a) == b
  {
    SortBySorts(leq, a);
    SortedUnique(leq, b, SortBy(leq, a));
  }

  ghost predicate Distinct<T>(s: seq<T>) {
    forall i, j | 0 <= i < j < |s| :: s[i] != s[j]
  }

  lemma {:induction false} DistinctOnce<T>(s: seq<T>, x: T)
    requires Distinct(s)
    ensures multiset(s)[x] <= 1
  {
    if s != [] {
      var n := |s| - 1;
      assert s == s[..n] + [s[n]];
      DistinctOnce(s[..n], x);
      if x == s[n] {
        assert x !in s[..n];
      }
    }
  }

  lemma RepeatedTwice<T>(s: seq<T>, i: nat, j: nat)
    requires i < j < |s| && s[i] == s[j]
    ensures multiset(s)[s[i]] >= 2
  {
    assert s == s[..i] + [s[i]] + s[i + 1..j] + [s[j]] + s[j + 1..];
  }

  /** Rearranging introduces no repetition. */
  lemma DistinctRearranged<T>(a: seq<T>, b: seq<T>)
    requires Distinct(a) && multiset(a) == multiset(b)
    ensures Distinct(b)
  {
    forall i, j | 0 <= i < j < |b| ensures b[i] != b[j] {
      DistinctOnce(a, b[i]);
      if b[i] == b[j] {
        RepeatedTwice(b, i, j);
      }
    }
  }
}
