/** The library's stable `sort_by`, modelled as insertion from the left, with
    what the services rely on: sortedness, the same elements, stability, and
    the uniqueness of the result when the order leaves no ties. */
module Sorting {
  import opened Common

  /** Lexicographic order of strings, `str::cmp`. */
  predicate StrLeq(a: string, b: string)
  {
    a == [] || (b != [] && (a[0] < b[0] || (a[0] == b[0] && StrLeq(a[1..], b[1..]))))
  }

  lemma {:induction false} StrTotal(a: string, b: string)
    ensures StrLeq(a, b) || StrLeq(b, a)
    ensures StrLeq(a, b) && StrLeq(b, a) ==> a == b
  {
    if a != [] && b != [] && a[0] == b[0] {
      StrTotal(a[1..], b[1..]);
      assert a == [a[0]] + a[1..] && b == [b[0]] + b[1..];
    }
  }

  lemma {:induction false} StrTransitive(a: string, b: string, c: string)
    requires StrLeq(a, b) && StrLeq(b, c)
    ensures StrLeq(a, c)
  {
    if a != [] && a[0] == b[0] == c[0] { StrTransitive(a[1..], b[1..], c[1..]); }
  }

  /** The strings first differ at k, where `a` has the smaller character. */
  ghost predicate SmallerAt(a: string, b: string, k: nat)
  {
    k < |a| && k < |b| && a[..k] == b[..k] && a[k] < b[k]
  }

  /** Lexicographic order: `a` is a prefix of `b`, or smaller at the first difference. */
  ghost predicate Lexicographic(a: string, b: string) { a <= b || exists k: nat :: SmallerAt(a, b, k) }

  lemma SmallerBehindHead(a: string, b: string, k: nat)
    requires a != [] && b != [] && a[0] == b[0]
    ensures SmallerAt(a[1..], b[1..], k) <==> SmallerAt(a, b, k + 1)
    ensures !SmallerAt(a, b, 0)
  {
    if k + 1 <= |a| && k + 1 <= |b| {
      assert a[..k + 1] == [a[0]] + a[1..][..k] && b[..k + 1] == [b[0]] + b[1..][..k];
      assert a[1..][..k] == a[..k + 1][1..] && b[1..][..k] == b[..k + 1][1..];
    }
  }

  lemma {:induction false} StrLeqIsLexicographic(a: string, b: string)
    ensures StrLeq(a, b) <==> Lexicographic(a, b)
  {
    if a != [] && b != [] && a[0] == b[0] {
      StrLeqIsLexicographic(a[1..], b[1..]);
      assert a == [a[0]] + a[1..] && b == [b[0]] + b[1..];
      if k: nat :| SmallerAt(a[1..], b[1..], k) { SmallerBehindHead(a, b, k); }
      if k: nat :| SmallerAt(a, b, k) {
        SmallerBehindHead(a, b, 0);
        SmallerBehindHead(a, b, k - 1);
      }
    } else if a != [] && b != [] {
      assert a[0] < b[0] ==> SmallerAt(a, b, 0);
    }
  }

  ghost predicate TotalPreorder<T(!new)>(leq: (T, T) -> bool)
  {
    && (forall a, b :: leq(a, b) || leq(b, a))
    && (forall a, b, c :: leq(a, b) && leq(b, c) ==> leq(a, c))
  }

  ghost predicate Antisymmetric<T(!new)>(leq: (T, T) -> bool)
  {
    forall a, b :: leq(a, b) && leq(b, a) ==> a == b
  }

  ghost predicate Sorted<T>(leq: (T, T) -> bool, s: seq<T>)
  {
    forall i, j :: 0 <= i < j < |s| ==> leq(s[i], s[j])
  }

  /** Place `x` after every element that may precede it. */
  function Insert<T>(leq: (T, T) -> bool, s: seq<T>, x: T): seq<T>
  {
    if s == [] || leq(s[|s| - 1], x) then s + [x]
    else Insert(leq, s[..|s| - 1], x) + [s[|s| - 1]]
  }

  function Sort<T>(leq: (T, T) -> bool, s: seq<T>): seq<T>
  {
    if s == [] then [] else Insert(leq, Sort(leq, s[..|s| - 1]), s[|s| - 1])
  }

  lemma {:induction false} InsertElements<T>(leq: (T, T) -> bool, s: seq<T>, x: T)
    ensures multiset(Insert(leq, s, x)) == multiset(s) + multiset{x}
  {
    if s != [] && !leq(s[|s| - 1], x) {
      InsertElements(leq, s[..|s| - 1], x);
      assert s == s[..|s| - 1] + [s[|s| - 1]];
    }
  }

  lemma SortedSnoc<T>(leq: (T, T) -> bool, s: seq<T>, x: T)
    requires Sorted(leq, s) && forall y :: y in s ==> leq(y, x)
    ensures Sorted(leq, s + [x])
  {
  }

  lemma {:induction false} InsertSorted<T(!new)>(leq: (T, T) -> bool, s: seq<T>, x: T)
    requires TotalPreorder(leq) && Sorted(leq, s)
    ensures Sorted(leq, Insert(leq, s, x))
  {
    if s != [] {
      var n := |s| - 1;
      var init, last := s[..n], s[n];
      if leq(last, x) {
        forall y | y in s ensures leq(y, x) {
          var i :| 0 <= i < |s| && s[i] == y;
          if i < n { assert leq(s[i], s[n]); }
        }
        SortedSnoc(leq, s, x);
      } else {
        InsertSorted(leq, init, x);
        InsertElements(leq, init, x);
        forall y | y in Insert(leq, init, x) ensures leq(y, last) {
          assert y in multiset(Insert(leq, init, x));
          if y != x {
            assert y in init;
            var i :| 0 <= i < n && s[i] == y;
          }
        }
        SortedSnoc(leq, Insert(leq, init, x), last);
      }
    }
  }

  lemma MultisetInit<T>(s: seq<T>)
    requires s != []
    ensures multiset(s) == multiset(s[..|s| - 1]) + multiset{s[|s| - 1]}
  {
    assert s == s[..|s| - 1] + [s[|s| - 1]];
  }

  lemma CancelOne<T>(a: multiset<T>, b: multiset<T>, x: T)
    requires a + multiset{x} == b + multiset{x}
    ensures a == b
  {
    assert a == (a + multiset{x}) - multiset{x};
    assert b == (b + multiset{x}) - multiset{x};
  }

  lemma SameLength<T>(s: seq<T>, t: seq<T>)
    requires multiset(s) == multiset(t)
    ensures |s| == |t|
  {
    assert |s| == |multiset(s)| && |t| == |multiset(t)|;
  }

  /** The result is sorted and has exactly the elements of the input. */
  lemma {:induction false} SortCorrect<T(!new)>(leq: (T, T) -> bool, s: seq<T>)
    requires TotalPreorder(leq)
    ensures Sorted(leq, Sort(leq, s)) && multiset(Sort(leq, s)) == multiset(s)
  {
    if s != [] {
      var n := |s| - 1;
      SortCorrect(leq, s[..n]);
      InsertSorted(leq, Sort(leq, s[..n]), s[n]);
      InsertElements(leq, Sort(leq, s[..n]), s[n]);
      MultisetInit(s);
    }
  }

  function Filter<T>(p: T -> bool, s: seq<T>): seq<T>
  {
    if s == [] then []
    else if p(s[|s| - 1]) then Filter(p, s[..|s| - 1]) + [s[|s| - 1]]
    else Filter(p, s[..|s| - 1])
  }

  lemma FilterSnoc<T>(p: T -> bool, s: seq<T>, x: T)
    ensures Filter(p, s + [x]) == if p(x) then Filter(p, s) + [x] else Filter(p, s)
  {
  }

  lemma {:induction false} FilterMembers<T>(p: T -> bool, s: seq<T>)
    ensures forall x :: x in Filter(p, s) <==> x in s && p(x)
  {
    if s != [] {
      FilterMembers(p, s[..|s| - 1]);
      assert s == s[..|s| - 1] + [s[|s| - 1]];
    }
  }

  /** `p` picks out one class of ties: its members may stand in either order. */
  lemma {:induction false} FilterAgrees<T(!new)>(p: T -> bool, q: T -> bool, s: seq<T>)
    requires forall x :: p(x) <==> q(x)
    ensures Filter(p, s) == Filter(q, s)
  {
    if s != [] { FilterAgrees(p, q, s[..|s| - 1]); }
  }

  ghost predicate TieClass<T(!new)>(leq: (T, T) -> bool, p: T -> bool)
  {
    forall a, b :: p(a) && p(b) ==> leq(a, b)
  }

  lemma {:induction false} InsertStable<T(!new)>(leq: (T, T) -> bool, p: T -> bool, s: seq<T>, x: T)
    requires TieClass(leq, p)
    ensures Filter(p, Insert(leq, s, x)) == if p(x) then Filter(p, s) + [x] else Filter(p, s)
  {
    if s == [] || leq(s[|s| - 1], x) {
      FilterSnoc(p, s, x);
    } else {
      var n := |s| - 1;
      InsertStable(leq, p, s[..n], x);
      FilterSnoc(p, Insert(leq, s[..n], x), s[n]);
    }
  }

  /** Stability: within a class of ties the sort keeps the input's order. */
  lemma {:induction false} SortStable<T(!new)>(leq: (T, T) -> bool, p: T -> bool, s: seq<T>)
    requires TieClass(leq, p)
    ensures Filter(p, Sort(leq, s)) == Filter(p, s)
  {
    if s != [] {
      SortStable(leq, p, s[..|s| - 1]);
      InsertStable(leq, p, Sort(leq, s[..|s| - 1]), s[|s| - 1]);
    }
  }

  /** No two different elements tie. */
  ghost predicate TieFree<T>(leq: (T, T) -> bool, s: seq<T>)
  {
    forall a, b :: a in s && b in s && leq(a, b) && leq(b, a) ==> a == b
  }

  lemma SameLast<T(!new)>(leq: (T, T) -> bool, s: seq<T>, t: seq<T>)
    requires TotalPreorder(leq) && TieFree(leq, s) && s != [] && |s| == |t|
    requires Sorted(leq, s) && Sorted(leq, t) && multiset(s) == multiset(t)
    ensures s[|s| - 1] == t[|t| - 1]
  {
    var n := |s| - 1;
    LastIsGreatest(leq, s);
    LastIsGreatest(leq, t);
    assert s[n] in multiset(t) && t[n] in multiset(s);
  }

  lemma PrefixStaysSorted<T(!new)>(leq: (T, T) -> bool, s: seq<T>, n: nat)
    requires n <= |s|
    ensures Sorted(leq, s) ==> Sorted(leq, s[..n])
    ensures TieFree(leq, s) ==> TieFree(leq, s[..n])
  {
  }

  /** Without ties there is one sorted arrangement of the elements. */
  lemma {:induction false} SortedUnique<T(!new)>(leq: (T, T) -> bool, s: seq<T>, t: seq<T>)
    requires TotalPreorder(leq) && TieFree(leq, s)
    requires Sorted(leq, s) && Sorted(leq, t) && multiset(s) == multiset(t)
    ensures s == t
    decreases |s|
  {
    SameLength(s, t);
    if s != [] {
      var n := |s| - 1;
      SameLast(leq, s, t);
      MultisetInit(s);
      MultisetInit(t);
      CancelOne(multiset(s[..n]), multiset(t[..n]), s[n]);
      PrefixStaysSorted(leq, s, n);
      PrefixStaysSorted(leq, t, n);
      SortedUnique(leq, s[..n], t[..n]);
      assert s == s[..n] + [s[n]] && t == t[..n] + [t[n]];
    }
  }

  lemma LastIsGreatest<T(!new)>(leq: (T, T) -> bool, s: seq<T>)
    requires TotalPreorder(leq) && Sorted(leq, s) && s != []
    ensures forall x :: x in s ==> leq(x, s[|s| - 1])
  {
  }

  /** Hence sorting forgets the order of a tie-free input. */
  lemma SortForgetsOrder<T(!new)>(leq: (T, T) -> bool, s: seq<T>, t: seq<T>)
    requires TotalPreorder(leq) && TieFree(leq, s) && multiset(s) == multiset(t)
    ensures Sort(leq, s) == Sort(leq, t)
  {
    SortCorrect(leq, s);
    SortCorrect(leq, t);
    forall x | x in Sort(leq, s) ensures x in s { assert x in multiset(Sort(leq, s)); }
    SortedUnique(leq, Sort(leq, s), Sort(leq, t));
  }

  /** Orders that agree sort alike. */
  lemma {:induction false} SortAgrees<T(!new)>(leq: (T, T) -> bool, leq': (T, T) -> bool, s: seq<T>)
    requires forall a, b :: leq(a, b) <==> leq'(a, b)
    ensures Sort(leq, s) == Sort(leq', s)
  {
    if s != [] {
      var n := |s| - 1;
      SortAgrees(leq, leq', s[..n]);
      InsertAgrees(leq, leq', Sort(leq, s[..n]), s[n]);
    }
  }

  lemma {:induction false} InsertAgrees<T(!new)>(leq: (T, T) -> bool, leq': (T, T) -> bool, s: seq<T>, x: T)
    requires forall a, b :: leq(a, b) <==> leq'(a, b)
    ensures Insert(leq, s, x) == Insert(leq', s, x)
  {
    if s != [] { InsertAgrees(leq, leq', s[..|s| - 1], x); }
  }

  // ------------------------------------------------------------------
  // Sums over sequences
  // ------------------------------------------------------------------

  function Sum<T>(f: T -> int, s: seq<T>): int
  {
    if s == [] then 0 else Sum(f, s[..|s| - 1]) + f(s[|s| - 1])
  }

  lemma SumSnoc<T>(f: T -> int, s: seq<T>, x: T)
    ensures Sum(f, s + [x]) == Sum(f, s) + f(x)
  {
  }

  lemma {:induction false} SumConcat<T>(f: T -> int, s: seq<T>, t: seq<T>)
    ensures Sum(f, s + t) == Sum(f, s) + Sum(f, t)
  {
    if t == [] {
      assert s + t == s;
    } else {
      var n := |t| - 1;
      assert s + t == (s + t[..n]) + [t[n]];
      SumConcat(f, s, t[..n]);
      SumSnoc(f, s + t[..n], t[n]);
    }
  }

  /** Taking one element out takes it out of the sum and of the bag. */
  lemma TakeOutOfSum<T>(f: T -> int, a: seq<T>, x: T, b: seq<T>)
    ensures Sum(f, a + [x] + b) == Sum(f, a + b) + f(x)
  {
    SumConcat(f, a + [x], b);
    SumSnoc(f, a, x);
    SumConcat(f, a, b);
  }

  lemma TakeOutOfBag<T>(a: seq<T>, x: T, b: seq<T>)
    ensures multiset(a + [x] + b) == multiset(a + b) + multiset{x}
  {
  }

  /** A sum depends on the elements only, not on their order. */
  lemma {:induction false} SumForgetsOrder<T>(f: T -> int, s: seq<T>, t: seq<T>)
    requires multiset(s) == multiset(t)
    ensures Sum(f, s) == Sum(f, t)
    decreases |s|
  {
    SameLength(s, t);
    if s != [] {
      var n := |s| - 1;
      MultisetInit(s);
      assert s[n] in multiset(t);
      var j :| 0 <= j < |t| && t[j] == s[n];
      var rest := t[..j] + t[j + 1..];
      assert t == t[..j] + [t[j]] + t[j + 1..];
      TakeOutOfSum(f, t[..j], t[j], t[j + 1..]);
      TakeOutOfBag(t[..j], t[j], t[j + 1..]);
      CancelOne(multiset(s[..n]), multiset(rest), s[n]);
      SumForgetsOrder(f, s[..n], rest);
    }
  }

  // ------------------------------------------------------------------
  // Sequences without repetition
  // ------------------------------------------------------------------

  lemma {:induction false} CountDistinct<T>(s: seq<T>, x: T)
    requires Distinct(s)
    ensures multiset(s)[x] == if x in s then 1 else 0
  {
    if s != [] {
      var n := |s| - 1;
      CountDistinct(s[..n], x);
      MultisetInit(s);
      assert s == s[..n] + [s[n]];
      assert s[n] !in s[..n];
    }
  }

  lemma TwiceCounts<T>(s: seq<T>, i: nat, j: nat)
    requires i < j < |s| && s[i] == s[j]
    ensures multiset(s)[s[i]] >= 2
  {
    assert s == s[..j] + [s[j]] + s[j + 1..];
    assert s[i] in s[..j];
  }

  /** Nothing repeats exactly when nothing is counted twice. */
  lemma DistinctExactly<T>(s: seq<T>)
    ensures Distinct(s) <==> forall x :: multiset(s)[x] <= 1
  {
    if Distinct(s) {
      forall x ensures multiset(s)[x] <= 1 { CountDistinct(s, x); }
    } else {
      var i, j :| 0 <= i < j < |s| && s[i] == s[j];
      TwiceCounts(s, i, j);
    }
  }

  /** A sequence is as long as the set of its elements exactly when nothing repeats. */
  lemma {:induction false} SizeExactly<T>(s: seq<T>)
    ensures |set x | x in s| <= |s|
    ensures |set x | x in s| == |s| <==> Distinct(s)
  {
    if s == [] {
      assert (set x | x in s) == {};
    } else {
      var n := |s| - 1;
      SizeExactly(s[..n]);
      assert s == s[..n] + [s[n]];
      assert (set x | x in s) == (set x | x in s[..n]) + {s[n]};
      if s[n] in s[..n] {
        var i :| 0 <= i < n && s[..n][i] == s[n];
        assert s[i] == s[n];
        assert (set x | x in s) == (set x | x in s[..n]);
      } else {
        assert Distinct(s[..n]) ==> Distinct(s);
        assert Distinct(s) ==> Distinct(s[..n]);
      }
    }
  }

  /** A filter keeps the count of what passes. */
  lemma {:induction false} FilterCounts<T>(p: T -> bool, s: seq<T>)
    ensures forall x :: multiset(Filter(p, s))[x] == if p(x) then multiset(s)[x] else 0
  {
    if s != [] {
      FilterCounts(p, s[..|s| - 1]);
      MultisetInit(s);
    }
  }
}
