/** Queries, loops that append, and running totals, as functions on sequences. */
module Sequences {

  function Filter<T>(s: seq<T>, p: T -> bool): (r: seq<T>)
    ensures |r| <= |s|
  {
    if s == [] then []
    else if p(s[0]) then [s[0]] + Filter(s[1..], p)
    else Filter(s[1..], p)
  }

  lemma {:induction false} FilterAppend<T>(a: seq<T>, b: seq<T>, p: T -> bool)
    ensures Filter(a + b, p) == Filter(a, p) + Filter(b, p)
  {
    if a == [] {
      assert a + b == b;
    } else {
      assert (a + b)[1..] == a[1..] + b;
      FilterAppend(a[1..], b, p);
    }
  }

  lemma {:induction false} FilterMember<T>(s: seq<T>, p: T -> bool, x: T)
    ensures x in Filter(s, p) <==> x in s && p(x)
  {
    if s != [] {
      assert s == [s[0]] + s[1..];
      FilterMember(s[1..], p, x);
    }
  }

  lemma {:induction false} FilterAll<T>(s: seq<T>, p: T -> bool)
    requires forall x :: x in s ==> p(x)
    ensures Filter(s, p) == s
  {
    if s != [] {
      FilterAll(s[1..], p);
    }
  }

  lemma {:induction false} FilterNone<T>(s: seq<T>, p: T -> bool)
    requires forall x :: x in s ==> !p(x)
    ensures Filter(s, p) == []
  {
    if s != [] {
      FilterNone(s[1..], p);
    }
  }

  /** Filtering by two tests in turn is filtering by their conjunction. */
  lemma {:induction false} FilterFilter<T>(s: seq<T>, p: T -> bool, q: T -> bool, both: T -> bool)
    requires forall x :: x in s ==> (both(x) <==> p(x) && q(x))
    ensures Filter(Filter(s, p), q) == Filter(s, both)
  {
    if s != [] {
      FilterFilter(s[1..], p, q, both);
    }
  }

  /** What a loop appends when each element contributes f of it. */
  function FlatMap<S, T>(s: seq<S>, f: S -> seq<T>): seq<T> {
    if s == [] then [] else FlatMap(s[..|s| - 1], f) + f(s[|s| - 1])
  }

  lemma FlatMapStep<S, T>(s: seq<S>, f: S -> seq<T>, i: nat)
    requires i < |s|
    ensures FlatMap(s[..i + 1], f) == FlatMap(s[..i], f) + f(s[i])
  {
    assert s[..i + 1][..i] == s[..i];
  }

  lemma {:induction false} FlatMapAppend<S, T>(a: seq<S>, b: seq<S>, f: S -> seq<T>)
    ensures FlatMap(a + b, f) == FlatMap(a, f) + FlatMap(b, f)
  {
    if b == [] {
      assert a + b == a;
    } else {
      var n := |b| - 1;
      assert (a + b)[..|a| + n] == a + b[..n];
      FlatMapAppend(a, b[..n], f);
    }
  }

  /** Filtering what was appended, when every element's contribution filters to g of it. */
  lemma {:induction false} FilterFlatMap<S, T>(s: seq<S>, f: S -> seq<T>, g: S -> seq<T>, p: T -> bool)
    requires forall x :: x in s ==> Filter(f(x), p) == g(x)
    ensures Filter(FlatMap(s, f), p) == FlatMap(s, g)
  {
    if s != [] {
      var n := |s| - 1;
      FilterFlatMap(s[..n], f, g, p);
      FilterAppend(FlatMap(s[..n], f), f(s[n]), p);
    }
  }

  /** Looping over a query is looping over the table and skipping what the query leaves out. */
  lemma {:induction false} FlatMapOfFilter<S, T>(s: seq<S>, p: S -> bool, f: S -> seq<T>, g: S -> seq<T>)
    requires forall x :: x in s ==> g(x) == if p(x) then f(x) else []
    ensures FlatMap(Filter(s, p), f) == FlatMap(s, g)
  {
    if s != [] {
      assert s == [s[0]] + s[1..];
      FlatMapAppend([s[0]], s[1..], g);
      assert FlatMap([s[0]], g) == g(s[0]);
      FlatMapOfFilter(s[1..], p, f, g);
      if p(s[0]) {
        FlatMapAppend([s[0]], Filter(s[1..], p), f);
        assert FlatMap([s[0]], f) == f(s[0]);
      }
    }
  }

  function Map<S, T>(s: seq<S>, f: S -> T): (r: seq<T>)
    ensures |r| == |s| && forall i :: 0 <= i < |s| ==> r[i] == f(s[i])
  {
    seq(|s|, i requires 0 <= i < |s| => f(s[i]))
  }

  function Total<T>(s: seq<T>, f: T -> int): int {
    if s == [] then 0 else f(s[0]) + Total(s[1..], f)
  }

  lemma {:induction false} TotalAppend<T>(a: seq<T>, b: seq<T>, f: T -> int)
    ensures Total(a + b, f) == Total(a, f) + Total(b, f)
  {
    if a == [] {
      assert a + b == b;
    } else {
      assert (a + b)[1..] == a[1..] + b;
      TotalAppend(a[1..], b, f);
    }
  }

  lemma TotalOne<T>(x: T, f: T -> int)
    ensures Total([x], f) == f(x)
  {
    assert [x][1..] == [];
  }

  lemma TotalStep<T>(s: seq<T>, f: T -> int, i: nat)
    requires i < |s|
    ensures Total(s[..i + 1], f) == Total(s[..i], f) + f(s[i])
  {
    assert s[..i + 1] == s[..i] + [s[i]];
    TotalAppend(s[..i], [s[i]], f);
  }

  lemma {:induction false} TotalUpdate<T>(s: seq<T>, k: nat, x: T, f: T -> int)
    requires k < |s|
    ensures Total(s[k := x], f) == Total(s, f) - f(s[k]) + f(x)
  {
    if k > 0 {
      assert s[k := x][1..] == s[1..][k - 1 := x];
      TotalUpdate(s[1..], k - 1, x, f);
    }
  }

  function Count<T>(p: T -> bool): T -> int {
    (x: T) => if p(x) then 1 else 0
  }

  /** What a count says of the members it counts. */
  lemma {:induction false} CountMembers<T>(s: seq<T>, p: T -> bool)
    ensures Total(s, Count(p)) >= 0
    ensures Total(s, Count(p)) == 0 <==> forall i :: 0 <= i < |s| ==> !p(s[i])
    ensures Total(s, Count(p)) <= 1 <==> forall i, j :: 0 <= i < j < |s| ==> !p(s[i]) || !p(s[j])
  {
    if s != [] {
      var rest := s[1..];
      CountMembers(rest, p);
      assert s == [s[0]] + rest;
      forall i | 0 <= i < |rest| ensures s[i + 1] == rest[i] {
      }
      if Total(s, Count(p)) <= 1 {
        forall i, j | 0 <= i < j < |s| ensures !p(s[i]) || !p(s[j]) {
          assert s[j] == rest[j - 1] && (i > 0 ==> s[i] == rest[i - 1]);
        }
      } else if Total(rest, Count(p)) <= 1 {
        var j :| 0 <= j < |rest| && p(rest[j]);
        assert p(s[0]) && p(s[j + 1]);
      } else {
        var i, j :| 0 <= i < j < |rest| && p(rest[i]) && p(rest[j]);
        assert p(s[i + 1]) && p(s[j + 1]);
      }
    }
  }

  lemma {:induction false} TotalNotNegative<T>(s: seq<T>, f: T -> int)
    requires forall x :: x in s ==> f(x) >= 0
    ensures Total(s, f) >= 0
  {
    if s != [] {
      TotalNotNegative(s[1..], f);
    }
  }

  /** The total of a query is that of the table with nothing counted for what the query leaves out. */
  lemma {:induction false} TotalFiltered<T>(s: seq<T>, p: T -> bool, f: T -> int, g: T -> int)
    requires forall x :: x in s ==> g(x) == if p(x) then f(x) else 0
    ensures Total(Filter(s, p), f) == Total(s, g)
  {
    if s != [] {
      TotalFiltered(s[1..], p, f, g);
      if p(s[0]) {
        TotalAppend([s[0]], Filter(s[1..], p), f);
        TotalOne(s[0], f);
      }
    }
  }

  lemma {:induction false} TotalEqual<T>(s: seq<T>, f: T -> int, g: T -> int)
    requires forall x :: x in s ==> f(x) == g(x)
    ensures Total(s, f) == Total(s, g)
  {
    if s != [] {
      TotalEqual(s[1..], f, g);
    }
  }

  /** The total of what was appended is the total of each element's contribution. */
  lemma {:induction false} TotalFlatMap<S, T>(s: seq<S>, m: S -> seq<T>, f: T -> int, g: S -> int)
    requires forall x :: x in s ==> Total(m(x), f) == g(x)
    ensures Total(FlatMap(s, m), f) == Total(s, g)
  {
    if s != [] {
      var n := |s| - 1;
      TotalFlatMap(s[..n], m, f, g);
      TotalAppend(FlatMap(s[..n], m), m(s[n]), f);
      assert s == s[..n] + [s[n]];
      TotalAppend(s[..n], [s[n]], g);
    }
  }

  /** Contributions on which f and g agree in total keep agreeing when appended. */
  lemma {:induction false} FlatMapTotals<S, T>(s: seq<S>, m: S -> seq<T>, f: T -> int, g: T -> int)
    requires forall x :: x in s ==> Total(m(x), f) == Total(m(x), g)
    ensures Total(FlatMap(s, m), f) == Total(FlatMap(s, m), g)
  {
    if s != [] {
      var n := |s| - 1;
      FlatMapTotals(s[..n], m, f, g);
      TotalAppend(FlatMap(s[..n], m), m(s[n]), f);
      TotalAppend(FlatMap(s[..n], m), m(s[n]), g);
    }
  }
}
