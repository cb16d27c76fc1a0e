/** Python's stable sort by a key, as a function, and what makes it the only stable arrangement. */
module StableSort {
  import opened Sequences

  ghost predicate TotalPreorder<T(!new)>(le: (T, T) -> bool) {
    && (forall x, y :: le(x, y) || le(y, x))
    && (forall x, y, z :: le(x, y) && le(y, z) ==> le(x, z))
  }

  predicate Equiv<T>(le: (T, T) -> bool, x: T, y: T) {
    le(x, y) && le(y, x)
  }

  ghost predicate Sorted<T>(s: seq<T>, le: (T, T) -> bool) {
    forall i, j :: 0 <= i < j < |s| ==> le(s[i], s[j])
  }

  /** The elements level with y, in the order they come. */
  function Level<T>(s: seq<T>, le: (T, T) -> bool, y: T): seq<T> {
    Filter(s, z => Equiv(le, z, y))
  }

  lemma LevelStep<T>(x: T, s: seq<T>, le: (T, T) -> bool, y: T)
    ensures Level([x] + s, le, y) == (if Equiv(le, x, y) then [x] else []) + Level(s, le, y)
  {
    assert ([x] + s)[1..] == s;
  }

  /** x goes before the elements it is level with: it came first. */
  function Insert<T>(x: T, s: seq<T>, le: (T, T) -> bool): (r: seq<T>)
    ensures |r| == |s| + 1
  {
    if s == [] || le(x, s[0]) then [x] + s
    else [s[0]] + Insert(x, s[1..], le)
  }

  function Sort<T>(s: seq<T>, le: (T, T) -> bool): (r: seq<T>)
    ensures |r| == |s|
  {
    if s == [] then [] else Insert(s[0], Sort(s[1..], le), le)
  }

  lemma {:induction false} InsertPermutes<T>(x: T, s: seq<T>, le: (T, T) -> bool)
    ensures multiset(Insert(x, s, le)) == multiset(s) + multiset{x}
  {
    if s == [] || le(x, s[0]) {
    } else {
      InsertPermutes(x, s[1..], le);
      assert s == [s[0]] + s[1..];
    }
  }

  lemma {:induction false} SortPermutes<T>(s: seq<T>, le: (T, T) -> bool)
    ensures multiset(Sort(s, le)) == multiset(s)
  {
    if s != [] {
      SortPermutes(s[1..], le);
      InsertPermutes(s[0], Sort(s[1..], le), le);
      assert s == [s[0]] + s[1..];
    }
  }

  lemma {:induction false} InsertSorts<T(!new)>(x: T, s: seq<T>, le: (T, T) -> bool)
    requires TotalPreorder(le) && Sorted(s, le)
    ensures Sorted(Insert(x, s, le), le)
  {
    if s == [] || le(x, s[0]) {
      forall i | 0 <= i < |s| ensures le(x, s[i]) {
        assert i > 0 ==> le(s[0], s[i]);
      }
    } else {
      InsertSorts(x, s[1..], le);
      InsertPermutes(x, s[1..], le);
      var r := Insert(x, s[1..], le);
      forall i | 0 <= i < |r| ensures le(s[0], r[i]) {
        assert r[i] in multiset(r);
        assert r[i] in multiset(s[1..]) || r[i] == x;
      }
    }
  }

  lemma {:induction false} SortSorts<T(!new)>(s: seq<T>, le: (T, T) -> bool)
    requires TotalPreorder(le)
    ensures Sorted(Sort(s, le), le)
  {
    if s != [] {
      SortSorts(s[1..], le);
      InsertSorts(s[0], Sort(s[1..], le), le);
    }
  }

  lemma {:induction false} InsertStable<T(!new)>(x: T, s: seq<T>, le: (T, T) -> bool, y: T)
    requires TotalPreorder(le) && Sorted(s, le)
    ensures Level(Insert(x, s, le), le, y) == Level([x] + s, le, y)
  {
    if s == [] || le(x, s[0]) {
    } else {
      InsertStable(x, s[1..], le, y);
      LevelStep(x, s, le, y);
      LevelStep(x, s[1..], le, y);
      LevelStep(s[0], s[1..], le, y);
      assert s == [s[0]] + s[1..];
      LevelStep(s[0], Insert(x, s[1..], le), le, y);
      assert !(Equiv(le, x, y) && Equiv(le, s[0], y));
    }
  }

  /** Stability: level elements keep the order they had. */
  lemma {:induction false} SortStable<T(!new)>(s: seq<T>, le: (T, T) -> bool, y: T)
    requires TotalPreorder(le)
    ensures Level(Sort(s, le), le, y) == Level(s, le, y)
  {
    if s != [] {
      SortSorts(s[1..], le);
      SortStable(s[1..], le, y);
      InsertStable(s[0], Sort(s[1..], le), le, y);
      LevelStep(s[0], Sort(s[1..], le), le, y);
      LevelStep(s[0], s[1..], le, y);
      assert s == [s[0]] + s[1..];
    }
  }

  ghost predicate SameLevels<T(!new)>(a: seq<T>, b: seq<T>, le: (T, T) -> bool) {
    forall y :: Level(a, le, y) == Level(b, le, y)
  }

  lemma SameFirst<T(!new)>(a: seq<T>, b: seq<T>, le: (T, T) -> bool)
    requires TotalPreorder(le) && Sorted(a, le) && Sorted(b, le) && SameLevels(a, b, le)
    requires a != []
    ensures b != [] && a[0] == b[0]
  {
    var p := z => Equiv(le, z, a[0]);
    assert Filter(a, p)[0] == a[0];
    assert Level(a, le, a[0]) == Level(b, le, a[0]);
    FilterMember(b, p, a[0]);
    assert b != [];
    var q := z => Equiv(le, z, b[0]);
    assert Filter(b, q)[0] == b[0];
    assert Level(a, le, b[0]) == Level(b, le, b[0]);
    FilterMember(a, q, b[0]);
    assert le(a[0], b[0]) && le(b[0], a[0]);
    assert Filter(b, p)[0] == b[0];
  }

  /** Two sorted arrangements with the same order inside every level are the same sequence. */
  lemma {:induction false} StableArrangementUnique<T(!new)>(a: seq<T>, b: seq<T>, le: (T, T) -> bool)
    requires TotalPreorder(le) && Sorted(a, le) && Sorted(b, le) && SameLevels(a, b, le)
    ensures a == b
  {
    if a == [] {
      if b != [] {
        SameFirst(b, a, le);
      }
    } else {
      SameFirst(a, b, le);
      forall y ensures Level(a[1..], le, y) == Level(b[1..], le, y) {
        assert Level(a, le, y) == Level(b, le, y);
        assert a == [a[0]] + a[1..] && b == [b[0]] + b[1..];
        LevelStep(a[0], a[1..], le, y);
        LevelStep(b[0], b[1..], le, y);
        var head := if Equiv(le, a[0], y) then [a[0]] else [];
        assert Level(a[1..], le, y) == Level(a, le, y)[|head|..];
      }
      StableArrangementUnique(a[1..], b[1..], le);
    }
  }

  lemma {:induction false} InsertLeft<T>(x: T, a: seq<T>, b: seq<T>, le: (T, T) -> bool)
    requires forall y :: y in b ==> le(x, y)
    ensures Insert(x, a + b, le) == Insert(x, a, le) + b
  {
    if a == [] {
      assert a + b == b;
    } else if le(x, a[0]) {
      assert [x] + (a + b) == ([x] + a) + b;
    } else {
      assert (a + b)[1..] == a[1..] + b;
      InsertLeft(x, a[1..], b, le);
    }
  }

  lemma {:induction false} InsertRight<T>(x: T, a: seq<T>, b: seq<T>, le: (T, T) -> bool)
    requires forall y :: y in a ==> !le(x, y)
    ensures Insert(x, a + b, le) == a + Insert(x, b, le)
  {
    if a == [] {
      assert a + b == b;
    } else {
      assert (a + b)[1..] == a[1..] + b;
      assert a == [a[0]] + a[1..];
      InsertRight(x, a[1..], b, le);
    }
  }

  /** When everything passing p sorts strictly before everything failing it, the two parts sort separately. */
  lemma {:induction false} SortSplit<T>(s: seq<T>, le: (T, T) -> bool, p: T -> bool, notp: T -> bool)
    requires forall x :: x in s ==> notp(x) == !p(x)
    requires forall x, y :: x in s && y in s && p(x) && !p(y) ==> le(x, y) && !le(y, x)
    ensures Sort(s, le) == Sort(Filter(s, p), le) + Sort(Filter(s, notp), le)
  {
    if s != [] {
      var rest := s[1..];
      SortSplit(rest, le, p, notp);
      var a, b := Sort(Filter(rest, p), le), Sort(Filter(rest, notp), le);
      SortPermutes(Filter(rest, p), le);
      SortPermutes(Filter(rest, notp), le);
      forall y | y in a ensures y in rest && p(y) {
        assert y in multiset(a);
        FilterMember(rest, p, y);
      }
      forall y | y in b ensures y in rest && !p(y) {
        assert y in multiset(b);
        FilterMember(rest, notp, y);
      }
      if p(s[0]) {
        InsertLeft(s[0], a, b, le);
        assert Filter(s, p)[1..] == Filter(rest, p);
      } else {
        InsertRight(s[0], a, b, le);
        assert Filter(s, notp)[1..] == Filter(rest, notp);
      }
    }
  }

  lemma SortMembers<T>(s: seq<T>, le: (T, T) -> bool, x: T)
    ensures x in Sort(s, le) <==> x in s
  {
    SortPermutes(s, le);
    assert x in Sort(s, le) <==> x in multiset(Sort(s, le));
    assert x in s <==> x in multiset(s);
  }

  lemma {:induction false} TotalInsert<T>(x: T, s: seq<T>, le: (T, T) -> bool, f: T -> int)
    ensures Total(Insert(x, s, le), f) == f(x) + Total(s, f)
  {
    if s == [] || le(x, s[0]) {
    } else {
      TotalInsert(x, s[1..], le, f);
    }
  }

  /** Sorting changes no total. */
  lemma {:induction false} TotalSort<T>(s: seq<T>, le: (T, T) -> bool, f: T -> int)
    ensures Total(Sort(s, le), f) == Total(s, f)
  {
    if s != [] {
      TotalSort(s[1..], le, f);
      TotalInsert(s[0], Sort(s[1..], le), le, f);
    }
  }
}
