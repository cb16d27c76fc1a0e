/** Loan account numbers: the probe of apply_for_loan (backend/app/routers/lending.py:360-387). */
module AccountNumbers {
  import opened Decimals

  function AccountNumber(year: nat, tenant: nat, n: nat): string {
    "FL/FY" + Numeral(year) + "/" + Numeral(tenant) + "/" + Numeral(n)
  }

  lemma AccountNumberInjective(year: nat, tenant: nat, m: nat, n: nat)
    requires AccountNumber(year, tenant, m) == AccountNumber(year, tenant, n)
    ensures m == n
  {
    var prefix := "FL/FY" + Numeral(year) + "/" + Numeral(tenant) + "/";
    assert AccountNumber(year, tenant, m)[|prefix|..] == Numeral(m);
    assert AccountNumber(year, tenant, n)[|prefix|..] == Numeral(n);
    NumeralInjective(m, n);
  }

  ghost predicate Distinct(numbers: seq<string>) {
    forall i, j :: 0 <= i < j < |numbers| ==> numbers[i] != numbers[j]
  }

  /** The account numbers seq, seq + 1, ... before n. */
  function Probed(year: nat, tenant: nat, first: nat, n: nat): (s: set<string>)
    requires first <= n
    ensures forall k :: first <= k < n ==> AccountNumber(year, tenant, k) in s
    decreases n
  {
    if n == first then {} else Probed(year, tenant, first, n - 1) + {AccountNumber(year, tenant, n - 1)}
  }

  lemma {:induction false} ProbedMembers(year: nat, tenant: nat, first: nat, n: nat, x: string)
    requires first <= n
    ensures x in Probed(year, tenant, first, n)
       <==> exists k: nat :: first <= k < n && x == AccountNumber(year, tenant, k)
    decreases n
  {
    if n > first {
      ProbedMembers(year, tenant, first, n - 1, x);
    }
  }

  lemma {:induction false} ProbedDistinct(year: nat, tenant: nat, first: nat, n: nat)
    requires first <= n
    ensures |Probed(year, tenant, first, n)| == n - first
    decreases n
  {
    if n > first {
      var x := AccountNumber(year, tenant, n - 1);
      ProbedDistinct(year, tenant, first, n - 1);
      assert x !in Probed(year, tenant, first, n - 1) by {
        ProbedMembers(year, tenant, first, n - 1, x);
        if x in Probed(year, tenant, first, n - 1) {
          var k: nat :| first <= k < n - 1 && x == AccountNumber(year, tenant, k);
          AccountNumberInjective(year, tenant, k, n - 1);
        }
      }
    }
  }

  lemma {:induction false} SubsetOfSeq<T>(s: set<T>, xs: seq<T>)
    requires forall x :: x in s ==> x in xs
    ensures |s| <= |xs|
  {
    if xs == [] {
      assert s == {};
    } else {
      var rest := s - {xs[0]};
      SubsetOfSeq(rest, xs[1..]);
      assert s <= rest + {xs[0]};
      if xs[0] in s {
        assert s == rest + {xs[0]};
      } else {
        assert s == rest;
      }
    }
  }

  /** Pigeonhole: numbers that are all taken are no more than the rows there are. */
  lemma AllTakenBound(year: nat, tenant: nat, first: nat, n: nat, numbers: seq<string>)
    requires first <= n && forall k :: first <= k < n ==> AccountNumber(year, tenant, k) in numbers
    ensures n - first <= |numbers|
  {
    ProbedDistinct(year, tenant, first, n);
    forall x | x in Probed(year, tenant, first, n) ensures x in numbers {
      ProbedMembers(year, tenant, first, n, x);
    }
    SubsetOfSeq(Probed(year, tenant, first, n), numbers);
  }

  /** Every number from count + 1 up to n is taken. */
  predicate TakenUpTo(year: nat, tenant: nat, numbers: seq<string>, n: nat) {
    forall k :: |numbers| < k < n ==> AccountNumber(year, tenant, k) in numbers
  }

  /** Where the probe that has come to n stops: the first free number from count + 1 on. */
  function Probe(year: nat, tenant: nat, numbers: seq<string>, n: nat): (r: nat)
    requires n > |numbers| && TakenUpTo(year, tenant, numbers, n)
    ensures r >= n && AccountNumber(year, tenant, r) !in numbers && TakenUpTo(year, tenant, numbers, r)
    decreases 2 * |numbers| + 1 - n
  {
    if AccountNumber(year, tenant, n) !in numbers then n
    else
      AllTakenBound(year, tenant, |numbers| + 1, n + 1, numbers);
      Probe(year, tenant, numbers, n + 1)
  }

  function NextNumber(year: nat, tenant: nat, numbers: seq<string>): nat {
    Probe(year, tenant, numbers, |numbers| + 1)
  }

  /** The probe looks at no more than count + 1 numbers. */
  lemma ProbesBounded(year: nat, tenant: nat, numbers: seq<string>)
    ensures |numbers| < NextNumber(year, tenant, numbers) <= 2 * |numbers| + 1
  {
    AllTakenBound(year, tenant, |numbers| + 1, NextNumber(year, tenant, numbers), numbers);
  }

  class TenantLoans {
    const tenant: nat
    var numbers: seq<string>

    constructor (tenant: nat)
      ensures this.tenant == tenant && numbers == []
    {
      this.tenant, numbers := tenant, [];
    }

    /** Ends within count + 1 probes. */
    method ApplyForLoan(year: nat) returns (n: nat, probes: nat)
      modifies this
      ensures n == NextNumber(year, tenant, old(numbers))
      ensures numbers == old(numbers) + [AccountNumber(year, tenant, n)]
      ensures probes == n - |old(numbers)| <= |old(numbers)| + 1
    {
      n, probes := |numbers| + 1, 1;
      while AccountNumber(year, tenant, n) in numbers
        invariant numbers == old(numbers) && n > |numbers| && probes == n - |numbers|
        invariant TakenUpTo(year, tenant, numbers, n)
        invariant Probe(year, tenant, numbers, n) == NextNumber(year, tenant, numbers)
        decreases 2 * |numbers| + 1 - n
      {
        AllTakenBound(year, tenant, |numbers| + 1, n + 1, numbers);
        n, probes := n + 1, probes + 1;
      }
      ProbesBounded(year, tenant, numbers);
      numbers := numbers + [AccountNumber(year, tenant, n)];
    }

    method RemoveLoan(i: nat)
      requires i < |numbers|
      modifies this
      ensures numbers == old(numbers)[..i] + old(numbers)[i + 1..]
    {
      numbers := numbers[..i] + numbers[i + 1..];
    }
  }

  // ---------------------------------------------------------------- runs

  /** numbers: those of the tenant's loan rows; issued: every number ever given out. */
  datatype Register = Register(numbers: seq<string>, issued: set<string>)

  datatype Step = Apply(year: nat) | Remove(row: nat)

  function Take(g: Register, tenant: nat, step: Step): Register {
    match step
    case Apply(year) =>
      var number := AccountNumber(year, tenant, NextNumber(year, tenant, g.numbers));
      Register(g.numbers + [number], g.issued + {number})
    case Remove(row) =>
      if row < |g.numbers| then g.(numbers := g.numbers[..row] + g.numbers[row + 1..]) else g
  }

  function Run(g: Register, tenant: nat, steps: seq<Step>): Register {
    if steps == [] then g else Take(Run(g, tenant, steps[..|steps| - 1]), tenant, steps[|steps| - 1])
  }

  /** Over any run of applications and removals, in any years, no two loans of the tenant share a number. */
  lemma {:induction false} NumbersStayDistinct(tenant: nat, steps: seq<Step>)
    ensures Distinct(Run(Register([], {}), tenant, steps).numbers)
  {
    if steps != [] {
      NumbersStayDistinct(tenant, steps[..|steps| - 1]);
    }
  }

  /** In one year's run: the numbers 1..top were issued, and the rows hold some of them, each once. */
  ghost predicate OneYear(g: Register, year: nat, tenant: nat, top: nat) {
    && g.issued == Probed(year, tenant, 1, top + 1)
    && RowsIssued(g)
    && Distinct(g.numbers)
  }

  predicate IssuedBefore(g: Register, year: nat, tenant: nat, n: nat) {
    AccountNumber(year, tenant, n) in g.issued
  }

  lemma IssuedIffUpToTop(year: nat, tenant: nat, top: nat, n: nat)
    requires n >= 1
    ensures AccountNumber(year, tenant, n) in Probed(year, tenant, 1, top + 1) <==> n <= top
  {
    ProbedMembers(year, tenant, 1, top + 1, AccountNumber(year, tenant, n));
    if AccountNumber(year, tenant, n) in Probed(year, tenant, 1, top + 1) {
      var k: nat :| 1 <= k < top + 1 && AccountNumber(year, tenant, n) == AccountNumber(year, tenant, k);
      AccountNumberInjective(year, tenant, n, k);
    }
  }

  lemma {:induction false} DistinctSize(numbers: seq<string>, s: set<string>)
    requires Distinct(numbers) && forall x :: x in numbers ==> x in s
    ensures |numbers| <= |s|
  {
    if numbers != [] {
      forall x | x in numbers[1..] ensures x in s - {numbers[0]} {
        var j :| 0 <= j < |numbers[1..]| && numbers[1..][j] == x;
        assert numbers[j + 1] != numbers[0];
      }
      DistinctSize(numbers[1..], s - {numbers[0]});
    }
  }

  /** The next number is the first one never issued, or a removed one. */
  lemma NextWithinTop(g: Register, year: nat, tenant: nat, top: nat)
    requires OneYear(g, year, tenant, top)
    ensures 1 <= NextNumber(year, tenant, g.numbers) <= top + 1
  {
    ProbedDistinct(year, tenant, 1, top + 1);
    DistinctSize(g.numbers, g.issued);
    IssuedIffUpToTop(year, tenant, top, top + 1);
    assert AccountNumber(year, tenant, top + 1) !in g.numbers;
  }

  lemma YearStep(g: Register, year: nat, tenant: nat, top: nat, step: Step) returns (next: nat)
    requires OneYear(g, year, tenant, top) && (step.Apply? ==> step.year == year)
    ensures OneYear(Take(g, tenant, step), year, tenant, next)
  {
    next := top;
    TakeKeepsIssued(g, tenant, step);
    if step.Apply? {
      NextWithinTop(g, year, tenant, top);
      var n := NextNumber(year, tenant, g.numbers);
      IssuedIffUpToTop(year, tenant, top, n);
      if n == top + 1 {
        next := n;
      }
    }
  }

  lemma {:induction false} YearRun(year: nat, tenant: nat, steps: seq<Step>) returns (top: nat)
    requires forall i :: 0 <= i < |steps| ==> steps[i].Apply? ==> steps[i].year == year
    ensures OneYear(Run(Register([], {}), tenant, steps), year, tenant, top)
  {
    if steps == [] {
      top := 0;
    } else {
      top := YearRun(year, tenant, steps[..|steps| - 1]);
      top := YearStep(Run(Register([], {}), tenant, steps[..|steps| - 1]), year, tenant, top, steps[|steps| - 1]);
    }
  }

  /**
    * After any run, in any years: a new loan of the year takes a number issued before exactly when some number above
    * the current count is on no row, and it and all between were issued.
    */
  lemma ReusedIff(tenant: nat, steps: seq<Step>, year: nat)
    ensures var g := Run(Register([], {}), tenant, steps);
            IssuedBefore(g, year, tenant, NextNumber(year, tenant, g.numbers))
            <==> exists k :: |g.numbers| < k && AccountNumber(year, tenant, k) !in g.numbers
                             && forall j :: |g.numbers| < j <= k ==> IssuedBefore(g, year, tenant, j)
  {
    var g := Run(Register([], {}), tenant, steps);
    var n := NextNumber(year, tenant, g.numbers);
    RowsWereIssued(tenant, steps);
    if IssuedBefore(g, year, tenant, n) {
      forall j | |g.numbers| < j <= n ensures IssuedBefore(g, year, tenant, j) {
        assert j < n ==> AccountNumber(year, tenant, j) in g.numbers;
      }
      assert AccountNumber(year, tenant, n) !in g.numbers;
    }
    forall k | |g.numbers| < k && AccountNumber(year, tenant, k) !in g.numbers ensures n <= k {
      assert k < n ==> AccountNumber(year, tenant, k) in g.numbers;
    }
  }

  predicate RowsIssued(g: Register) {
    forall x :: x in g.numbers ==> x in g.issued
  }

  lemma TakeKeepsIssued(g: Register, tenant: nat, step: Step)
    requires RowsIssued(g)
    ensures RowsIssued(Take(g, tenant, step))
  {
  }

  lemma {:induction false} RowsWereIssued(tenant: nat, steps: seq<Step>)
    ensures RowsIssued(Run(Register([], {}), tenant, steps))
  {
    if steps != [] {
      var was := Run(Register([], {}), tenant, steps[..|steps| - 1]);
      RowsWereIssued(tenant, steps[..|steps| - 1]);
      TakeKeepsIssued(was, tenant, steps[|steps| - 1]);
    }
  }

  /**
    * As long as all of it happens in one year, that is when any number above the current count was issued and removed.
    */
  lemma ReusedWithinYearIff(tenant: nat, steps: seq<Step>, year: nat)
    requires forall i :: 0 <= i < |steps| ==> steps[i].Apply? ==> steps[i].year == year
    ensures var g := Run(Register([], {}), tenant, steps);
            IssuedBefore(g, year, tenant, NextNumber(year, tenant, g.numbers))
            <==> exists k :: |g.numbers| < k && AccountNumber(year, tenant, k) !in g.numbers
                             && IssuedBefore(g, year, tenant, k)
  {
    var g := Run(Register([], {}), tenant, steps);
    var top := YearRun(year, tenant, steps);
    var n := NextNumber(year, tenant, g.numbers);
    NextWithinTop(g, year, tenant, top);
    forall k: nat | k >= 1 ensures IssuedBefore(g, year, tenant, k) <==> k <= top {
      IssuedIffUpToTop(year, tenant, top, k);
    }
    if n <= top {
      assert |g.numbers| < n && AccountNumber(year, tenant, n) !in g.numbers && IssuedBefore(g, year, tenant, n);
    }
    forall k | |g.numbers| < k && AccountNumber(year, tenant, k) !in g.numbers ensures n <= k {
      assert k < n ==> AccountNumber(year, tenant, k) in g.numbers;
    }
  }

  /** The newest loan's row removed: its number goes to the next loan, whatever the register. */
  lemma NewestNumberReturns(g: Register, year: nat, tenant: nat)
    ensures var taken := Take(g, tenant, Apply(year));
            Take(Take(taken, tenant, Remove(|g.numbers|)), tenant, Apply(year)).numbers == taken.numbers
  {
    var taken := Take(g, tenant, Apply(year));
    assert Take(taken, tenant, Remove(|g.numbers|)).numbers == g.numbers;
  }
}
