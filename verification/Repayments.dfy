/**
  * Applying a payment to a loan (backend/app/services/repayments.py:142-508): what is owed by component, the early
  * payoff quote, the allocation order, and the one routine every channel uses.
  */
module Repayments {
  import opened Wrappers
  import opened Money
  import opened Sequences
  import opened Loans

  datatype Order = PrincipalFeesInterest | Proportional | InterestFeesPrincipal
  datatype Settlement = Daily | CompletedPeriods

  /** A tenant's payment settings, and the days in one period of the loan's product (7 or 30). */
  datatype Settings = Settings(order: Order, settlement: Settlement, periodDays: int)

  predicate SettingsSound(settings: Settings) {
    settings.periodDays == 7 || settings.periodDays == 30
  }

  // ---------------------------------------------------------------- what is owed

  datatype Owed = Owed(principal: Cents, interest: Cents, fees: Cents, total: Cents, interestPaid: Cents)

  function OwedBreakdown(s: LoanState): Owed {
    var interestTotal := FlatInterest(s);
    var principalOwed := Max(s.principal - Total(s.rows, PrincipalOf), 0);
    var interestOwed := Max(interestTotal - Total(s.rows, InterestOf), 0);
    var feesOwed := s.balance - principalOwed - interestOwed;
    if feesOwed >= 0 then
      Owed(principalOwed, interestOwed, feesOwed, s.balance, interestTotal - interestOwed)
    else
      var gap := -feesOwed;
      var share := Min(SplitInterestPrincipal(gap, s.interestRate).0, interestOwed);
      var gapPrincipal := gap - share;
      var gapInterest :=
        if gapPrincipal > principalOwed then Min(interestOwed, share + (gapPrincipal - principalOwed)) else share;
      var principalLeft := principalOwed - Min(gapPrincipal, principalOwed);
      Owed(principalLeft, interestOwed - gapInterest, 0, s.balance, interestTotal - (interestOwed - gapInterest))
  }

  /** No part is negative and the parts are exactly the outstanding balance. */
  lemma OwedPartsSum(s: LoanState)
    requires TermsSound(s) && s.balance >= 0
    ensures var owed := OwedBreakdown(s);
            owed.principal >= 0 && owed.interest >= 0 && owed.fees >= 0
            && owed.principal + owed.interest + owed.fees == s.balance == owed.total
  {
    var principalOwed := Max(s.principal - Total(s.rows, PrincipalOf), 0);
    var interestOwed := Max(FlatInterest(s) - Total(s.rows, InterestOf), 0);
    if s.balance < principalOwed + interestOwed {
      SplitWithin(principalOwed + interestOwed - s.balance, s.interestRate);
    }
  }

  /** Each part by what was booked of it before,
    as long as the balance covers principal and interest; the rest is fees. */
  lemma OwedByComponent(s: LoanState)
    requires TermsSound(s) && s.balance >= 0
    ensures var owed := OwedBreakdown(s);
            var principal := Max(s.principal - Total(s.rows, PrincipalOf), 0);
            var interest := Max(FlatInterest(s) - Total(s.rows, InterestOf), 0);
            var gap := principal + interest - s.balance;
            var share := Min(SplitInterestPrincipal(gap, s.interestRate).0, interest);
            if gap <= 0 then (owed.principal, owed.interest, owed.fees) == (principal, interest, -gap)
            else
              // unsplit money came in: interest by its share, then principal, then interest again
              && owed.fees == 0
              && owed.interest == Min(interest - share, s.balance)
              && owed.principal == s.balance - owed.interest
  {
    var principal := Max(s.principal - Total(s.rows, PrincipalOf), 0);
    var interest := Max(FlatInterest(s) - Total(s.rows, InterestOf), 0);
    if s.balance < principal + interest {
      SplitWithin(principal + interest - s.balance, s.interestRate);
    }
  }

  /** What the rows and the balance leave unpaid of the interest is paid of it. */
  lemma InterestPaidIs(s: LoanState)
    requires TermsSound(s) && s.balance >= 0
    ensures OwedBreakdown(s).interestPaid + OwedBreakdown(s).interest == FlatInterest(s)
  {
  }

  // ---------------------------------------------------------------- early payoff

  /** round(n / d) on a float: to the nearest, ties to even. */
  function RoundHalfEven(n: int, d: int): int
    requires d > 0
  {
    var q, r := n / d, n % d;
    if 2 * r < d then q else if 2 * r > d then q + 1 else if q % 2 == 0 then q else q + 1
  }

  function PeriodsInTerm(term: int, period: int): (n: int)
    requires period > 0
    ensures n >= 1
  {
    Max(RoundHalfEven(term, period), 1)
  }

  /** The share of the term's interest earned after `elapsed` days, as a numerator and a denominator. */
  function EarnedFraction(settlement: Settlement, elapsed: int, term: int, period: int): (f: (int, int))
    requires elapsed >= 0 && term > 0 && period > 0
    ensures 0 <= f.0 <= f.1 && f.1 > 0
  {
    match settlement
    case CompletedPeriods =>
      var periods := PeriodsInTerm(term, period);
      (Min(elapsed / period, periods), periods)
    case Daily => (Min(Max(elapsed, 1), term), term)
  }

  /** Day by day: one day of the term for each day begun, the first one even if repaid at once,
    and never more than all. */
  lemma DailyShare(elapsed: int, term: int, period: int)
    requires elapsed >= 0 && term > 0 && period > 0
    ensures var f := EarnedFraction(Daily, elapsed, term, period);
            f.1 == term && f.0 == if elapsed == 0 then 1 else if elapsed < term then elapsed else term
  {
  }

  /** Completed periods: the whole periods gone by, out of the nearest number of periods in the term, at least one. */
  lemma CompletedShare(elapsed: int, term: int, period: int)
    requires elapsed >= 0 && term > 0 && period > 0
    ensures var f := EarnedFraction(CompletedPeriods, elapsed, term, period);
            && (f.1 == 1 || -period <= 2 * (f.1 * period - term) <= period)
            && (f.0 < f.1 ==> f.0 * period <= elapsed < f.0 * period + period)
            && (f.0 == f.1 ==> f.1 * period <= elapsed)
    ensures 2 * term > 3 * period ==> EarnedFraction(CompletedPeriods, elapsed, term, period).1 > 1
  {
    NearestPeriods(term, period);
    WholePeriods(elapsed, period);
    var n, whole := PeriodsInTerm(term, period), elapsed / period;
    if n <= whole {
      ScaleUp(n, whole, period);
    }
  }

  lemma WholePeriods(days: int, period: int)
    requires period > 0
    ensures days / period * period <= days < days / period * period + period
  {
    var q, r := days / period, days % period;
    assert q * period + r == days;
  }

  lemma NearestPeriods(term: int, period: int)
    requires term > 0 && period > 0
    ensures var n := PeriodsInTerm(term, period);
            (n == 1 || -period <= 2 * (n * period - term) <= period) && (2 * term > 3 * period ==> n > 1)
  {
    var q, r := term / period, term % period;
    assert q * period + r == term;
    assert (q + 1) * period == q * period + period;
    if q < 1 {
      ScaleUp(q, 0, period);
    } else if q == 1 {
      assert q * period == period;
    }
  }

  /** The flat interest an early payoff on a day of the term charges in all. */
  function EarnedInterest(settlement: Settlement, interest: Cents, elapsed: int, term: int, period: int): Cents
    requires 0 <= elapsed < term && period > 0
  {
    var f := EarnedFraction(settlement, elapsed, term, period);
    RoundHalfUp(interest * f.0, f.1)
  }

  /** Completed periods charge no more than day by day, for any interest on any day before the due date. */
  ghost predicate NeverMoreThanDaily(term: int, period: int)
    requires period > 0
  {
    forall interest: Cents, elapsed :: interest >= 0 && 0 <= elapsed < term ==>
                                         EarnedInterest(CompletedPeriods, interest, elapsed, term, period)
                                         <= EarnedInterest(Daily, interest, elapsed, term, period)
  }

  /** "Never more than the daily method" holds of what is charged exactly when the counted periods cover the term. */
  lemma CompletedPeriodsNeverMore(term: int, period: int)
    requires term > 0 && period > 0
    ensures NeverMoreThanDaily(term, period) <==> term <= period * PeriodsInTerm(term, period)
  {
    if term <= period * PeriodsInTerm(term, period) {
      forall interest: Cents, elapsed | interest >= 0 && 0 <= elapsed < term
        ensures EarnedInterest(CompletedPeriods, interest, elapsed, term, period)
             <= EarnedInterest(Daily, interest, elapsed, term, period)
      {
        CoveredNeverMore(interest, elapsed, term, period);
      }
    } else {
      AllPeriodsBeforeDue(term, period);
    }
  }

  lemma CoveredNeverMore(interest: Cents, elapsed: int, term: int, period: int)
    requires interest >= 0 && 0 <= elapsed < term && period > 0 && term <= period * PeriodsInTerm(term, period)
    ensures EarnedInterest(CompletedPeriods, interest, elapsed, term, period)
         <= EarnedInterest(Daily, interest, elapsed, term, period)
  {
    var completed, daily := EarnedFraction(CompletedPeriods, elapsed, term, period),
                            EarnedFraction(Daily, elapsed, term, period);
    CompletedWithinDaily(elapsed, term, period, PeriodsInTerm(term, period));
    RoundedShareMonotone(interest, completed.0, completed.1, daily.0, daily.1);
  }

  /** When they do not cover it, the day after the last counted period charges the whole interest before it is due. */
  lemma AllPeriodsBeforeDue(term: int, period: int)
    requires term > 0 && period > 0 && period * PeriodsInTerm(term, period) < term
    ensures var elapsed := period * PeriodsInTerm(term, period);
            && 0 <= elapsed < term
            && EarnedInterest(CompletedPeriods, term, elapsed, term, period) == term
            && EarnedInterest(Daily, term, elapsed, term, period) == elapsed
    ensures !NeverMoreThanDaily(term, period)
  {
    var periods := PeriodsInTerm(term, period);
    var elapsed := period * periods;
    DivOfProduct(periods, period);
    MultiplesApart(0, periods, period);
    assert elapsed / period == periods && elapsed >= 1;
    RoundExact(term, periods);
    RoundExact(elapsed, term);
    assert term * elapsed == elapsed * term;
    assert EarnedInterest(CompletedPeriods, term, elapsed, term, period)
         > EarnedInterest(Daily, term, elapsed, term, period);
  }

  /** A payout sets the term to whole periods of the product's unit: for such terms the promise holds. */
  lemma WholePeriodsNeverMore(periods: int, period: int)
    requires periods >= 1 && period > 0
    ensures periods * period > 0 && NeverMoreThanDaily(periods * period, period)
  {
    MultiplesApart(0, periods, period);
    PeriodsCounted(periods, period);
    CompletedPeriodsNeverMore(periods * period, period);
  }

  lemma PeriodsCounted(periods: int, period: int)
    requires periods >= 1 && period > 0
    ensures PeriodsInTerm(periods * period, period) == periods
  {
    var term := periods * period;
    DivOfProduct(periods, period);
    assert term / period * period + term % period == term;
  }

  /**
    * Five weeks, the product's unit changed to months since: on day 30 all the interest is charged, day by day 30/35 of
    * it.
    */
  lemma FiveWeeksCountedInMonths()
    ensures PeriodsInTerm(35, 30) == 1 && !NeverMoreThanDaily(35, 30)
    ensures EarnedInterest(CompletedPeriods, 35_000, 30, 35, 30) == 35_000 > EarnedInterest(Daily, 35_000, 30, 35, 30)
  {
    AllPeriodsBeforeDue(35, 30);
  }

  /** A smaller share of the same amount rounds to no more. */
  lemma RoundedShareMonotone(amount: Cents, n1: int, d1: int, n2: int, d2: int)
    requires amount >= 0 && n1 >= 0 && n2 >= 0 && d1 > 0 && d2 > 0 && n1 * d2 <= n2 * d1
    ensures RoundHalfUp(amount * n1, d1) <= RoundHalfUp(amount * n2, d2)
  {
    var x, y := amount * n1, amount * n2;
    ScaleUp(0, n1, amount);
    ScaleUp(0, n2, amount);
    ScaleUp(n1 * d2, n2 * d1, amount);
    assert x * d2 == amount * (n1 * d2) && y * d1 == amount * (n2 * d1);
    RoundMonotone(x, d1, y, d2);
  }

  lemma RoundMonotone(x: int, d: int, y: int, e: int)
    requires x >= 0 && y >= 0 && d > 0 && e > 0 && x * e <= y * d
    ensures RoundHalfUp(x, d) <= RoundHalfUp(y, e)
  {
    var r, s := RoundHalfUp(x, d), RoundHalfUp(y, e);
    ScaleUp(0, d, e);
    UpperHalf(r, x, d, e);
    LowerHalf(s, y, e, d);
    assert e * d == d * e;
    if s < r {
      ScaleUp(s + 1, r, d * e);
      assert false;
    }
  }

  lemma UpperHalf(r: int, x: int, d: int, e: int)
    requires e >= 0 && 2 * (r * d - x) <= d
    ensures 2 * (r * (d * e)) <= 2 * (x * e) + d * e
  {
    ScaleUp(2 * (r * d), 2 * x + d, e);
    assert (r * d) * e == r * (d * e);
  }

  lemma LowerHalf(s: int, y: int, e: int, d: int)
    requires d > 0 && -e < 2 * (s * e - y)
    ensures 2 * (y * d) < 2 * (s * (e * d)) + e * d
  {
    ScaleUp(2 * y + 1, 2 * (s * e) + e, d);
    assert (s * e) * d == s * (e * d);
  }

  lemma DivOfProduct(a: int, b: int)
    requires b > 0
    ensures (a * b) / b == a
  {
    var q, r := (a * b) / b, (a * b) % b;
    assert q * b + r == a * b;
    if q < a {
      MultiplesApart(q, a, b);
    } else if a < q {
      MultiplesApart(a, q, b);
    }
  }

  lemma CompletedWithinDaily(elapsed: int, term: int, period: int, periods: int)
    requires elapsed >= 0 && term > 0 && period > 0 && periods >= 1 && term <= period * periods
    ensures Min(elapsed / period, periods) * term <= Min(Max(elapsed, 1), term) * periods
  {
    var whole := elapsed / period;
    var done, used := Min(whole, periods), Min(Max(elapsed, 1), term);
    if used == term {
      ScaleUp(done, periods, term);
    } else {
      assert whole * period <= elapsed;
      ScaleUp(done, whole, period);
      CoveredShare(done, elapsed, term, period, periods);
      ScaleUp(elapsed, used, periods);
    }
  }

  lemma CoveredShare(done: int, elapsed: int, term: int, period: int, periods: int)
    requires 0 <= done && done * period <= elapsed && term <= period * periods && periods >= 1
    ensures done * term <= elapsed * periods
  {
    ScaleUp(term, period * periods, done);
    ScaleUp(done * period, elapsed, periods);
    assert done * (period * periods) == (done * period) * periods;
  }

  datatype Quote = Quote(early: bool, payoff: Cents, rebate: Cents, credit: Cents,
                         principalOwed: Cents, feesOwed: Cents, interestOwed: Cents, consumed: Cents)

  predicate QuotesEarly(s: LoanState, on: int) {
    && IsOpen(s.status) && s.balance > 0
    && s.disbursedOn.Some? && s.dueOn.Some?
    && s.dueOn.value - s.disbursedOn.value > 0
    && on < s.dueOn.value
  }

  /** consumed is the part of interest paid beyond what was earned that this payoff absorbs rather than refunds. */
  function PayoffQuote(s: LoanState, on: int, settings: Settings): Quote
    requires SettingsSound(settings)
  {
    var owed := OwedBreakdown(s);
    if !QuotesEarly(s, on) then
      Quote(false, s.balance, 0, 0, owed.principal, owed.fees, owed.interest, 0)
    else
      var term, elapsed := s.dueOn.value - s.disbursedOn.value, Max(on - s.disbursedOn.value, 0);
      var fraction := EarnedFraction(settings.settlement, elapsed, term, settings.periodDays);
      var earned := RoundHalfUp(FlatInterest(s) * fraction.0, fraction.1);
      var surplus := Max(owed.interestPaid - earned, 0);
      var earnedOwed := Min(Max(earned - owed.interestPaid, 0), owed.interest);
      var raw := owed.principal + owed.fees + earnedOwed - surplus;
      Quote(true, Max(raw, 0), owed.interest - earnedOwed, Max(-raw, 0), owed.principal, owed.fees, earnedOwed,
            surplus - Max(-raw, 0))
  }

  /** The balance is exactly the payoff, the interest written off and the surplus interest absorbed. */
  lemma PayoffWithin(s: LoanState, on: int, settings: Settings)
    requires TermsSound(s) && s.balance >= 0 && SettingsSound(settings)
    ensures var q := PayoffQuote(s, on, settings);
            && 0 <= q.payoff <= s.balance && q.rebate >= 0 && q.credit >= 0 && q.consumed >= 0
            && q.principalOwed >= 0 && q.feesOwed >= 0 && q.interestOwed >= 0
            && q.payoff <= q.principalOwed + q.feesOwed + q.interestOwed
            && s.balance == q.payoff + q.rebate + q.consumed
            && q.principalOwed == OwedBreakdown(s).principal && q.feesOwed == OwedBreakdown(s).fees
            && q.interestOwed + q.rebate == OwedBreakdown(s).interest
            && (q.payoff > 0 ==> q.credit == 0)
  {
    OwedPartsSum(s);
  }

  /** Net of any surplus, an early payoff charges exactly the interest earned by then, whatever was paid before. */
  lemma EarlyPayoffChargesEarned(s: LoanState, on: int, settings: Settings)
    requires TermsSound(s) && s.balance >= 0 && SettingsSound(settings) && QuotesEarly(s, on)
    ensures var q := PayoffQuote(s, on, settings);
            var term, elapsed := s.dueOn.value - s.disbursedOn.value, Max(on - s.disbursedOn.value, 0);
            var fraction := EarnedFraction(settings.settlement, elapsed, term, settings.periodDays);
            OwedBreakdown(s).interestPaid + q.interestOwed - (q.credit + q.consumed)
            == RoundHalfUp(FlatInterest(s) * fraction.0, fraction.1)
  {
    var term, elapsed := s.dueOn.value - s.disbursedOn.value, Max(on - s.disbursedOn.value, 0);
    var fraction := EarnedFraction(settings.settlement, elapsed, term, settings.periodDays);
    OwedPartsSum(s);
    TotalDueIsPrincipalPlusInterest(s);
    RoundedShareWithin(FlatInterest(s), fraction.0, fraction.1);
  }

  // ---------------------------------------------------------------- allocation

  datatype Components = Components(principal: Cents, interest: Cents, fees: Cents)

  /** Fill the parts in the order given, each up to what it is owed. */
  function Fill(amount: Cents, order: Order, principal: Cents, fees: Cents, interest: Cents): Components {
    match order
    case InterestFeesPrincipal =>
      var i := Min(amount, interest);
      var f := Min(amount - i, fees);
      Components(Min(amount - i - f, principal), i, f)
    case _ =>
      var p := Min(amount, principal);
      var f := Min(amount - p, fees);
      Components(p, Min(amount - p - f, interest), f)
  }

  function Allocate(s: LoanState, amount: Cents, order: Order): Components {
    if order == Proportional then
      var (interest, principal) := SplitInterestPrincipal(amount, s.interestRate);
      Components(principal, interest, 0)
    else
      var owed := OwedBreakdown(s);
      var c := Fill(amount, order, owed.principal, owed.fees, owed.interest);
      var residue := amount - c.principal - c.interest - c.fees;
      if residue <= 0 then c
      else if order == PrincipalFeesInterest then c.(interest := c.interest + residue)
      else c.(principal := c.principal + residue)
  }

  lemma FillExact(amount: Cents, order: Order, principal: Cents, fees: Cents, interest: Cents)
    requires 0 <= amount <= principal + fees + interest && principal >= 0 && fees >= 0 && interest >= 0
    ensures var c := Fill(amount, order, principal, fees, interest);
            c.principal + c.interest + c.fees == amount
            && 0 <= c.principal <= principal && 0 <= c.interest <= interest && 0 <= c.fees <= fees
  {
  }

  /** A part is touched only once the parts before it in the order are paid in full. */
  lemma FillInOrder(amount: Cents, order: Order, principal: Cents, fees: Cents, interest: Cents)
    requires amount >= 0 && principal >= 0 && fees >= 0 && interest >= 0
    ensures var c := Fill(amount, order, principal, fees, interest);
            if order == InterestFeesPrincipal then
              (c.fees > 0 ==> c.interest == interest) && (c.principal > 0 ==> c.interest == interest && c.fees == fees)
            else
              (c.fees > 0 ==> c.principal == principal)
              && (c.interest > 0 ==> c.principal == principal && c.fees == fees)
  {
  }

  lemma AllocateExact(s: LoanState, amount: Cents, order: Order)
    requires TermsSound(s) && 0 <= amount <= s.balance
    ensures var c := Allocate(s, amount, order);
            c.principal + c.interest + c.fees == amount && c.principal >= 0 && c.interest >= 0 && c.fees >= 0
  {
    OwedPartsSum(s);
    if order == Proportional {
      SplitWithin(amount, s.interestRate);
    } else {
      var owed := OwedBreakdown(s);
      FillExact(amount, order, owed.principal, owed.fees, owed.interest);
    }
  }

  // ---------------------------------------------------------------- apply

  /** excess and interestRefund are parked in suspense. */
  datatype Applied = Applied(loan: LoanState, applied: Cents, excess: Cents, interestRefund: Cents)

  predicate SettlesEarly(s: LoanState, amount: Cents, on: int, settings: Settings)
    requires SettingsSound(settings)
  {
    PayoffQuote(s, on, settings).early && amount >= PayoffQuote(s, on, settings).payoff
  }

  function ComponentsFor(s: LoanState, amount: Cents, on: int, settings: Settings): Components
    requires SettingsSound(settings)
  {
    var q := PayoffQuote(s, on, settings);
    if SettlesEarly(s, amount, on, settings) then
      Fill(q.payoff, settings.order, q.principalOwed, q.feesOwed, q.interestOwed)
    else
      Allocate(s, Min(amount, s.balance), settings.order)
  }

  /** apply_payment for a reference not seen before; amount > 0 was checked by the caller's branch. */
  function ApplyPayment(s: LoanState, amount: Cents, on: int, settings: Settings): Applied
    requires SettingsSound(settings)
  {
    if !IsOpen(s.status) then Applied(s, 0, amount, 0)
    else
      var q, settles := PayoffQuote(s, on, settings), SettlesEarly(s, amount, on, settings);
      var applied := if settles then q.payoff else Min(amount, s.balance);
      var c := ComponentsFor(s, amount, on, settings);
      var rows := if applied > 0 then s.rows + [Row(applied, c.principal, c.interest, c.fees)] else s.rows;
      var balance := if settles then 0 else if applied > 0 then s.balance - applied else s.balance;
      var rebate := if settles then s.rebate + q.rebate else s.rebate;
      var status := if balance <= 0 then Paid else s.status;
      Applied(s.(rows := rows, balance := balance, rebate := rebate, status := status), applied, amount - applied,
              if settles then q.credit else 0)
  }

  /** An early payoff is open to a loan with a balance, on any day before it is due. */
  predicate BeforeDue(s: LoanState, on: int) {
    && (s.status == Active || s.status == Overdue || s.status == Defaulted) && s.balance > 0
    && s.disbursedOn.Some? && s.dueOn.Some? && s.disbursedOn.value < s.dueOn.value && on < s.dueOn.value
  }

  /**
    * How much of a payment a loan takes: nothing once it is closed; the payoff if it is early and covers that, which
    * closes the loan and writes the rest off; and otherwise as much as is owed, so that it closes exactly when all is
    * paid.
    */
  lemma AppliedIs(s: LoanState, amount: Cents, on: int, settings: Settings)
    requires TermsSound(s) && s.balance >= 0 && amount > 0 && SettingsSound(settings)
    ensures var r, q := ApplyPayment(s, amount, on, settings), PayoffQuote(s, on, settings);
            && r.excess == amount - r.applied
            && if !(s.status == Active || s.status == Overdue || s.status == Defaulted) then
                 r.applied == 0 && r.interestRefund == 0 && r.loan == s
               else if BeforeDue(s, on) && amount >= q.payoff then
                 && r.applied == q.payoff && r.loan.balance == 0 && r.loan.status == Paid
                 && r.loan.rebate == s.rebate + q.rebate && r.interestRefund == q.credit
               else
                 && r.applied == (if amount <= s.balance then amount else s.balance)
                 && r.loan.balance == s.balance - r.applied && r.loan.rebate == s.rebate && r.interestRefund == 0
                 && r.loan.status == (if amount >= s.balance then Paid else s.status)
  {
  }

  /** The tenant's order, most urgent part first. */
  predicate InOrder(order: Order, c: Components, principal: Cents, fees: Cents, interest: Cents) {
    match order
    case InterestFeesPrincipal =>
      (c.fees > 0 ==> c.interest == interest) && (c.principal > 0 ==> c.interest == interest && c.fees == fees)
    case _ =>
      (c.fees > 0 ==> c.principal == principal) && (c.interest > 0 ==> c.principal == principal && c.fees == fees)
  }

  /**
    * The row a payment writes: one row of what was applied, no part beyond what was owed of it and no later part
    * touched before the earlier ones are paid; split by the loan's rate instead where the tenant keeps the proportional
    * order.
    */
  lemma RowWritten(s: LoanState, amount: Cents, on: int, settings: Settings)
    requires TermsSound(s) && s.balance >= 0 && amount > 0 && SettingsSound(settings)
    ensures var r, owed := ApplyPayment(s, amount, on, settings), OwedBreakdown(s);
            if r.applied == 0 then r.loan.rows == s.rows
            else
              && |r.loan.rows| == |s.rows| + 1 && s.rows <= r.loan.rows
              && var row := r.loan.rows[|s.rows|];
              && row.amount == r.applied == row.principal + row.interest + row.fee
              && (settings.order == Proportional
                  && !(BeforeDue(s, on) && amount >= PayoffQuote(s, on, settings).payoff) ==>
                    row.fee == 0 && row.interest == SplitInterestPrincipal(r.applied, s.interestRate).0)
              && (settings.order != Proportional ==>
                    && row.principal <= owed.principal && row.interest <= owed.interest && row.fee <= owed.fees
                    && InOrder(settings.order, Components(row.principal, row.interest, row.fee), owed.principal,
                               owed.fees,
                               if BeforeDue(s, on) && amount >= PayoffQuote(s, on, settings).payoff
                               then PayoffQuote(s, on, settings).interestOwed else owed.interest))
  {
    OwedPartsSum(s);
    PayoffWithin(s, on, settings);
    var q, owed := PayoffQuote(s, on, settings), OwedBreakdown(s);
    if SettlesEarly(s, amount, on, settings) {
      FillExact(q.payoff, settings.order, q.principalOwed, q.feesOwed, q.interestOwed);
      FillInOrder(q.payoff, settings.order, q.principalOwed, q.feesOwed, q.interestOwed);
    } else if settings.order != Proportional {
      FillExact(Min(amount, s.balance), settings.order, owed.principal, owed.fees, owed.interest);
      FillInOrder(Min(amount, s.balance), settings.order, owed.principal, owed.fees, owed.interest);
    }
  }

  /** Everything one payment does: the money is all accounted for, its row is sound, and the loan closes at zero. */
  lemma PaymentEffect(s: LoanState, amount: Cents, on: int, settings: Settings)
    requires TermsSound(s) && s.balance >= 0 && amount > 0 && SettingsSound(settings) && RowsSound(s)
    ensures var r := ApplyPayment(s, amount, on, settings);
            && 0 <= r.applied <= amount && r.applied + r.excess == amount && r.interestRefund >= 0
            && Repaid(r.loan) == Repaid(s) + r.applied
            && RowsSound(r.loan) && s.rows <= r.loan.rows
            && 0 <= r.loan.balance <= s.balance
            && (IsOpen(s.status) ==> (r.loan.status == Paid <==> r.loan.balance == 0))
            && r.loan.rebate >= s.rebate
    ensures var r := ApplyPayment(s, amount, on, settings);
            r.loan == s.(rows := r.loan.rows, balance := r.loan.balance, rebate := r.loan.rebate,
            status := r.loan.status)
  {
    var r := ApplyPayment(s, amount, on, settings);
    if IsOpen(s.status) {
      PayoffWithin(s, on, settings);
      var q := PayoffQuote(s, on, settings);
      if SettlesEarly(s, amount, on, settings) {
        FillExact(q.payoff, settings.order, q.principalOwed, q.feesOwed, q.interestOwed);
      } else {
        AllocateExact(s, Min(amount, s.balance), settings.order);
      }
      if r.applied > 0 {
        var row := r.loan.rows[|s.rows|];
        TotalAppend(s.rows, [row], AmountOf);
        assert forall x :: x in r.loan.rows ==> x in s.rows || x == row;
      }
    }
  }

  /**
    * A payment moves the balance and the integrity check's expectation by the same amount, except that an early payoff
    * leaves the expectation above the balance by the surplus interest it absorbed.
    */
  lemma PaymentKeepsExpectation(s: LoanState, amount: Cents, on: int, settings: Settings)
    requires TermsSound(s) && s.balance >= 0 && amount > 0 && SettingsSound(settings) && RowsSound(s)
    ensures var after := ApplyPayment(s, amount, on, settings).loan;
            ExpectedBalance(after) - after.balance
            == ExpectedBalance(s) - s.balance
            + if IsOpen(s.status) && SettlesEarly(s, amount, on, settings)
            then PayoffQuote(s, on, settings).consumed else 0
  {
    PaymentEffect(s, amount, on, settings);
    PayoffWithin(s, on, settings);
  }
}
