/**
  * What refundable_overpayment makes of a loan: everything repaid less total due and fees
  * (backend/app/services/disbursement.py:422-438), against what the steps of LoanLifecycle do to it.
  */
module Overpayments {
  import opened Wrappers
  import opened Money
  import opened Loans
  import opened Repayments
  import opened LoanLifecycle

  /** The figure the deductions start from. Penalties, rebates and absorbed interest are not in it. */
  function Overpaid(s: LoanState): int {
    Repaid(s) - (TotalDue(s) + s.feesInBalance)
  }

  /** Surplus interest that the step absorbs in an early payoff. */
  function AbsorbedBy(s: LoanState, step: Step): Cents
    requires StepSound(step)
  {
    if step.Payment? && IsOpen(s.status) && SettlesEarly(s, step.amount, step.on, step.settings)
    then PayoffQuote(s, step.on, step.settings).consumed else 0
  }

  function Absorbed(s: LoanState, steps: seq<Step>): Cents
    requires StepsSound(steps)
  {
    if steps == [] then 0
    else
      var before := steps[..|steps| - 1];
      Absorbed(s, before) + AbsorbedBy(Run(s, before), steps[|steps| - 1])
  }

  /** How far the expectation is above the balance, once the loan is paid out. */
  function Gap(s: LoanState): int {
    if NotYetPaidOut(s.status) then 0 else ExpectedBalance(s) - s.balance
  }

  lemma StepMovesGap(s: LoanState, step: Step)
    requires Inv(s) && StepSound(step) && (NotYetPaidOut(s.status) ==> Gap(s) == 0)
    ensures Gap(Apply(s, step)) == Gap(s) + AbsorbedBy(s, step)
    ensures AbsorbedBy(s, step) >= 0
  {
    match step
    case Payment(amount, on, settings) =>
      PaymentKeepsExpectation(s, amount, on, settings);
      PayoffWithin(s, on, settings);
    case _ =>
  }

  lemma {:induction false} GapIsAbsorbed(s: LoanState, steps: seq<Step>)
    requires NewLoan(s) && StepsSound(steps)
    ensures Gap(Run(s, steps)) == Absorbed(s, steps) && Absorbed(s, steps) >= 0
  {
    if steps != [] {
      var before := steps[..|steps| - 1];
      GapIsAbsorbed(s, before);
      RunKeepsInv(s, before);
      StepMovesGap(Run(s, before), steps[|steps| - 1]);
    }
  }

  /** A loan that was paid out shows its penalties less balance, rebate and absorbed interest as overpaid. */
  lemma OverpaidIs(s: LoanState, steps: seq<Step>)
    requires NewLoan(s) && StepsSound(steps) && !NotYetPaidOut(Run(s, steps).status)
    ensures var l := Run(s, steps);
            Overpaid(l) == l.penalties - l.balance - l.rebate - Absorbed(s, steps)
  {
    GapIsAbsorbed(s, steps);
  }

  /**
    * A loan in any state shows an overpayment exactly when its penalties exceed its balance, rebate and absorbed
    * interest.
    */
  lemma ShowsOverpaymentIff(s: LoanState, steps: seq<Step>)
    requires NewLoan(s) && StepsSound(steps)
    ensures var l := Run(s, steps);
            Overpaid(l) > 0 <==> l.penalties > l.balance + l.rebate + Absorbed(s, steps)
  {
    var l := Run(s, steps);
    RunKeepsInv(s, steps);
    GapIsAbsorbed(s, steps);
    TotalDueIsPrincipalPlusInterest(l);
    if NotYetPaidOut(l.status) {
      NoFeesBeforePayout(s, steps);
    }
  }

  lemma {:induction false} NoFeesBeforePayout(s: LoanState, steps: seq<Step>)
    requires NewLoan(s) && StepsSound(steps) && NotYetPaidOut(Run(s, steps).status)
    ensures Run(s, steps).feesInBalance == 0
  {
    if steps != [] {
      NoFeesBeforePayout(s, steps[..|steps| - 1]);
    }
  }

  /**
    * A paid loan shows one exactly when its penalties exceed what was written off: paying a penalty makes it
    * refundable.
    */
  lemma PaidLoanShowsOverpayment(s: LoanState, steps: seq<Step>)
    requires NewLoan(s) && StepsSound(steps) && Run(s, steps).status == Paid
    ensures var l := Run(s, steps);
            Overpaid(l) > 0 <==> l.penalties > l.rebate + Absorbed(s, steps)
  {
    RunKeepsInv(s, steps);
    ShowsOverpaymentIff(s, steps);
  }

  /** On a loan still open nothing was absorbed: it shows one exactly when its penalties exceed balance and rebate. */
  lemma OpenLoanShowsOverpayment(s: LoanState, steps: seq<Step>)
    requires NewLoan(s) && StepsSound(steps) && IsOpen(Run(s, steps).status)
    ensures var l := Run(s, steps);
            Absorbed(s, steps) == 0 && (Overpaid(l) > 0 <==> l.penalties > l.balance + l.rebate)
  {
    RunKeepsInv(s, steps);
    GapIsAbsorbed(s, steps);
    ShowsOverpaymentIff(s, steps);
  }

  // ---------------------------------------------------------------- a penalty paid and shown as overpaid

  /** KES 10,000 at 10 percent with a 5 percent penalty, due on day 30. */
  const APPLIED: LoanState := LoanState(1_000_000, 10_000, 5_000, Pending, 0, 0, 0, 0, [], None, None, None)
  const PLAIN: Settings := Settings(PrincipalFeesInterest, Daily, 30)
  const UNTIL_OVERDUE: seq<Step> :=
    [Decide(Approve, true, None, ""), SendPayout, PayoutResultPaid(0, 30, 0), OverdueSweep(31)]

  lemma RunSnoc(s: LoanState, steps: seq<Step>, step: Step)
    requires StepsSound(steps) && StepSound(step)
    ensures StepsSound(steps + [step]) && Run(s, steps + [step]) == Apply(Run(s, steps), step)
  {
    assert (steps + [step])[..|steps|] == steps;
  }

  lemma OverdueOnDay31()
    ensures StepsSound(UNTIL_OVERDUE)
    ensures Run(APPLIED, UNTIL_OVERDUE)
         == LoanState(1_000_000, 10_000, 5_000, Overdue, 1_150_000, 0, 50_000, 0, [], Some(0), Some(30), None)
  {
    var approve, send, paid, sweep := UNTIL_OVERDUE[0], UNTIL_OVERDUE[1], UNTIL_OVERDUE[2], UNTIL_OVERDUE[3];
    assert [] + [approve] == [approve];
    RunSnoc(APPLIED, [], approve);
    RunSnoc(APPLIED, [approve], send);
    RunSnoc(APPLIED, [approve] + [send], paid);
    RunSnoc(APPLIED, [approve] + [send] + [paid], sweep);
    assert UNTIL_OVERDUE == [approve] + [send] + [paid] + [sweep];
    assert TotalDue(APPLIED) == 1_100_000 && FlatInterest(APPLIED) == 100_000;
  }

  /** Paying KES 11,500, penalty included, on day 31 closes the loan and leaves the penalty of KES 500 as overpaid. */
  lemma PaidPenaltyRefundable()
    ensures var steps := UNTIL_OVERDUE + [Payment(1_150_000, 31, PLAIN)];
            && NewLoan(APPLIED) && StepsSound(steps)
            && Run(APPLIED, steps).status == Paid && Overpaid(Run(APPLIED, steps)) == 50_000
  {
    OverdueOnDay31();
    RunSnoc(APPLIED, UNTIL_OVERDUE, Payment(1_150_000, 31, PLAIN));
    PayingTheBalance(Run(APPLIED, UNTIL_OVERDUE));
  }

  lemma PayingTheBalance(l: LoanState)
    requires l == LoanState(1_000_000, 10_000, 5_000, Overdue, 1_150_000, 0, 50_000, 0, [], Some(0), Some(30), None)
    ensures var after := ApplyPayment(l, 1_150_000, 31, PLAIN).loan;
            after.status == Paid && Overpaid(after) == 50_000
  {
    PaymentEffect(l, 1_150_000, 31, PLAIN);
    assert ApplyPayment(l, 1_150_000, 31, PLAIN).applied == 1_150_000;
    assert TotalDue(l) == 1_100_000;
  }
}
