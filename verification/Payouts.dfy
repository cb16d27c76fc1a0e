/**
  * The payouts of one loan (backend/app/services/disbursement.py:108-306): execute_disbursement takes the loan and
  * commits the intent before it calls the provider, so a payout is two steps here, and anything may come between them.
  */
module Payouts {
  import opened Wrappers
  import opened Loans
  import opened LoanLifecycle

  /** Sent: processing, timed out or uncertain. */
  datatype PayoutStatus = Initiated | Sent | PaidOut | Failed

  /** waiting: the request that saved it has no answer yet. */
  datatype Payout = Payout(status: PayoutStatus, waiting: bool)

  datatype Ledger = Ledger(loan: LoanState, payouts: seq<Payout>)

  datatype Answer = Accepted | Refused | Unknown

  datatype Step =
    | Disburse
    | Reply(request: nat, answer: Answer)
    | Result(payout: nat, paid: bool, today: int, termDays: int, fees: int)
    | Other(step: LoanLifecycle.Step)

  predicate Sound(step: Step) {
    match step
    case Result(_, _, _, _, fees) => fees >= 0
    case Other(s) => StepSound(s) && !s.SendPayout? && !s.PayoutResultFailed? && !s.PayoutResultPaid?
    case _ => true
  }

  predicate IsUnsettled(p: Payout) {
    p.status == Initiated || p.status == Sent
  }

  /** open_payout */
  predicate NoneUnsettled(payouts: seq<Payout>) {
    forall p :: p in payouts ==> !IsUnsettled(p)
  }

  function Take(g: Ledger, step: Step): Ledger
    requires Sound(step)
  {
    match step
    case Disburse =>
      if NoneUnsettled(g.payouts) && g.loan.status == Approved
      then Ledger(StartPayout(g.loan), g.payouts + [Payout(Initiated, true)]) else g
    case Reply(k, answer) =>
      if k >= |g.payouts| || !g.payouts[k].waiting then g
      else if answer == Refused then
        Ledger(PayoutFailed(g.loan), g.payouts[k := Payout(Failed, false)])
      else g.(payouts := g.payouts[k := Payout(Sent, false)])
    case Result(k, paid, today, termDays, fees) =>
      if k >= |g.payouts| || !IsUnsettled(g.payouts[k]) then g
      else if paid then
        Ledger(PayoutPaid(g.loan, today, termDays, fees), g.payouts[k := g.payouts[k].(status := PaidOut)])
      else
        Ledger(PayoutFailed(g.loan), g.payouts[k := g.payouts[k].(status := Failed)])
    case Other(s) => g.(loan := Apply(g.loan, s))
  }

  ghost predicate AllSound(steps: seq<Step>) {
    forall k :: 0 <= k < |steps| ==> Sound(steps[k])
  }

  function Run(g: Ledger, steps: seq<Step>): Ledger
    requires AllSound(steps)
  {
    if steps == [] then g else Take(Run(g, steps[..|steps| - 1]), steps[|steps| - 1])
  }

  /** The answer to a request comes after somebody settled its payout as not paid. */
  predicate LateAnswer(g: Ledger, step: Step) {
    step.Reply? && step.request < |g.payouts| && g.payouts[step.request].waiting
    && g.payouts[step.request].status == Failed
  }

  ghost predicate InTime(g: Ledger, steps: seq<Step>)
    requires AllSound(steps)
  {
    steps == [] || (var before := steps[..|steps| - 1];
                    InTime(g, before) && !LateAnswer(Run(g, before), steps[|steps| - 1]))
  }

  ghost predicate AtMostOnePayout(payouts: seq<Payout>) {
    forall j, k :: 0 <= j < k < |payouts| ==> payouts[j].status == Failed || payouts[k].status == Failed
  }

  /** A loan that can be taken for a payout, or was not decided yet, has none that did not fail. */
  ghost predicate NoneBeforePayout(g: Ledger) {
    g.loan.status in {Pending, Underwriting, Approved, Rejected} ==> forall p :: p in g.payouts ==> p.status == Failed
  }

  lemma OtherKeepsStatus(s: LoanState, step: LoanLifecycle.Step)
    requires Sound(Other(step))
    ensures Apply(s, step).status in {Pending, Underwriting, Approved, Rejected}
       <==> s.status in {Pending, Underwriting, Approved, Rejected}
  {
  }

  lemma TakeKeepsOne(g: Ledger, step: Step)
    requires Sound(step) && AtMostOnePayout(g.payouts) && NoneBeforePayout(g) && !LateAnswer(g, step)
    ensures AtMostOnePayout(Take(g, step).payouts) && NoneBeforePayout(Take(g, step))
  {
    if step.Other? {
      OtherKeepsStatus(g.loan, step.step);
    }
  }

  /**
    * As long as no answer comes late, a loan never has two payouts that did not fail, however many requests are made at
    * once.
    */
  lemma {:induction false} PaidOutOnce(s: LoanState, steps: seq<Step>)
    requires NewLoan(s) && AllSound(steps) && InTime(Ledger(s, []), steps)
    ensures AtMostOnePayout(Run(Ledger(s, []), steps).payouts) && NoneBeforePayout(Run(Ledger(s, []), steps))
  {
    if steps != [] {
      var before := steps[..|steps| - 1];
      PaidOutOnce(s, before);
      TakeKeepsOne(Run(Ledger(s, []), before), steps[|steps| - 1]);
    }
  }

  /** A payout is begun only for an approved loan with none unsettled, which it takes; it then counts until it fails. */
  lemma DisburseIs(g: Ledger)
    ensures var after := Take(g, Disburse);
            if g.loan.status == Approved
               && (forall p :: p in g.payouts ==> p.status == PaidOut || p.status == Failed) then
              && after.loan == g.loan.(status := Processing)
              && |after.payouts| == |g.payouts| + 1 && g.payouts <= after.payouts
              && after.payouts[|g.payouts|] == Payout(Initiated, true)
            else after == g
  {
  }

  /**
    * A refusal fails it and gives the loan back as approved; any other answer leaves the loan and puts it on its way.
    */
  lemma ReplyIs(g: Ledger, k: nat, answer: Answer)
    requires k < |g.payouts| && g.payouts[k].waiting
    ensures var after := Take(g, Reply(k, answer));
            && |after.payouts| == |g.payouts|
            && (forall j :: 0 <= j < |g.payouts| && j != k ==> after.payouts[j] == g.payouts[j])
            && !after.payouts[k].waiting && (after.payouts[k].status == Failed <==> answer == Refused)
            && (answer != Refused ==> after.payouts[k].status == Sent && after.loan == g.loan)
            && (answer == Refused ==>
                  after.loan == if g.loan.status == Processing then g.loan.(status := Approved) else g.loan)
  {
  }

  /** A result settles an unsettled payout: paid, the loan it took becomes active; not paid, it is approved again. */
  lemma ResultIs(g: Ledger, k: nat, paid: bool, today: int, termDays: int, fees: int)
    requires k < |g.payouts| && fees >= 0
    ensures var after := Take(g, Result(k, paid, today, termDays, fees));
            var open := g.payouts[k].status == Initiated || g.payouts[k].status == Sent;
            && |after.payouts| == |g.payouts|
            && (forall j :: 0 <= j < |g.payouts| && j != k ==> after.payouts[j] == g.payouts[j])
            && after.payouts[k].status == (if !open then g.payouts[k].status else if paid then PaidOut else Failed)
            && after.payouts[k].waiting == g.payouts[k].waiting
            && (if open && g.loan.status == Processing
                then after.loan.status == (if paid then Active else Approved)
                     && (paid ==> after.loan.dueOn == Some(today + termDays))
                else after.loan == g.loan)
  {
  }

  // ---------------------------------------------------------------- exactly when

  ghost predicate NeverPaidTwice(late: bool) {
    forall s: LoanState, steps: seq<Step> :: NewLoan(s) && AllSound(steps) && (late || InTime(Ledger(s, []), steps)) ==>
                                               AtMostOnePayout(Run(Ledger(s, []), steps).payouts)
  }

  lemma RunSnoc(g: Ledger, steps: seq<Step>, step: Step)
    requires AllSound(steps) && Sound(step)
    ensures AllSound(steps + [step]) && Run(g, steps + [step]) == Take(Run(g, steps), step)
  {
    assert (steps + [step])[..|steps|] == steps;
  }

  const DECIDED: Step := Other(Decide(Approve, true, None, ""))
  const DISBURSED: seq<Step> := [DECIDED] + [Disburse]
  const DISBURSED_AGAIN: seq<Step> := DISBURSED + [Result(0, false, 0, 0, 0)] + [Disburse]

  /**
    * Settled as not paid while its request is out, paid out again, then accepted after all: two payouts are on their
    * way.
    */
  lemma LateAnswerPaysTwice(s: LoanState)
    requires NewLoan(s)
    ensures AllSound(DISBURSED_AGAIN + [Reply(0, Accepted)])
    ensures Run(Ledger(s, []), DISBURSED_AGAIN + [Reply(0, Accepted)]).payouts
         == [Payout(Sent, false), Payout(Initiated, true)]
  {
    var g := Ledger(s, []);
    assert [] + [DECIDED] == [DECIDED];
    RunSnoc(g, [], DECIDED);
    RunSnoc(g, [DECIDED], Disburse);
    RunSnoc(g, DISBURSED, Result(0, false, 0, 0, 0));
    RunSnoc(g, DISBURSED + [Result(0, false, 0, 0, 0)], Disburse);
    RunSnoc(g, DISBURSED_AGAIN, Reply(0, Accepted));
    var failed := Run(g, DISBURSED + [Result(0, false, 0, 0, 0)]);
    assert failed.payouts == [Payout(Failed, true)] && failed.loan.status == Approved;
    assert Run(g, DISBURSED_AGAIN).payouts == [Payout(Failed, true), Payout(Initiated, true)];
  }

  /** Concurrent requests never pay a loan twice, in any run, if and only if no answer comes late. */
  lemma NeverPaidTwiceIff(late: bool)
    ensures NeverPaidTwice(late) <==> !late
  {
    if late {
      var s := LoanState(100, 0, 0, Pending, 0, 0, 0, 0, [], None, None, None);
      LateAnswerPaysTwice(s);
      var payouts := Run(Ledger(s, []), DISBURSED_AGAIN + [Reply(0, Accepted)]).payouts;
      assert payouts[0].status != Failed && payouts[1].status != Failed;
      assert !AtMostOnePayout(payouts);
    } else {
      forall s: LoanState, steps: seq<Step> | NewLoan(s) && AllSound(steps) && InTime(Ledger(s, []), steps)
        ensures AtMostOnePayout(Run(Ledger(s, []), steps).payouts)
      {
        PaidOutOnce(s, steps);
      }
    }
  }
}
