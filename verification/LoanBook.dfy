/**
  * The loan rows the requests and the nightly jobs update in place, each method against its step in LoanLifecycle, and
  * what holds of a whole book of them.
  */
module LoanBook {
  import opened Wrappers
  import opened Money
  import opened Sequences
  import opened Loans
  import opened Repayments
  import opened LoanLifecycle

  class Loan {
    const principal: Cents
    const interestRate: int
    var penaltyRate: int
    var status: Status
    var outstandingBalance: Cents
    var feesInBalance: Cents
    var penaltiesCharged: Cents
    var interestRebate: Cents
    var repayments: seq<Row>
    var disbursementDate: Option<int>
    var dueDate: Option<int>
    var escalationLevel: Option<string>

    function View(): LoanState
      reads this
    {
      LoanState(principal, interestRate, penaltyRate, status, outstandingBalance, feesInBalance, penaltiesCharged,
                interestRebate, repayments, disbursementDate, dueDate, escalationLevel)
    }

    /** apply_for_loan */
    constructor (principal: Cents, interestRate: int, penaltyRate: int)
      requires principal >= 0 && interestRate >= 0
      ensures NewLoan(View())
      ensures this.principal == principal && this.interestRate == interestRate && this.penaltyRate == penaltyRate
    {
      this.principal, this.interestRate, this.penaltyRate := principal, interestRate, penaltyRate;
      status, outstandingBalance, feesInBalance, penaltiesCharged, interestRebate := Pending, 0, 0, 0, 0;
      repayments, disbursementDate, dueDate, escalationLevel := [], None, None, None;
    }

    method Decide(decision: Decision, approver: bool, limit: Option<Cents>, level: string)
      returns (outcome: DecisionOutcome)
      modifies this
      ensures (View(), outcome) == DecideLoan(old(View()), decision, approver, limit, level)
    {
      if status != Pending && status != Underwriting {
        return NotDecidable;
      }
      if !approver {
        return NotAnApprover;
      }
      if decision == Reject {
        status := Rejected;
        return Decided;
      }
      if decision == Escalate {
        escalationLevel := Some(level);
        return Decided;
      }
      if limit.Some? && principal > limit.value {
        escalationLevel := Some(level);
        return OverLimit;
      }
      status := Approved;
      escalationLevel := None;
      return Decided;
    }

    method TransitionTo(target: Status) returns (r: Result<(), TransitionError>)
      modifies this
      ensures match Transition(old(View()), target)
              case Ok(after) => r == Ok(()) && View() == after
              case Err(e) => r == Err(e) && View() == old(View())
    {
      if target !in ValidTransitions(status) {
        return Err(NotAllowed);
      }
      if target == Approved {
        return Err(UseApprovals);
      }
      if target == Active {
        return Err(UseDisbursement);
      }
      if target == Paid && outstandingBalance > 0 {
        return Err(BalanceOutstanding);
      }
      status := target;
      return Ok(());
    }

    /** update_product, as the loan sees it: the penalty rate is read from the product when the sweep charges it. */
    method ChangePenaltyRate(rate: int)
      modifies this
      ensures View() == Apply(old(View()), PenaltyRateChange(rate))
    {
      penaltyRate := rate;
    }

    /** _accrue_overdue_penalty */
    method AccrueOverduePenalty() returns (added: Cents)
      modifies this
      ensures View() == AccruePenalty(old(View())) && added == OverduePenalty(old(View()))
    {
      if principal <= 0 || penaltyRate <= 0 {
        return 0;
      }
      var accruedInterest := RoundHalfUp(principal * interestRate, PERCENT);
      var proposed := RoundHalfUp(principal * penaltyRate, PERCENT);
      var allowed := InDuplumCap(principal, accruedInterest, proposed);
      if allowed <= 0 {
        return 0;
      }
      outstandingBalance := outstandingBalance + allowed;
      penaltiesCharged := penaltiesCharged + allowed;
      return allowed;
    }

    /** apply_payment, for a reference not used before. */
    method Pay(amount: Cents, on: int, settings: Settings) returns (applied: Cents, excess: Cents,
                                                                    interestRefund: Cents)
      requires amount > 0 && SettingsSound(settings)
      modifies this
      ensures var r := ApplyPayment(old(View()), amount, on, settings);
              View() == r.loan && applied == r.applied && excess == r.excess && interestRefund == r.interestRefund
    {
      if !IsOpen(status) {
        return 0, amount, 0;
      }
      var s := View();
      var quote, components := PayoffQuote(s, on, settings), ComponentsFor(s, amount, on, settings);
      var settles := quote.early && amount >= quote.payoff;
      applied := if settles then quote.payoff else Min(amount, outstandingBalance);
      excess, interestRefund := amount - applied, 0;
      if applied > 0 {
        repayments := repayments + [Row(applied, components.principal, components.interest, components.fees)];
        outstandingBalance := outstandingBalance - applied;
      }
      if settles {
        outstandingBalance := 0;
        interestRebate := interestRebate + quote.rebate;
        interestRefund := quote.credit;
      }
      if outstandingBalance <= 0 {
        status := Paid;
      }
    }
  }

  // ---------------------------------------------------------------- the jobs

  ghost predicate Distinct(loans: seq<Loan>) {
    forall i, j :: 0 <= i < j < |loans| ==> loans[i] != loans[j]
  }

  ghost function Views(loans: seq<Loan>): (r: seq<LoanState>)
    reads loans
    ensures |r| == |loans|
  {
    seq(|loans|, i requires 0 <= i < |loans| reads loans => loans[i].View())
  }

  function PenaltyDue(today: int): LoanState -> int {
    (s: LoanState) => if Flips(s, today) then OverduePenalty(s) else 0
  }

  predicate DueSoon(s: LoanState, today: int) {
    s.status == Active && s.dueOn.Some? && today <= s.dueOn.value <= today + 3 && s.balance > 0
  }

  /** An active loan with a balance is due for a reminder on its due date and the three days before, and on no other. */
  lemma RemindedOnFourDays(s: LoanState, today: int)
    ensures DueSoon(s, today) <==>
            s.status == Active && s.balance > 0 && s.dueOn.Some? && s.dueOn.value - today in {0, 1, 2, 3}
  {
  }

  /** _run_repayment_reminders: how many borrowers are reminded; no loan changes. */
  method RunRepaymentReminders(loans: seq<Loan>, today: int) returns (sent: nat)
    ensures sent == Total(Views(loans), Count((s: LoanState) => DueSoon(s, today)))
  {
    ghost var book := Views(loans);
    ghost var one := Count((s: LoanState) => DueSoon(s, today));
    sent := 0;
    for i := 0 to |loans|
      invariant sent == Total(book[..i], one)
    {
      TotalStep(book, one, i);
      if DueSoon(loans[i].View(), today) {
        sent := sent + 1;
      }
    }
    assert book[..|loans|] == book;
  }

  /** _run_overdue_alerts */
  method RunOverdueAlerts(loans: seq<Loan>, today: int) returns (alerts: nat, flipped: nat, penaltyTotal: Cents)
    requires Distinct(loans)
    modifies loans
    ensures Views(loans) == Map(old(Views(loans)), s => Sweep(s, today))
    ensures alerts == Total(old(Views(loans)), Count((s: LoanState) => PastDue(s, today)))
    ensures flipped == Total(old(Views(loans)), Count((s: LoanState) => Flips(s, today)))
    ensures penaltyTotal == Total(old(Views(loans)), PenaltyDue(today))
  {
    ghost var book := Views(loans);
    ghost var alert, flip := Count((s: LoanState) => PastDue(s, today)), Count((s: LoanState) => Flips(s, today));
    alerts, flipped, penaltyTotal := 0, 0, 0;
    for i := 0 to |loans|
      invariant forall k :: 0 <= k < i ==> loans[k].View() == Sweep(book[k], today)
      invariant forall k :: i <= k < |loans| ==> loans[k].View() == book[k]
      invariant alerts == Total(book[..i], alert) && flipped == Total(book[..i], flip)
      invariant penaltyTotal == Total(book[..i], PenaltyDue(today))
    {
      TotalStep(book, alert, i);
      TotalStep(book, flip, i);
      TotalStep(book, PenaltyDue(today), i);
      var l := loans[i];
      if PastDue(l.View(), today) {
        if l.status == Active {
          l.status := Overdue;
          flipped := flipped + 1;
          var added := l.AccrueOverduePenalty();
          penaltyTotal := penaltyTotal + added;
        }
        alerts := alerts + 1;
      }
    }
    assert book[..|loans|] == book;
  }

  /** _run_defaulting */
  method RunDefaulting(loans: seq<Loan>, today: int, graceDays: int) returns (defaulted: nat)
    requires Distinct(loans)
    modifies loans
    ensures Views(loans) == Map(old(Views(loans)), s => MarkDefaulted(s, today, graceDays))
    ensures defaulted == Total(old(Views(loans)), Count((s: LoanState) => PastDue(s, today - graceDays)))
  {
    ghost var book := Views(loans);
    ghost var one := Count((s: LoanState) => PastDue(s, today - graceDays));
    var cutoff := today - graceDays;
    defaulted := 0;
    for i := 0 to |loans|
      invariant forall k :: 0 <= k < i ==> loans[k].View() == MarkDefaulted(book[k], today, graceDays)
      invariant forall k :: i <= k < |loans| ==> loans[k].View() == book[k]
      invariant defaulted == Total(book[..i], one)
    {
      TotalStep(book, one, i);
      if PastDue(loans[i].View(), cutoff) {
        loans[i].status := Defaulted;
        defaulted := defaulted + 1;
      }
    }
    assert book[..|loans|] == book;
  }

  /** run_tenant_jobs */
  method RunTenantJobs(loans: seq<Loan>, today: int, graceDays: int)
    returns (reminders: nat, alerts: nat, flipped: nat, defaulted: nat)
    requires Distinct(loans)
    modifies loans
    ensures Views(loans) == Map(old(Views(loans)), s => TenantJobs(s, today, graceDays))
    ensures reminders == Total(old(Views(loans)), Count((s: LoanState) => DueSoon(s, today)))
    ensures alerts == Total(old(Views(loans)), Count((s: LoanState) => PastDue(s, today)))
    ensures flipped == Total(old(Views(loans)), Count((s: LoanState) => Flips(s, today)))
    ensures defaulted == Total(Map(old(Views(loans)), s => Sweep(s, today)),
                               Count((s: LoanState) => PastDue(s, today - graceDays)))
  {
    reminders := RunRepaymentReminders(loans, today);
    var penaltyTotal;
    alerts, flipped, penaltyTotal := RunOverdueAlerts(loans, today);
    defaulted := RunDefaulting(loans, today, graceDays);
  }

  // ---------------------------------------------------------------- runs of a whole book

  datatype BookStep =
    | OneLoan(index: nat, step: Step)
    | SweepAll(today: int)
    | DefaultAll(today: int, graceDays: int)
    | JobsAll(today: int, graceDays: int)

  ghost predicate BookStepsSound(steps: seq<BookStep>) {
    forall i :: 0 <= i < |steps| ==> steps[i].OneLoan? ==> StepSound(steps[i].step)
  }

  function ApplyBook(book: seq<LoanState>, step: BookStep): (r: seq<LoanState>)
    requires step.OneLoan? ==> StepSound(step.step)
    ensures |r| == |book|
  {
    match step
    case OneLoan(index, s) => if index < |book| then book[index := Apply(book[index], s)] else book
    case SweepAll(today) => Map(book, s => Sweep(s, today))
    case DefaultAll(today, graceDays) => Map(book, s => MarkDefaulted(s, today, graceDays))
    case JobsAll(today, graceDays) => Map(book, s => TenantJobs(s, today, graceDays))
  }

  function RunBook(book: seq<LoanState>, steps: seq<BookStep>): (r: seq<LoanState>)
    requires BookStepsSound(steps)
    ensures |r| == |book|
  {
    if steps == [] then book else ApplyBook(RunBook(book, steps[..|steps| - 1]), steps[|steps| - 1])
  }

  ghost predicate BookInv(book: seq<LoanState>) {
    forall i :: 0 <= i < |book| ==> Inv(book[i])
  }

  lemma BookStepKeepsInv(book: seq<LoanState>, step: BookStep, i: nat)
    requires i < |book| && Inv(book[i]) && (step.OneLoan? ==> StepSound(step.step))
    ensures Inv(ApplyBook(book, step)[i])
  {
    match step
    case OneLoan(index, s) => StepKeepsInv(book[i], s);
    case SweepAll(today) => SweepsKeepInv(book[i], today, 0);
    case DefaultAll(today, graceDays) => SweepsKeepInv(book[i], today, graceDays);
    case JobsAll(today, graceDays) =>
      SweepsKeepInv(book[i], today, graceDays);
      SweepsKeepInv(Sweep(book[i], today), today, graceDays);
  }

  lemma {:induction false} RunBookKeepsInv(book: seq<LoanState>, steps: seq<BookStep>)
    requires BookInv(book) && BookStepsSound(steps)
    ensures BookInv(RunBook(book, steps))
  {
    if steps != [] {
      var before, step := steps[..|steps| - 1], steps[|steps| - 1];
      RunBookKeepsInv(book, before);
      var was := RunBook(book, before);
      forall i | 0 <= i < |was| ensures Inv(ApplyBook(was, step)[i]) {
        BookStepKeepsInv(was, step, i);
      }
    }
  }

  function JobsEachDay(book: seq<LoanState>, days: seq<int>, graceDays: int): (r: seq<LoanState>)
    ensures |r| == |book|
  {
    if days == [] then book
    else Map(JobsEachDay(book, days[..|days| - 1], graceDays), s => TenantJobs(s, days[|days| - 1], graceDays))
  }

  lemma {:induction false} JobsEachDayPointwise(book: seq<LoanState>, days: seq<int>, graceDays: int, i: nat)
    requires i < |book|
    ensures JobsEachDay(book, days, graceDays)[i] == JobsOver(book[i], days, graceDays)
  {
    if days != [] {
      JobsEachDayPointwise(book, days[..|days| - 1], graceDays, i);
    }
  }

  /** Every loan of the book ends a series of nightly jobs as one run on the last day would leave it. */
  lemma BookCatchesUp(book: seq<LoanState>, days: seq<int>, graceDays: int)
    requires Ascending(days) && days != [] && graceDays >= 0
    ensures JobsEachDay(book, days, graceDays) == Map(book, s => TenantJobs(s, days[|days| - 1], graceDays))
  {
    forall i | 0 <= i < |book|
      ensures JobsEachDay(book, days, graceDays)[i] == TenantJobs(book[i], days[|days| - 1], graceDays)
    {
      JobsEachDayPointwise(book, days, graceDays, i);
      MissedBatchesCatchUp(book[i], days, graceDays);
    }
  }

  // ---------------------------------------------------------------- the integrity check

  predicate Mismatched(s: LoanState) {
    IsOpen(s.status) && (ExpectedBalance(s) - s.balance > SHILLING || s.balance - ExpectedBalance(s) > SHILLING)
  }

  /** integrity_check: the indices of the loans listed, and how many balances are negative. */
  method IntegrityCheck(book: seq<LoanState>) returns (mismatches: seq<nat>, negatives: nat)
    ensures forall i: nat :: i in mismatches <==>
                             && i < |book| && (book[i].status in {Active, Overdue, Defaulted})
                             && (ExpectedBalance(book[i]) > book[i].balance + 100 || ExpectedBalance(book[i])
                                                                                   < book[i].balance - 100)
    ensures negatives == Total(book, Count((s: LoanState) => s.balance < 0))
  {
    ghost var negative := Count((s: LoanState) => s.balance < 0);
    mismatches, negatives := [], 0;
    for i := 0 to |book|
      invariant forall k: nat :: k in mismatches <==> k < i && Mismatched(book[k])
      invariant negatives == Total(book[..i], negative)
    {
      TotalStep(book, negative, i);
      var l := book[i];
      if l.balance < 0 {
        negatives := negatives + 1;
      }
      if l.status != Active && l.status != Overdue && l.status != Defaulted {
        continue;
      }
      var paid := 0;
      for j := 0 to |l.rows|
        invariant paid == Total(l.rows[..j], AmountOf)
      {
        TotalStep(l.rows, AmountOf, j);
        paid := paid + l.rows[j].amount;
      }
      assert l.rows[..|l.rows|] == l.rows;
      var expected := TotalDue(l) + l.feesInBalance + l.penalties - paid - l.rebate;
      var difference := if expected >= l.balance then expected - l.balance else l.balance - expected;
      if difference > SHILLING {
        mismatches := mismatches + [i];
      }
    }
    assert book[..|book|] == book;
  }

  /** No book reached from fresh applications has anything for the integrity check to list. */
  lemma ReachableBookHealthy(book: seq<LoanState>, steps: seq<BookStep>)
    requires (forall i :: 0 <= i < |book| ==> NewLoan(book[i])) && BookStepsSound(steps)
    ensures forall i :: 0 <= i < |book| ==>
                          !Mismatched(RunBook(book, steps)[i]) && RunBook(book, steps)[i].balance >= 0
  {
    RunBookKeepsInv(book, steps);
  }
}
