/**
  * Every step that changes a loan's status, balance or penalty, as a function on the loan: approval decisions
  * (approvals.py:52-124), payouts (disbursement.py:108-263), manual transitions (lending.py:58-64, 389-451), the
  * overdue and defaulting sweeps (notifications.py:18-39, 78-123), changes of the product's penalty rate, and payments.
  */
module LoanLifecycle {
  import opened Wrappers
  import opened Money
  import opened Loans
  import opened Repayments

  // ---------------------------------------------------------------- approval decisions

  datatype Decision = Approve | Reject | Escalate
  datatype DecisionOutcome = Decided | NotDecidable | NotAnApprover | OverLimit

  /** limit None is an unlimited approver; level is the next escalation tier. Over the limit the escalation is kept. */
  function DecideLoan(s: LoanState, decision: Decision, approver: bool, limit: Option<Cents>, level: string)
    : (LoanState, DecisionOutcome)
  {
    if s.status != Pending && s.status != Underwriting then (s, NotDecidable)
    else if !approver then (s, NotAnApprover)
    else match decision
         case Reject => (s.(status := Rejected), Decided)
         case Escalate => (s.(escalation := Some(level)), Decided)
         case Approve =>
           if limit.Some? && s.principal > limit.value then (s.(escalation := Some(level)), OverLimit)
           else (s.(status := Approved, escalation := None), Decided)
  }

  // ---------------------------------------------------------------- payout

  function StartPayout(s: LoanState): LoanState {
    if s.status == Approved then s.(status := Processing) else s
  }

  function PayoutFailed(s: LoanState): LoanState {
    if s.status == Processing then s.(status := Approved) else s
  }

  function PayoutPaid(s: LoanState, today: int, termDays: int, fees: Cents): LoanState {
    if s.status != Processing then s
    else s.(status := Active, disbursedOn := Some(today), dueOn := Some(today + termDays), feesInBalance := fees,
         balance := TotalDue(s) + fees)
  }

  // ---------------------------------------------------------------- manual transitions

  function ValidTransitions(status: Status): set<Status> {
    match status
    case Pending => {Underwriting, Rejected}
    case Underwriting => {Approved, Rejected}
    case Approved => {Active}
    case Active => {Paid, Overdue, Defaulted}
    case Overdue => {Paid, Defaulted, Active}
    case _ => {}
  }

  datatype TransitionError = NotAllowed | UseApprovals | UseDisbursement | BalanceOutstanding

  function Transition(s: LoanState, target: Status): Result<LoanState, TransitionError> {
    if target !in ValidTransitions(s.status) then Err(NotAllowed)
    else if target == Approved then Err(UseApprovals)
    else if target == Active then Err(UseDisbursement)
    else if target == Paid && s.balance > 0 then Err(BalanceOutstanding)
    else Ok(s.(status := target))
  }

  // ---------------------------------------------------------------- sweeps

  /**
    * The one-time overdue penalty the loan's terms allow: capped so that flat interest and penalty stay within
    * principal.
    */
  function OverduePenalty(s: LoanState): (added: Cents)
    ensures added >= 0
  {
    if s.principal <= 0 || s.penaltyRate <= 0 then 0
    else
      var proposed := RoundHalfUp(s.principal * s.penaltyRate, PERCENT);
      var allowed := InDuplumCap(s.principal, FlatInterest(s), proposed);
      if allowed <= 0 then 0 else allowed
  }

  function AccruePenalty(s: LoanState): LoanState {
    s.(balance := s.balance + OverduePenalty(s), penalties := s.penalties + OverduePenalty(s))
  }

  predicate PastDue(s: LoanState, before: int) {
    s.status in {Active, Overdue} && s.dueOn.Some? && s.dueOn.value < before && s.balance > 0
  }

  predicate Flips(s: LoanState, today: int) {
    PastDue(s, today) && s.status == Active
  }

  function Sweep(s: LoanState, today: int): LoanState {
    if Flips(s, today) then AccruePenalty(s.(status := Overdue)) else s
  }

  function MarkDefaulted(s: LoanState, today: int, graceDays: int): LoanState {
    if PastDue(s, today - graceDays) then s.(status := Defaulted) else s
  }

  function TenantJobs(s: LoanState, today: int, graceDays: int): LoanState {
    MarkDefaulted(Sweep(s, today), today, graceDays)
  }

  /**
    * The penalty for terms that have one, while flat interest leaves headroom below the principal: that many percent of
    * the principal, to the nearest cent with ties up, or the headroom if that is less. Nothing otherwise.
    */
  predicate IsPenalty(principal: Cents, interest: Cents, rate: int, added: Cents) {
    if principal <= 0 || rate <= 0 || interest >= principal then added == 0
    else
      && 0 <= added <= principal - interest
      && 200_000 * added <= 2 * (principal * rate) + 100_000
      && (added < principal - interest ==> 2 * (principal * rate) < 200_000 * added + 100_000)
  }

  lemma PenaltyIs(s: LoanState)
    requires TermsSound(s)
    ensures IsPenalty(s.principal, FlatInterest(s), s.penaltyRate, OverduePenalty(s))
  {
    if s.principal > 0 && s.penaltyRate > 0 {
      var product := s.principal * s.penaltyRate;
      ScaleUp(0, s.principal, s.penaltyRate);
      TotalDueIsPrincipalPlusInterest(s);
      assert 200_000 * RoundHalfUp(product, PERCENT) <= 2 * product + 100_000;
      assert 2 * product < 200_000 * RoundHalfUp(product, PERCENT) + 100_000;
    }
  }

  /** Only one amount is such a penalty. */
  lemma PenaltyUnique(principal: Cents, interest: Cents, rate: int, a: Cents, b: Cents)
    requires IsPenalty(principal, interest, rate, a) && IsPenalty(principal, interest, rate, b)
    ensures a == b
  {
  }

  // ---------------------------------------------------------------- what each step changes

  /** Only an approver decides, only before approval,
    and approves only within the limit; beyond it the loan is passed up. */
  lemma DecisionIs(s: LoanState, decision: Decision, approver: bool, limit: Option<Cents>, level: string)
    ensures var (after, outcome) := DecideLoan(s, decision, approver, limit, level);
            var open := s.status == Pending || s.status == Underwriting;
            && after == s.(status := after.status, escalation := after.escalation)
            && (outcome == NotDecidable <==> !open) && (outcome == NotAnApprover <==> open && !approver)
            && (after.status == s.status || after.status == Approved || after.status == Rejected)
            && (outcome == Decided && decision == Approve <==> after.status == Approved && s.status != Approved)
            && (outcome == Decided && decision == Reject <==> after.status == Rejected && s.status != Rejected)
            && (open && approver && decision == Approve ==>
                  if limit.Some? && limit.value < s.principal
                  then outcome == OverLimit && after.escalation == Some(level)
                  else outcome == Decided && after.escalation == None)
            && (open && approver && decision == Escalate ==> outcome == Decided && after.escalation == Some(level))
            && (open && approver && decision == Reject ==> outcome == Decided && after.escalation == s.escalation)
            && (!open || !approver ==> after == s)
  {
  }

  /**
    * By hand a loan goes to underwriting, is rejected, or is marked overdue, defaulted or, owing nothing, paid;
    * approval and activation are refused, and nothing but the status changes.
    */
  lemma TransitionIs(s: LoanState, target: Status)
    ensures Transition(s, target).Ok? <==>
            || (s.status == Pending && (target == Underwriting || target == Rejected))
            || (s.status == Underwriting && target == Rejected)
            || (s.status == Active && (target == Overdue || target == Defaulted || (target == Paid && s.balance <= 0)))
            || (s.status == Overdue && (target == Defaulted || (target == Paid && s.balance <= 0)))
    ensures Transition(s, target).Ok? ==> Transition(s, target).value == s.(status := target)
    ensures Transition(s, target) == Err(UseApprovals) <==> s.status == Underwriting && target == Approved
    ensures Transition(s, target) == Err(UseDisbursement) <==>
            (s.status == Approved || s.status == Overdue) && target == Active
    ensures Transition(s, target) == Err(BalanceOutstanding) <==>
            (s.status == Active || s.status == Overdue) && target == Paid && s.balance > 0
  {
  }

  /** A payout takes an approved loan; paid, it starts the term and the whole debt; failed, it gives the loan back. */
  lemma PayoutIs(s: LoanState, today: int, termDays: int, fees: Cents)
    ensures StartPayout(s) == if s.status == Approved then s.(status := Processing) else s
    ensures PayoutFailed(s) == if s.status == Processing then s.(status := Approved) else s
    ensures var after := PayoutPaid(s, today, termDays, fees);
            if s.status != Processing then after == s
            else
              && after.status == Active && after.disbursedOn == Some(today) && after.dueOn == Some(today + termDays)
              && after.feesInBalance == fees
              && ExpectedBalance(after) - after.balance == s.penalties - Repaid(s) - s.rebate
              && after == s.(status := after.status, disbursedOn := after.disbursedOn, dueOn := after.dueOn,
                          feesInBalance := after.feesInBalance, balance := after.balance)
  {
  }

  // ---------------------------------------------------------------- runs of one loan

  datatype Step =
    | Decide(decision: Decision, approver: bool, limit: Option<Cents>, level: string)
    | SendPayout
    | PayoutResultFailed
    | PayoutResultPaid(today: int, termDays: int, fees: Cents)
    | ManualTransition(target: Status)
    | OverdueSweep(today: int)
    | DefaultSweep(today: int, graceDays: int)
    | PenaltyRateChange(rate: int)
    | Payment(amount: Cents, on: int, settings: Settings)

  /** Agreed fees are never negative (pricing.py:64-67); a payment is positive (repayments.py:379-381). */
  predicate StepSound(step: Step) {
    && (step.PayoutResultPaid? ==> step.fees >= 0)
    && (step.Payment? ==> step.amount > 0 && SettingsSound(step.settings))
  }

  function Apply(s: LoanState, step: Step): LoanState
    requires StepSound(step)
  {
    match step
    case Decide(decision, approver, limit, level) => DecideLoan(s, decision, approver, limit, level).0
    case SendPayout => StartPayout(s)
    case PayoutResultFailed => PayoutFailed(s)
    case PayoutResultPaid(today, termDays, fees) => PayoutPaid(s, today, termDays, fees)
    case ManualTransition(target) =>
      var r := Transition(s, target);
      if r.Ok? then r.value else s
    case OverdueSweep(today) => Sweep(s, today)
    case DefaultSweep(today, graceDays) => MarkDefaulted(s, today, graceDays)
    case PenaltyRateChange(rate) => s.(penaltyRate := rate)
    case Payment(amount, on, settings) => ApplyPayment(s, amount, on, settings).loan
  }

  predicate StepsSound(steps: seq<Step>) {
    forall i :: 0 <= i < |steps| ==> StepSound(steps[i])
  }

  function Run(s: LoanState, steps: seq<Step>): LoanState
    requires StepsSound(steps)
  {
    if steps == [] then s else Apply(Run(s, steps[..|steps| - 1]), steps[|steps| - 1])
  }

  /** A loan as apply_for_loan creates it. */
  ghost predicate NewLoan(s: LoanState) {
    && TermsSound(s)
    && s.status == Pending && s.balance == 0 && s.feesInBalance == 0 && s.penalties == 0 && s.rebate == 0
    && s.rows == []
    && s.escalation == None
  }

  predicate NotYetPaidOut(status: Status) {
    status in {Pending, Underwriting, Approved, Processing, Rejected}
  }

  ghost predicate Inv(s: LoanState) {
    && TermsSound(s) && s.balance >= 0 && RowsSound(s)
    && (NotYetPaidOut(s.status) ==> s.penalties == 0 && s.rebate == 0 && s.rows == [])
    && (s.status == Active ==> s.penalties == 0)
    && s.penalties >= 0 && (s.penalties == 0 || FlatInterest(s) + s.penalties <= s.principal)
    && (IsOpen(s.status) ==> s.balance == ExpectedBalance(s))
    && (s.status == Paid ==> s.balance == 0)
  }

  lemma PaymentKeepsInv(s: LoanState, amount: Cents, on: int, settings: Settings)
    requires Inv(s) && amount > 0 && SettingsSound(settings)
    ensures Inv(ApplyPayment(s, amount, on, settings).loan)
  {
    PaymentEffect(s, amount, on, settings);
    PaymentKeepsExpectation(s, amount, on, settings);
  }

  lemma PayoutKeepsInv(s: LoanState, today: int, termDays: int, fees: Cents)
    requires Inv(s) && fees >= 0
    ensures Inv(PayoutPaid(s, today, termDays, fees)) && Inv(PayoutFailed(s)) && Inv(StartPayout(s))
  {
    TotalDueIsPrincipalPlusInterest(s);
  }

  lemma SweepsKeepInv(s: LoanState, today: int, graceDays: int)
    requires Inv(s)
    ensures Inv(Sweep(s, today)) && Inv(MarkDefaulted(s, today, graceDays))
  {
  }

  lemma DecisionKeepsInv(s: LoanState, decision: Decision, approver: bool, limit: Option<Cents>, level: string)
    requires Inv(s)
    ensures Inv(DecideLoan(s, decision, approver, limit, level).0)
  {
  }

  lemma TransitionKeepsInv(s: LoanState, target: Status)
    requires Inv(s) && Transition(s, target).Ok?
    ensures Inv(Transition(s, target).value)
  {
  }

  lemma StepKeepsInv(s: LoanState, step: Step)
    requires Inv(s) && StepSound(step)
    ensures Inv(Apply(s, step))
  {
    match step
    case Decide(decision, approver, limit, level) => DecisionKeepsInv(s, decision, approver, limit, level);
    case SendPayout => PayoutKeepsInv(s, 0, 0, 0);
    case PayoutResultFailed => PayoutKeepsInv(s, 0, 0, 0);
    case PayoutResultPaid(today, termDays, fees) => PayoutKeepsInv(s, today, termDays, fees);
    case ManualTransition(target) =>
      if Transition(s, target).Ok? {
        TransitionKeepsInv(s, target);
      }
    case OverdueSweep(today) => SweepsKeepInv(s, today, 0);
    case DefaultSweep(today, graceDays) => SweepsKeepInv(s, today, graceDays);
    case PenaltyRateChange(rate) =>
    case Payment(amount, on, settings) => PaymentKeepsInv(s, amount, on, settings);
  }

  /** Every reachable loan: its balance is exactly what the integrity check expects, and its rows carry sound splits. */
  lemma {:induction false} RunKeepsInv(s: LoanState, steps: seq<Step>)
    requires Inv(s) && StepsSound(steps)
    ensures Inv(Run(s, steps))
  {
    if steps != [] {
      var before := steps[..|steps| - 1];
      RunKeepsInv(s, before);
      StepKeepsInv(Run(s, before), steps[|steps| - 1]);
    }
  }

  lemma ReachableInv(s: LoanState, steps: seq<Step>)
    requires NewLoan(s) && StepsSound(steps)
    ensures Inv(Run(s, steps))
  {
    RunKeepsInv(s, steps);
  }

  /** No run writes a debt off by status: a loan marked paid owes nothing. */
  lemma PaidOwesNothing(s: LoanState, steps: seq<Step>)
    requires NewLoan(s) && StepsSound(steps) && Run(s, steps).status == Paid
    ensures Run(s, steps).balance == 0
  {
    RunKeepsInv(s, steps);
  }

  /**
    * In duplum, whatever becomes of the penalty rate: flat interest plus penalties stay within principal exactly when
    * flat interest does.
    */
  lemma InDuplumHolds(s: LoanState, steps: seq<Step>)
    requires NewLoan(s) && StepsSound(steps)
    ensures var l := Run(s, steps);
            FlatInterest(l) + l.penalties <= l.principal <==> FlatInterest(s) <= s.principal
  {
    RunKeepsInv(s, steps);
    TermsFixed(s, steps);
  }

  lemma {:induction false} TermsFixed(s: LoanState, steps: seq<Step>)
    requires NewLoan(s) && StepsSound(steps)
    ensures Run(s, steps).principal == s.principal && Run(s, steps).interestRate == s.interestRate
  {
    if steps != [] {
      var before, step := steps[..|steps| - 1], steps[|steps| - 1];
      TermsFixed(s, before);
      RunKeepsInv(s, before);
      if step.Payment? {
        PaymentEffect(Run(s, before), step.amount, step.on, step.settings);
      }
    }
  }

  /** A loan in one of these states can still be charged the overdue penalty. */
  predicate Chargeable(status: Status) {
    NotYetPaidOut(status) || status == Active
  }

  /** How many steps of the run changed the penalty. */
  function Charges(s: LoanState, steps: seq<Step>): nat
    requires StepsSound(steps)
    decreases |steps|
  {
    if steps == [] then 0
    else (if Apply(s, steps[0]).penalties != s.penalties then 1 else 0) + Charges(Apply(s, steps[0]), steps[1..])
  }

  /**
    * A step changes the penalty only by taking an active loan to a state from which it never becomes chargeable again.
    */
  lemma ChargeableStep(s: LoanState, step: Step)
    requires StepSound(step)
    ensures !Chargeable(s.status) ==> !Chargeable(Apply(s, step).status) && Apply(s, step).penalties == s.penalties
    ensures Apply(s, step).penalties != s.penalties ==> !Chargeable(Apply(s, step).status)
  {
  }

  /** Over every interleaving of steps the penalty is charged at most once. */
  lemma {:induction false} ChargedAtMostOnce(s: LoanState, steps: seq<Step>)
    requires StepsSound(steps)
    ensures Charges(s, steps) <= if Chargeable(s.status) then 1 else 0
    decreases |steps|
  {
    if steps != [] {
      ChargeableStep(s, steps[0]);
      ChargedAtMostOnce(Apply(s, steps[0]), steps[1..]);
    }
  }

  // ---------------------------------------------------------------- missed batches

  /** What the jobs make of an active loan with a balance, by how many days it is late. */
  lemma JobsByLateness(s: LoanState, today: int, graceDays: int)
    requires TermsSound(s) && s.status == Active && s.dueOn.Some? && s.balance > 0 && graceDays >= 0
    ensures var late, after := today - s.dueOn.value, TenantJobs(s, today, graceDays);
            && (after.status == Active <==> late <= 0)
            && (after.status == Overdue <==> 0 < late <= graceDays)
            && (after.status == Defaulted <==> late > graceDays)
            && after.penalties - s.penalties == after.balance - s.balance
            && (if late > 0 then IsPenalty(s.principal, FlatInterest(s), s.penaltyRate, after.penalties - s.penalties)
                else after.penalties == s.penalties)
            && after == s.(status := after.status, balance := after.balance, penalties := after.penalties)
  {
    PenaltyIs(s);
  }

  /** Of any other loan they make nothing, but for defaulting an overdue one past the grace period,
    without a penalty. */
  lemma JobsElsewhere(s: LoanState, today: int, graceDays: int)
    requires s.status != Active || s.dueOn.None? || s.balance <= 0
    ensures TenantJobs(s, today, graceDays)
         == if s.status == Overdue && s.dueOn.Some? && s.balance > 0 && today - s.dueOn.value > graceDays
            then s.(status := Defaulted) else s
  {
  }

  lemma JobsCatchUp(s: LoanState, earlier: int, later: int, graceDays: int)
    requires earlier <= later && graceDays >= 0
    ensures TenantJobs(TenantJobs(s, earlier, graceDays), later, graceDays) == TenantJobs(s, later, graceDays)
  {
  }

  function JobsOver(s: LoanState, days: seq<int>, graceDays: int): LoanState {
    if days == [] then s else TenantJobs(JobsOver(s, days[..|days| - 1], graceDays), days[|days| - 1], graceDays)
  }

  ghost predicate Ascending(days: seq<int>) {
    forall i, j :: 0 <= i < j < |days| ==> days[i] <= days[j]
  }

  lemma {:induction false} MissedBatchesCatchUp(s: LoanState, days: seq<int>, graceDays: int)
    requires Ascending(days) && days != [] && graceDays >= 0
    ensures JobsOver(s, days, graceDays) == TenantJobs(s, days[|days| - 1], graceDays)
  {
    var before := days[..|days| - 1];
    if before == [] {
      assert JobsOver(s, before, graceDays) == s;
    } else {
      MissedBatchesCatchUp(s, before, graceDays);
      JobsCatchUp(s, before[|before| - 1], days[|days| - 1], graceDays);
    }
  }

  ghost predicate CatchesUp(graceDays: int) {
    forall s: LoanState, days: seq<int> :: Ascending(days) && days != [] ==>
                                             JobsOver(s, days, graceDays) == TenantJobs(s, days[|days| - 1], graceDays)
  }

  /** The jobs catch up after missed days exactly when the grace period is not negative. */
  lemma CatchUpIffGraceNonNegative(graceDays: int)
    ensures CatchesUp(graceDays) <==> graceDays >= 0
  {
    if graceDays >= 0 {
      forall s: LoanState, days: seq<int> | Ascending(days) && days != []
        ensures JobsOver(s, days, graceDays) == TenantJobs(s, days[|days| - 1], graceDays)
      {
        MissedBatchesCatchUp(s, days, graceDays);
      }
    } else {
      NegativeGraceSkipsPenalty(graceDays);
    }
  }

  /** A loan due on day 0: run on day 0 it defaults unpenalised, run first on day 1 it is charged. */
  lemma NegativeGraceSkipsPenalty(graceDays: int)
    requires graceDays < 0
    ensures !CatchesUp(graceDays)
  {
    var s := LoanState(100, 0, PERCENT, Active, 100, 0, 0, 0, [], None, Some(0), None);
    var days := [0, 1];
    assert days[..1] == [0] && [0][..0] == [];
    assert JobsOver(s, [0], graceDays) == TenantJobs(JobsOver(s, [], graceDays), 0, graceDays);
    assert JobsOver(s, days, graceDays) == TenantJobs(TenantJobs(s, 0, graceDays), 1, graceDays);
    assert OverduePenalty(s.(status := Overdue)) == 100;
    assert TenantJobs(s, 1, graceDays).penalties == 100;
    assert Ascending(days);
  }
}
