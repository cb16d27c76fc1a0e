/**
  * Money actions parked for a second person, and the decisions on them (backend/app/routers/payments.py:118-174,
  * approvals.py:206-271; backend/app/services/disbursement.py:312-404, payment_approvals.py:157-177, 379-424). Sending
  * a refund commits its intent before the provider is called, which gives up the row lock on the action; so an approval
  * is two steps here, up to that commit and from the answer on, and anything may come between them.
  */
module MakerChecker {
  import opened Wrappers
  import opened Money
  import opened Sequences

  datatype ActionType = LoanRefund | SuspenseRefund(entry: nat) | OtherAction
  datatype ActionStatus = AwaitingApproval | ActionApproved | ActionRejected

  datatype Action = Action(kind: ActionType, loanId: Option<int>, amount: Cents, maker: int, madeAt: nat,
                           status: ActionStatus,
                           checker: Option<int>)

  /** Closed: allocated to a loan or reversed. */
  datatype EntryStatus = Open | Parked | BeingRefunded | Refunded | Closed

  /** A suspense entry; loanId is the loan it was matched to when it was received. */
  datatype Entry = Entry(loanId: Option<int>, amount: Cents, status: EntryStatus)

  /** Pending: processing, timed out or uncertain. All but the failed ones count as sent. */
  datatype RefundStatus = Initiated | Pending | Completed | RefundFailed
  datatype Refund = Refund(loanId: Option<int>, amount: Cents, status: RefundStatus, entry: Option<nat>)

  /** What the provider (or the books) answers when the effect is run. */
  datatype Answer = Accepted | Refused | Unknown

  datatype Outcome = Ongoing | Rejection | Answered(answer: Answer)

  /** A decision on action id, from the step at which it took the action to the step that ended it. */
  datatype Ruling = Ruling(id: nat, checker: int, begun: nat, ended: nat, outcome: Outcome, refund: Option<nat>)

  /** overpaid is, per loan, everything repaid less what the loan cost; now counts the steps. */
  datatype Desk = Desk(overpaid: map<int, int>, entries: seq<Entry>, actions: seq<Action>, refunds: seq<Refund>,
                       rulings: seq<Ruling>, now: nat)

  function PendingOn(loanId: int): Action -> int {
    (a: Action) => if a.loanId == Some(loanId) && a.kind == LoanRefund && a.status == AwaitingApproval then a.amount
      else 0
  }

  function SentOn(loanId: int): Refund -> int {
    (r: Refund) => if r.loanId == Some(loanId) && r.status != RefundFailed then r.amount else 0
  }

  function Sent(d: Desk, loanId: int): Cents {
    Total(d.refunds, SentOn(loanId))
  }

  /** refundable_overpayment: a new request also deducts what awaits approval, an approval only what is on its way. */
  function Refundable(d: Desk, loanId: int, countPending: bool): (r: Cents)
    requires loanId in d.overpaid
    ensures r >= 0
  {
    Max(d.overpaid[loanId] - (if countPending then Total(d.actions, PendingOn(loanId)) else 0) - Sent(d, loanId), 0)
  }

  /** M-Pesa pays whole shillings: the amount sent is rounded up. */
  function CeilShilling(amount: Cents): (r: Cents)
    ensures amount <= r < amount + SHILLING && r % SHILLING == 0
  {
    (amount + SHILLING - 1) / SHILLING * SHILLING
  }

  datatype Failure =
    | LoanNotFound | NothingRefundable | NotPositive | ExceedsOverpayment | EntryResolved
    | NotAwaiting | OwnAction | NotPermitted | NoLongerRefundable | EntryNotAwaiting | ProviderRefused | OutcomeUnknown

  // ---------------------------------------------------------------- requests

  function RequestRefund(d: Desk, loanId: int, amount: Option<Cents>, maker: int): Result<Desk, Failure> {
    if loanId !in d.overpaid then Err(LoanNotFound)
    else
      var available := Refundable(d, loanId, true);
      var wanted := if amount.Some? then amount.value else available;
      if available <= 0 then Err(NothingRefundable)
      else if wanted <= 0 then Err(NotPositive)
      else if wanted > available then Err(ExceedsOverpayment)
      else Ok(d.(actions :=
              d.actions + [Action(LoanRefund, Some(loanId), wanted, maker, d.now, AwaitingApproval, None)]))
  }

  /** refund_suspense: the entry's own amount and matched loan, whatever the loan has overpaid. */
  function RequestSuspenseRefund(d: Desk, e: nat, maker: int): Result<Desk, Failure> {
    if e >= |d.entries| || d.entries[e].status != Open then Err(EntryResolved)
    else
      var entry := d.entries[e];
      Ok(d.(entries := d.entries[e := entry.(status := Parked)],
         actions := d.actions
         + [Action(SuspenseRefund(e), entry.loanId, entry.amount, maker, d.now, AwaitingApproval, None)]))
  }

  // ---------------------------------------------------------------- decisions

  /** The checks decide_pending_action makes of every decision. */
  function CheckDecision(d: Desk, id: nat, checker: int, permitted: bool): Result<(), Failure> {
    if id >= |d.actions| || d.actions[id].status != AwaitingApproval then Err(NotAwaiting)
    else if d.actions[id].maker == checker then Err(OwnAction)
    else if !permitted then Err(NotPermitted)
    else Ok(())
  }

  function SetEntry(entries: seq<Entry>, e: Option<nat>, status: EntryStatus): (r: seq<Entry>)
    ensures |r| == |entries|
  {
    if e.Some? && e.value < |entries| then entries[e.value := entries[e.value].(status := status)] else entries
  }

  /** The entry goes back to the queue, unless it was resolved some other way. */
  function Reopen(entries: seq<Entry>, e: Option<nat>): (r: seq<Entry>)
    ensures |r| == |entries|
  {
    if e.Some? && e.value < |entries| && entries[e.value].status in {BeingRefunded, Parked}
    then SetEntry(entries, e, Open)
    else entries
  }

  function EntryOf(a: Action): Option<nat> {
    if a.kind.SuspenseRefund? then Some(a.kind.entry) else None
  }

  function RejectAction(d: Desk, id: nat, checker: int, permitted: bool): Result<Desk, Failure> {
    var check := CheckDecision(d, id, checker, permitted);
    if check.Err? then Err(check.error)
    else
      var a := d.actions[id];
      var e := EntryOf(a);
      var entries := if e.Some? && e.value < |d.entries| && d.entries[e.value].status == Parked
                     then SetEntry(d.entries, e, Open)
                     else d.entries;
      Ok(d.(entries := entries,
         actions := d.actions[id := a.(status := ActionRejected, checker := Some(checker))],
         rulings := d.rulings + [Ruling(id, checker, d.now, d.now, Rejection, None)]))
  }

  /** An approval up to the commit of the refund's intent: the action is still awaiting, its row lock given up. */
  function BeginApproval(d: Desk, id: nat, checker: int, permitted: bool): Result<Desk, Failure> {
    var check := CheckDecision(d, id, checker, permitted);
    if check.Err? then Err(check.error)
    else
      var a := d.actions[id];
      match a.kind
      case OtherAction => Ok(d.(rulings := d.rulings + [Ruling(id, checker, d.now, d.now, Ongoing, None)]))
      case LoanRefund =>
        if a.loanId.None? || a.loanId.value !in d.overpaid then Err(LoanNotFound)
        else if a.amount > Refundable(d, a.loanId.value, false) then Err(NoLongerRefundable)
        else if a.amount <= 0 then Err(NotPositive)
        else Ok(SaveIntent(d, id, checker))
      case SuspenseRefund(e) =>
        if e >= |d.entries| || d.entries[e].status != Parked then Err(EntryNotAwaiting)
        else if a.amount <= 0 then Err(NotPositive)
        else Ok(SaveIntent(d.(entries := SetEntry(d.entries, Some(e), BeingRefunded)), id, checker))
  }

  /** execute_refund up to its first commit. */
  function SaveIntent(d: Desk, id: nat, checker: int): Desk
    requires id < |d.actions|
  {
    var a := d.actions[id];
    d.(refunds := d.refunds + [Refund(a.loanId, CeilShilling(a.amount), Initiated, EntryOf(a))],
    rulings := d.rulings + [Ruling(id, checker, d.now, d.now, Ongoing, Some(|d.refunds|))])
  }

  function SetRefund(refunds: seq<Refund>, r: Option<nat>, status: RefundStatus): (s: seq<Refund>)
    ensures |s| == |refunds|
  {
    if r.Some? && r.value < |refunds| then refunds[r.value := refunds[r.value].(status := status)] else refunds
  }

  function RefundEntry(refunds: seq<Refund>, r: Option<nat>): Option<nat> {
    if r.Some? && r.value < |refunds| then refunds[r.value].entry else None
  }

  /** The rest of the approval, once the provider has answered: it writes whatever the rows hold by now. */
  function FinishApproval(d: Desk, k: nat, answer: Answer): (Desk, Result<(), Failure>)
    requires k < |d.rulings| && d.rulings[k].id < |d.actions|
  {
    var u := d.rulings[k];
    var ruled := d.(rulings := d.rulings[k := u.(ended := d.now, outcome := Answered(answer))]);
    match answer
    case Accepted =>
      (ruled.(refunds := SetRefund(d.refunds, u.refund, Pending),
       actions := d.actions[u.id := d.actions[u.id].(status := ActionApproved, checker := Some(u.checker))]), Ok(()))
    case Refused =>
      (ruled.(refunds := SetRefund(d.refunds, u.refund, RefundFailed),
       entries := Reopen(d.entries, RefundEntry(d.refunds, u.refund))), Err(ProviderRefused))
    case Unknown => (ruled.(refunds := SetRefund(d.refunds, u.refund, Pending)), Err(OutcomeUnknown))
  }

  /** The result callback, or a person who checked the provider's portal; the latter may also settle a mere intent. */
  function SettleRefund(d: Desk, r: nat, paid: bool): Desk {
    if r >= |d.refunds| || d.refunds[r].status !in {Initiated, Pending} then d
    else if paid then
      d.(refunds := SetRefund(d.refunds, Some(r), Completed),
      entries := SetEntry(d.entries, d.refunds[r].entry, Refunded))
    else
      d.(refunds := SetRefund(d.refunds, Some(r), RefundFailed), entries := Reopen(d.entries, d.refunds[r].entry))
  }

  // ---------------------------------------------------------------- runs

  datatype Step =
    | Request(loanId: int, amount: Option<Cents>, maker: int)
    | RequestOfEntry(entry: nat, maker: int)
    | RequestOther(action: Action)
    | Reject(id: nat, checker: int, permitted: bool)
    | Approve(id: nat, checker: int, permitted: bool)
    | Reply(ruling: nat, answer: Answer)
    | RefundResult(refund: nat, paid: bool)
    | Received(newEntry: Entry)
    | Moved(moving: nat, status: EntryStatus)
    | Repayment(loan: int, received: Cents)

  predicate Sound(step: Step) {
    && (step.RequestOther? ==>
          step.action.kind == OtherAction && step.action.status == AwaitingApproval && step.action.checker == None)
    && (step.Received? ==> step.newEntry.status == Open)
    && (step.Moved? ==> step.status in {Open, Parked, Closed})
    && (step.Repayment? ==> step.received >= 0)
  }

  function After(d: Desk, r: Result<Desk, Failure>): Desk {
    if r.Ok? then r.value else d
  }

  predicate InProgress(d: Desk, k: nat) {
    k < |d.rulings| && d.rulings[k].outcome == Ongoing && d.rulings[k].id < |d.actions|
  }

  predicate Claimed(e: Entry) {
    e.status == BeingRefunded || e.status == Refunded
  }

  /** Allocations and reversals move entries that no refund holds; a failed request or decision changes nothing. */
  function Effect(d: Desk, step: Step): Desk {
    match step
    case Request(loanId, amount, maker) => After(d, RequestRefund(d, loanId, amount, maker))
    case RequestOfEntry(e, maker) => After(d, RequestSuspenseRefund(d, e, maker))
    case RequestOther(action) => d.(actions := d.actions + [action])
    case Reject(id, checker, permitted) => After(d, RejectAction(d, id, checker, permitted))
    case Approve(id, checker, permitted) => After(d, BeginApproval(d, id, checker, permitted))
    case Reply(k, answer) => if InProgress(d, k) then FinishApproval(d, k, answer).0 else d
    case RefundResult(r, paid) => SettleRefund(d, r, paid)
    case Received(entry) => d.(entries := d.entries + [entry])
    case Moved(e, status) =>
      if e < |d.entries| && !Claimed(d.entries[e]) then d.(entries := SetEntry(d.entries, Some(e), status)) else d
    case Repayment(loan, amount) =>
      if loan in d.overpaid then d.(overpaid := d.overpaid[loan := d.overpaid[loan] + amount]) else d
  }

  function Take(d: Desk, step: Step): Desk {
    Effect(d, step).(now := d.now + 1)
  }

  ghost predicate AllSound(steps: seq<Step>) {
    forall k :: 0 <= k < |steps| ==> Sound(steps[k])
  }

  function Run(d: Desk, steps: seq<Step>): Desk {
    if steps == [] then d else Take(Run(d, steps[..|steps| - 1]), steps[|steps| - 1])
  }

  /** A desk before anything was requested. */
  predicate Opened(d: Desk) {
    && d.actions == [] && d.refunds == [] && d.rulings == [] && d.now == 0
    && forall e :: e in d.entries ==> e.status == Open
  }

  // ---------------------------------------------------------------- what every run keeps

  /** It set the action's status. */
  predicate Effective(u: Ruling) {
    u.outcome == Rejection || u.outcome == Answered(Accepted)
  }

  predicate Overlap(u: Ruling, v: Ruling) {
    u.begun <= v.ended && v.begun <= u.ended
  }

  predicate EffectiveOn(u: Ruling, id: nat) {
    u.id == id && Effective(u)
  }

  predicate AcceptedOn(u: Ruling, id: nat) {
    u.id == id && u.outcome == Answered(Accepted)
  }

  ghost predicate SomeRuling(rulings: seq<Ruling>, id: nat, p: (Ruling, nat) -> bool) {
    exists k :: 0 <= k < |rulings| && p(rulings[k], id)
  }

  lemma RulingAdded(rulings: seq<Ruling>, u: Ruling, id: nat, p: (Ruling, nat) -> bool)
    ensures SomeRuling(rulings + [u], id, p) <==> SomeRuling(rulings, id, p) || p(u, id)
  {
    var more := rulings + [u];
    if SomeRuling(rulings, id, p) {
      var k :| 0 <= k < |rulings| && p(rulings[k], id);
      assert p(more[k], id);
    }
    assert more[|rulings|] == u;
  }

  lemma RulingEnded(rulings: seq<Ruling>, k: nat, u: Ruling, id: nat, p: (Ruling, nat) -> bool)
    requires k < |rulings| && !p(rulings[k], id)
    ensures SomeRuling(rulings[k := u], id, p) <==> SomeRuling(rulings, id, p) || p(u, id)
  {
    var ended := rulings[k := u];
    if SomeRuling(rulings, id, p) {
      var j :| 0 <= j < |rulings| && p(rulings[j], id);
      assert p(ended[j], id);
    }
    assert ended[k] == u;
  }

  /** The action's status is that of the decisions that took effect on it, none of them its maker's. */
  ghost predicate StatusRuled(a: Action, rulings: seq<Ruling>, id: nat) {
    && (a.status == AwaitingApproval <==> a.checker == None)
    && (a.checker.Some? ==> a.checker.value != a.maker)
    && (a.status == AwaitingApproval <==> !SomeRuling(rulings, id, EffectiveOn))
    && (a.status == ActionApproved <==> SomeRuling(rulings, id, AcceptedOn))
  }

  ghost predicate RulingsOrdered(rulings: seq<Ruling>, now: nat) {
    && (forall k :: 0 <= k < |rulings| ==> rulings[k].begun <= rulings[k].ended < now)
    && (forall k :: 0 <= k < |rulings| ==> rulings[k].outcome == Rejection ==> rulings[k].begun == rulings[k].ended)
    && (forall j, k :: 0 <= j < k < |rulings| ==> rulings[j].begun < rulings[k].begun)
  }

  /** Nothing takes up an action after a decision on it took effect. */
  ghost predicate NoneAfterEffect(rulings: seq<Ruling>) {
    forall j, k :: 0 <= j < |rulings| && 0 <= k < |rulings| && EffectiveOn(rulings[k], rulings[j].id) ==>
                     rulings[j].begun <= rulings[k].ended
  }

  ghost predicate ByOthers(d: Desk) {
    forall k :: 0 <= k < |d.rulings| ==>
                  d.rulings[k].id < |d.actions| && d.rulings[k].checker != d.actions[d.rulings[k].id].maker
  }

  ghost predicate AllStatusRuled(d: Desk) {
    forall id :: 0 <= id < |d.actions| ==> StatusRuled(d.actions[id], d.rulings, id)
  }

  ghost predicate Inv(d: Desk) {
    RulingsOrdered(d.rulings, d.now) && NoneAfterEffect(d.rulings) && ByOthers(d) && AllStatusRuled(d)
  }

  lemma AddKeepsOrder(rulings: seq<Ruling>, u: Ruling)
    requires RulingsOrdered(rulings, u.begun) && NoneAfterEffect(rulings) && u.begun == u.ended
    requires !SomeRuling(rulings, u.id, EffectiveOn)
    ensures RulingsOrdered(rulings + [u], u.begun + 1) && NoneAfterEffect(rulings + [u])
  {
    var more := rulings + [u];
    forall j, k | 0 <= j < |more| && 0 <= k < |more| && EffectiveOn(more[k], more[j].id)
      ensures more[j].begun <= more[k].ended
    {
      if j == |rulings| && k < |rulings| {
        assert false;
      }
    }
  }

  lemma AddKeepsInv(d: Desk, after: Desk, u: Ruling)
    requires Inv(d) && u.id < |d.actions| && d.actions[u.id].status == AwaitingApproval
             && u.checker != d.actions[u.id].maker
    requires u.begun == u.ended == d.now && (u.outcome == Ongoing || u.outcome == Rejection)
    requires after.now == d.now + 1 && after.rulings == d.rulings + [u]
    requires after.actions == if u.outcome == Ongoing then d.actions
                              else d.actions[u.id :=
                                   d.actions[u.id].(status := ActionRejected, checker := Some(u.checker))]
    ensures Inv(after)
  {
    assert StatusRuled(d.actions[u.id], d.rulings, u.id);
    AddKeepsOrder(d.rulings, u);
    forall id | 0 <= id < |after.actions| ensures StatusRuled(after.actions[id], after.rulings, id) {
      assert StatusRuled(d.actions[id], d.rulings, id);
      RulingAdded(d.rulings, u, id, EffectiveOn);
      RulingAdded(d.rulings, u, id, AcceptedOn);
    }
  }

  lemma RejectKeepsInv(d: Desk, id: nat, checker: int, permitted: bool)
    requires Inv(d)
    ensures Inv(Take(d, Reject(id, checker, permitted)))
  {
    if RejectAction(d, id, checker, permitted).Ok? {
      AddKeepsInv(d, Take(d, Reject(id, checker, permitted)), Ruling(id, checker, d.now, d.now, Rejection, None));
    }
  }

  lemma BeginKeepsInv(d: Desk, id: nat, checker: int, permitted: bool)
    requires Inv(d)
    ensures Inv(Take(d, Approve(id, checker, permitted)))
  {
    if BeginApproval(d, id, checker, permitted).Ok? {
      var refund := if d.actions[id].kind == OtherAction then None else Some(|d.refunds|);
      AddKeepsInv(d, Take(d, Approve(id, checker, permitted)), Ruling(id, checker, d.now, d.now, Ongoing, refund));
    }
  }

  lemma EndKeepsOrder(rulings: seq<Ruling>, k: nat, now: nat, outcome: Outcome)
    requires RulingsOrdered(rulings, now) && NoneAfterEffect(rulings)
    requires k < |rulings| && rulings[k].outcome == Ongoing && outcome.Answered?
    ensures var after := rulings[k := rulings[k].(ended := now, outcome := outcome)];
            RulingsOrdered(after, now + 1) && NoneAfterEffect(after)
  {
  }

  lemma FinishKeepsInv(d: Desk, k: nat, answer: Answer)
    requires Inv(d) && InProgress(d, k)
    ensures Inv(FinishApproval(d, k, answer).0.(now := d.now + 1))
  {
    var after, was := FinishApproval(d, k, answer).0.(now := d.now + 1), d.rulings[k];
    var u := was.(ended := d.now, outcome := Answered(answer));
    assert after.rulings == d.rulings[k := u];
    EndKeepsOrder(d.rulings, k, d.now, Answered(answer));
    forall id | 0 <= id < |after.actions| ensures StatusRuled(after.actions[id], after.rulings, id) {
      assert StatusRuled(d.actions[id], d.rulings, id);
      RulingEnded(d.rulings, k, u, id, EffectiveOn);
      RulingEnded(d.rulings, k, u, id, AcceptedOn);
    }
  }

  lemma RequestKeepsInv(d: Desk, after: Desk)
    requires Inv(d) && after.now == d.now + 1 && after.rulings == d.rulings
    requires d.actions <= after.actions
    requires forall id :: |d.actions| <= id < |after.actions| ==>
                            after.actions[id].status == AwaitingApproval && after.actions[id].checker == None
    ensures Inv(after)
  {
    forall id | 0 <= id < |after.actions| ensures StatusRuled(after.actions[id], after.rulings, id) {
      if id < |d.actions| {
        assert StatusRuled(d.actions[id], d.rulings, id);
      } else {
        assert !SomeRuling(d.rulings, id, EffectiveOn) && !SomeRuling(d.rulings, id, AcceptedOn);
      }
    }
  }

  lemma TakeKeepsInv(d: Desk, step: Step)
    requires Inv(d) && Sound(step)
    ensures Inv(Take(d, step))
  {
    var after := Take(d, step);
    match step
    case Reject(id, checker, permitted) => RejectKeepsInv(d, id, checker, permitted);
    case Approve(id, checker, permitted) => BeginKeepsInv(d, id, checker, permitted);
    case Reply(k, answer) =>
      if InProgress(d, k) {
        FinishKeepsInv(d, k, answer);
      }
    case _ => RequestKeepsInv(d, after);
  }

  lemma {:induction false} RunKeepsInv(d: Desk, steps: seq<Step>)
    requires Inv(d) && AllSound(steps)
    ensures Inv(Run(d, steps))
  {
    if steps != [] {
      RunKeepsInv(d, steps[..|steps| - 1]);
      TakeKeepsInv(Run(d, steps[..|steps| - 1]), steps[|steps| - 1]);
    }
  }

  // ---------------------------------------------------------------- decided once, by somebody else

  predicate IsDecided(a: Action) {
    a.status != AwaitingApproval
  }

  /**
    * An action, once decided, changes only if an approval begun before that is accepted after it, and is then approved.
    */
  lemma DecidedChangesOnlyByOverlap(d: Desk, step: Step, id: nat)
    requires Inv(d) && Sound(step) && id < |d.actions|
    ensures id < |Take(d, step).actions|
    ensures var a, after := d.actions[id], Take(d, step).actions[id];
            IsDecided(a) && after != a ==>
              && step.Reply? && step.answer == Accepted && InProgress(d, step.ruling) && d.rulings[step.ruling].id == id
              && after == a.(status := ActionApproved, checker := Some(d.rulings[step.ruling].checker))
    ensures var a, after := d.actions[id], Take(d, step).actions[id];
            after.maker == a.maker && (IsDecided(after) ==> after.checker.Some? && after.checker.value != a.maker)
  {
    TakeKeepsInv(d, step);
    assert StatusRuled(Take(d, step).actions[id], Take(d, step).rulings, id);
  }

  /** How often the action was decided. */
  function Decisions(d: Desk, id: nat): int {
    Total(d.rulings, Count((u: Ruling) => EffectiveOn(u, id)))
  }

  ghost predicate NoOverlap(d: Desk, id: nat, p: (Ruling, nat) -> bool) {
    forall j, k :: 0 <= j < k < |d.rulings| && p(d.rulings[j], id) && p(d.rulings[k], id) ==>
                     !Overlap(d.rulings[j], d.rulings[k])
  }

  /** An action is decided at most once if and only if no two decisions of it that took effect overlapped in time. */
  lemma DecidedOnceIffNoOverlap(d: Desk, steps: seq<Step>, id: nat)
    requires Opened(d) && AllSound(steps)
    ensures Decisions(Run(d, steps), id) <= 1 <==> NoOverlap(Run(d, steps), id, EffectiveOn)
  {
    var after := Run(d, steps);
    RunKeepsInv(d, steps);
    CountMembers(after.rulings, (u: Ruling) => EffectiveOn(u, id));
  }

  // ---------------------------------------------------------------- effects

  predicate Live(r: Refund) {
    r.status != RefundFailed
  }

  /**
    * The ruling ran its action's effect, or may have: it was accepted, or it saved a refund that has not failed,
    * whatever its outcome. Where no refund tells, an approval neither accepted nor refused may have.
    */
  predicate MayHaveRun(u: Ruling, refunds: seq<Refund>) {
    match u.refund
    case Some(r) => u.outcome == Answered(Accepted) || (r < |refunds| && Live(refunds[r]))
    case None => u.outcome == Answered(Accepted) || u.outcome == Answered(Unknown) || u.outcome == Ongoing
  }

  predicate RunOn(u: Ruling, id: nat, refunds: seq<Refund>) {
    u.id == id && MayHaveRun(u, refunds)
  }

  /** How often the action's effect reached the provider or the books, or may have. */
  function Ran(d: Desk, id: nat): int {
    Total(d.rulings, Count((u: Ruling) => RunOn(u, id, d.refunds)))
  }

  /** Its effect ran once if it was approved, and never otherwise. */
  predicate RanAsDecided(d: Desk, id: nat)
    requires id < |d.actions|
  {
    Ran(d, id) == if d.actions[id].status == ActionApproved then 1 else 0
  }

  /**
    * No approval of the action that was not accepted, be it unanswered, unknown or refused, has a refund that has not
    * failed.
    */
  ghost predicate NoneLeftOpen(d: Desk, id: nat) {
    forall k :: 0 <= k < |d.rulings| && RunOn(d.rulings[k], id, d.refunds) ==> AcceptedOn(d.rulings[k], id)
  }

  /** Acceptances of one action always overlap, so none do exactly if there is at most one. */
  lemma AcceptedOverlap(d: Desk, id: nat)
    requires Inv(d)
    ensures NoOverlap(d, id, AcceptedOn)
       <==> forall j, k :: 0 <= j < k < |d.rulings| ==> !AcceptedOn(d.rulings[j], id) || !AcceptedOn(d.rulings[k], id)
  {
    forall j, k | 0 <= j < k < |d.rulings| && AcceptedOn(d.rulings[j], id) && AcceptedOn(d.rulings[k], id)
      ensures Overlap(d.rulings[j], d.rulings[k])
    {
      assert EffectiveOn(d.rulings[j], id) && EffectiveOn(d.rulings[k], id);
    }
  }

  /** With one acceptance, the effect ran once exactly if nothing else ran. */
  lemma OneRan(rulings: seq<Ruling>, refunds: seq<Refund>, id: nat, i: nat)
    requires i < |rulings| && AcceptedOn(rulings[i], id)
    ensures Total(rulings, Count((u: Ruling) => RunOn(u, id, refunds))) >= 1
    ensures Total(rulings, Count((u: Ruling) => RunOn(u, id, refunds))) == 1
       <==> forall k :: 0 <= k < |rulings| && k != i ==> !RunOn(rulings[k], id, refunds)
  {
    var p := (u: Ruling) => RunOn(u, id, refunds);
    CountMembers(rulings, p);
    assert p(rulings[i]);
    if forall k :: 0 <= k < |rulings| && k != i ==> !RunOn(rulings[k], id, refunds) {
      assert forall j, k :: 0 <= j < k < |rulings| ==> !p(rulings[j]) || !p(rulings[k]);
    } else {
      var k :| 0 <= k < |rulings| && k != i && RunOn(rulings[k], id, refunds);
      assert p(rulings[if i < k then i else k]) && p(rulings[if i < k then k else i]);
    }
  }

  lemma RanIff(d: Desk, id: nat)
    requires Inv(d) && id < |d.actions|
    ensures RanAsDecided(d, id) <==> NoneLeftOpen(d, id) && NoOverlap(d, id, AcceptedOn)
    ensures d.actions[id].status == ActionApproved ==> Ran(d, id) >= 1
  {
    AcceptedOverlap(d, id);
    assert StatusRuled(d.actions[id], d.rulings, id);
    if d.actions[id].status == ActionApproved {
      var i :| 0 <= i < |d.rulings| && AcceptedOn(d.rulings[i], id);
      OneRan(d.rulings, d.refunds, id, i);
      OnlyAccepted(d.rulings, d.refunds, id, i);
    } else {
      CountMembers(d.rulings, (u: Ruling) => RunOn(u, id, d.refunds));
      assert forall k :: 0 <= k < |d.rulings| ==> !AcceptedOn(d.rulings[k], id);
    }
  }

  lemma OnlyAccepted(rulings: seq<Ruling>, refunds: seq<Refund>, id: nat, i: nat)
    requires i < |rulings| && AcceptedOn(rulings[i], id)
    ensures (forall k :: 0 <= k < |rulings| && k != i ==> !RunOn(rulings[k], id, refunds))
       <==> (forall k :: 0 <= k < |rulings| && RunOn(rulings[k], id, refunds) ==> AcceptedOn(rulings[k], id))
            && (forall j, k :: 0 <= j < k < |rulings| ==> !AcceptedOn(rulings[j], id) || !AcceptedOn(rulings[k], id))
  {
    assert forall k :: 0 <= k < |rulings| && AcceptedOn(rulings[k], id) ==> RunOn(rulings[k], id, refunds);
  }

  /**
    * An action's effect runs exactly as decided if and only if no approval of it was left open without being accepted,
    * and no two accepted approvals of it overlapped.
    */
  lemma RanAsDecidedIff(d: Desk, steps: seq<Step>, id: nat)
    requires Opened(d) && AllSound(steps) && id < |Run(d, steps).actions|
    ensures RanAsDecided(Run(d, steps), id)
       <==> NoneLeftOpen(Run(d, steps), id) && NoOverlap(Run(d, steps), id, AcceptedOn)
    ensures Run(d, steps).actions[id].status == ActionApproved ==> Ran(Run(d, steps), id) >= 1
  {
    RunKeepsInv(d, steps);
    RanIff(Run(d, steps), id);
  }

  // ---------------------------------------------------------------- decisions taken one at a time

  /** The step takes up an action while an approval of it is still out with the provider. */
  ghost predicate TakesUpOngoing(d: Desk, step: Step, id: nat) {
    && ((step.Approve? && step.id == id) || (step.Reject? && step.id == id))
    && !NoneOngoing(d.rulings, id)
  }

  ghost predicate OneAtATime(d: Desk, steps: seq<Step>, id: nat) {
    steps == [] || (var before := steps[..|steps| - 1];
                    OneAtATime(d, before, id) && !TakesUpOngoing(Run(d, before), steps[|steps| - 1], id))
  }

  /** The rulings on the action follow one another. */
  ghost predicate InTurn(rulings: seq<Ruling>, id: nat) {
    forall j, k :: 0 <= j < k < |rulings| && rulings[j].id == id == rulings[k].id ==>
                     rulings[j].outcome != Ongoing && rulings[j].ended < rulings[k].begun
  }

  ghost predicate NoneOngoing(rulings: seq<Ruling>, id: nat) {
    forall k :: 0 <= k < |rulings| && rulings[k].id == id ==> rulings[k].outcome != Ongoing
  }

  lemma AddKeepsTurn(rulings: seq<Ruling>, u: Ruling, id: nat)
    requires RulingsOrdered(rulings, u.begun) && InTurn(rulings, id) && (u.id == id ==> NoneOngoing(rulings, id))
    ensures InTurn(rulings + [u], id)
  {
  }

  lemma EndKeepsTurn(rulings: seq<Ruling>, i: nat, now: nat, outcome: Outcome, id: nat)
    requires InTurn(rulings, id) && i < |rulings| && rulings[i].outcome == Ongoing && outcome != Ongoing
    ensures InTurn(rulings[i := rulings[i].(ended := now, outcome := outcome)], id)
  {
  }

  /** What a step does to the rulings. */
  lemma RulingsAfter(d: Desk, step: Step)
    ensures var now := Take(d, step).rulings;
            || now == d.rulings
            || (|now| == |d.rulings| + 1 && now == d.rulings + [now[|d.rulings|]] && now[|d.rulings|].begun == d.now
                && (step.Approve? || step.Reject?) && now[|d.rulings|].id == step.id)
            || (step.Reply? && InProgress(d, step.ruling)
                && now == d.rulings[step.ruling :=
                          d.rulings[step.ruling].(ended := d.now, outcome := Answered(step.answer))])
  {
  }

  lemma TakeKeepsTurn(d: Desk, step: Step, id: nat)
    requires RulingsOrdered(d.rulings, d.now) && InTurn(d.rulings, id) && !TakesUpOngoing(d, step, id)
    ensures InTurn(Take(d, step).rulings, id)
  {
    RulingsAfter(d, step);
    var now := Take(d, step).rulings;
    if step.Reply? && InProgress(d, step.ruling) {
      EndKeepsTurn(d.rulings, step.ruling, d.now, Answered(step.answer), id);
    } else if |now| > |d.rulings| {
      AddKeepsTurn(d.rulings, now[|d.rulings|], id);
    }
  }

  lemma {:induction false} RunKeepsTurn(d: Desk, steps: seq<Step>, id: nat)
    requires Inv(d) && InTurn(d.rulings, id) && AllSound(steps) && OneAtATime(d, steps, id)
    ensures InTurn(Run(d, steps).rulings, id)
  {
    if steps != [] {
      RunKeepsTurn(d, steps[..|steps| - 1], id);
      RunKeepsInv(d, steps[..|steps| - 1]);
      TakeKeepsTurn(Run(d, steps[..|steps| - 1]), steps[|steps| - 1], id);
    }
  }

  /**
    * Were nobody to take up an action while an approval of it is out, it would be decided at most once, and its effect
    * would run exactly as decided unless an approval is left open.
    */
  lemma OneAtATimeDecidesOnce(d: Desk, steps: seq<Step>, id: nat)
    requires Opened(d) && AllSound(steps) && OneAtATime(d, steps, id)
    ensures Decisions(Run(d, steps), id) <= 1
    ensures id < |Run(d, steps).actions| ==> (RanAsDecided(Run(d, steps), id) <==> NoneLeftOpen(Run(d, steps), id))
  {
    RunKeepsTurn(d, steps, id);
    DecidedOnceIffNoOverlap(d, steps, id);
    if id < |Run(d, steps).actions| {
      RanAsDecidedIff(d, steps, id);
    }
  }

  // ---------------------------------------------------------------- runs in which it goes wrong

  lemma RunSnoc(d: Desk, steps: seq<Step>, step: Step)
    ensures Run(d, steps + [step]) == Take(Run(d, steps), step)
  {
    assert (steps + [step])[..|steps|] == steps;
  }

  /** What the first step of approving a refund within the overpayment does. */
  lemma ApprovalSavesIntent(d: Desk, id: nat, checker: int, loanId: int)
    requires id < |d.actions| && loanId in d.overpaid
    requires var a := d.actions[id];
             && a.kind == LoanRefund && a.loanId == Some(loanId) && a.status == AwaitingApproval && a.maker != checker
             && 0 < a.amount <= d.overpaid[loanId] - Sent(d, loanId)
    ensures Take(d, Approve(id, checker, true))
         == d.(refunds := d.refunds + [Refund(Some(loanId), CeilShilling(d.actions[id].amount), Initiated, None)],
            rulings := d.rulings + [Ruling(id, checker, d.now, d.now, Ongoing, Some(|d.refunds|))], now := d.now + 1)
  {
  }

  const OVERPAID_500: Desk := Desk(map[1 := 50_000], [], [], [], [], 0)
  const ASKED: Action := Action(LoanRefund, Some(1), 20_000, 7, 0, AwaitingApproval, None)

  /** KES 500 overpaid, KES 200 requested, and an approval of it by person 8 out with the provider. */
  const ASK_AND_APPROVE: seq<Step> := [Request(1, Some(20_000), 7), Approve(0, 8, true)]

  function TwoHundred(status: RefundStatus): Refund {
    Refund(Some(1), 20_000, status, None)
  }

  lemma AskedAndApproved()
    ensures Run(OVERPAID_500, ASK_AND_APPROVE)
         == Desk(map[1 := 50_000], [], [ASKED], [TwoHundred(Initiated)], [Ruling(0, 8, 1, 1, Ongoing, Some(0))], 2)
  {
    RunSnoc(OVERPAID_500, [], Request(1, Some(20_000), 7));
    assert [] + [Request(1, Some(20_000), 7)] == [Request(1, Some(20_000), 7)];
    var asked := Run(OVERPAID_500, [Request(1, Some(20_000), 7)]);
    assert asked == Desk(map[1 := 50_000], [], [ASKED], [], [], 1);
    RunSnoc(OVERPAID_500, [Request(1, Some(20_000), 7)], Approve(0, 8, true));
    assert ASK_AND_APPROVE == [Request(1, Some(20_000), 7)] + [Approve(0, 8, true)];
  }

  /** A second approval while the first is out: both are accepted, none is left open, and KES 200 is sent twice. */
  lemma ApprovedTwiceAtOnce()
    ensures var d := Run(OVERPAID_500,
                         ASK_AND_APPROVE + [Approve(0, 9, true)] + [Reply(0, Accepted)] + [Reply(1, Accepted)]);
            |d.actions| == 1 && NoneLeftOpen(d, 0) && Decisions(d, 0) == 2 && Ran(d, 0) == 2 && Sent(d, 1) == 40_000
  {
    ApprovedByBoth();
    var both := ASK_AND_APPROVE + [Approve(0, 9, true)];
    RunSnoc(OVERPAID_500, both, Reply(0, Accepted));
    RunSnoc(OVERPAID_500, both + [Reply(0, Accepted)], Reply(1, Accepted));
    var d := Take(Take(Run(OVERPAID_500, both), Reply(0, Accepted)), Reply(1, Accepted));
    assert d.rulings
        == [Ruling(0, 8, 1, 3, Answered(Accepted), Some(0)), Ruling(0, 9, 2, 4, Answered(Accepted), Some(1))];
    assert d.refunds == [TwoHundred(Pending), TwoHundred(Pending)];
    CountTwo(d.rulings, (u: Ruling) => EffectiveOn(u, 0));
    CountTwo(d.rulings, (u: Ruling) => RunOn(u, 0, d.refunds));
    assert Total(d.refunds[1..], SentOn(1)) == 20_000;
  }

  lemma ApprovedByBoth()
    ensures Run(OVERPAID_500, ASK_AND_APPROVE + [Approve(0, 9, true)])
         == Desk(map[1 := 50_000], [], [ASKED], [TwoHundred(Initiated), TwoHundred(Initiated)],
                 [Ruling(0, 8, 1, 1, Ongoing, Some(0)), Ruling(0, 9, 2, 2, Ongoing, Some(1))], 3)
  {
    AskedAndApproved();
    var d := Run(OVERPAID_500, ASK_AND_APPROVE);
    RunSnoc(OVERPAID_500, ASK_AND_APPROVE, Approve(0, 9, true));
    assert Sent(d, 1) == 20_000 && CeilShilling(20_000) == 20_000;
    ApprovalSavesIntent(d, 0, 9, 1);
    assert d.refunds + [TwoHundred(Initiated)] == [TwoHundred(Initiated), TwoHundred(Initiated)];
  }

  /** A rejection while the approval is out: the action is rejected, then approved, and its refund sent. */
  lemma RejectedThenApproved()
    ensures var steps := ASK_AND_APPROVE + [Reject(0, 9, true)];
            var d, after := Run(OVERPAID_500, steps), Run(OVERPAID_500, steps + [Reply(0, Accepted)]);
            && |d.actions| == 1 == |after.actions| && d.actions[0].status == ActionRejected
            && after.actions[0].status == ActionApproved && Decisions(after, 0) == 2
  {
    AskedAndApproved();
    RunSnoc(OVERPAID_500, ASK_AND_APPROVE, Reject(0, 9, true));
    RunSnoc(OVERPAID_500, ASK_AND_APPROVE + [Reject(0, 9, true)], Reply(0, Accepted));
    var d := Take(Run(OVERPAID_500, ASK_AND_APPROVE), Reject(0, 9, true));
    assert d.rulings == [Ruling(0, 8, 1, 1, Ongoing, Some(0)), Ruling(0, 9, 2, 2, Rejection, None)];
    var after := Take(d, Reply(0, Accepted));
    assert after.rulings == [Ruling(0, 8, 1, 3, Answered(Accepted), Some(0)), Ruling(0, 9, 2, 2, Rejection, None)];
    CountTwo(after.rulings, (u: Ruling) => EffectiveOn(u, 0));
  }

  lemma CountTwo(rulings: seq<Ruling>, p: Ruling -> bool)
    requires |rulings| == 2
    ensures Total(rulings, Count(p)) == (if p(rulings[0]) then 1 else 0) + (if p(rulings[1]) then 1 else 0)
  {
    var rest := rulings[1..];
    assert rest == [rulings[1]] && rest[1..] == [];
    assert Total(rest, Count(p)) == Count(p)(rest[0]);
  }

  const UNKNOWN: seq<Step> := ASK_AND_APPROVE + [Reply(0, Unknown)]

  lemma LeftUnknown()
    ensures Run(OVERPAID_500, UNKNOWN)
         == Desk(map[1 := 50_000], [], [ASKED], [TwoHundred(Pending)],
                 [Ruling(0, 8, 1, 2, Answered(Unknown), Some(0))], 3)
    ensures Sent(Run(OVERPAID_500, UNKNOWN), 1) == 20_000
  {
    AskedAndApproved();
    RunSnoc(OVERPAID_500, ASK_AND_APPROVE, Reply(0, Unknown));
  }

  /** An unknown outcome leaves the action open, so a second approval sends again. */
  lemma UnknownThenApproved()
    ensures var d := Run(OVERPAID_500, UNKNOWN + [Approve(0, 8, true)] + [Reply(1, Accepted)]);
            |d.actions| == 1 && d.actions[0].status == ActionApproved && Ran(d, 0) == 2 && Sent(d, 1) == 40_000
  {
    LeftUnknown();
    RunSnoc(OVERPAID_500, UNKNOWN, Approve(0, 8, true));
    RunSnoc(OVERPAID_500, UNKNOWN + [Approve(0, 8, true)], Reply(1, Accepted));
    ApprovedAgain(Run(OVERPAID_500, UNKNOWN));
  }

  lemma ApprovedAgain(d: Desk)
    requires d.overpaid == map[1 := 50_000] && d.actions == [ASKED] && Sent(d, 1) == 20_000
    requires d.refunds == [TwoHundred(Pending)] && d.rulings == [Ruling(0, 8, 1, 2, Answered(Unknown), Some(0))]
             && d.now == 3
    ensures var after := Take(Take(d, Approve(0, 8, true)), Reply(1, Accepted));
            |after.actions| == 1 && after.actions[0].status == ActionApproved && Ran(after, 0) == 2
            && Sent(after, 1) == 40_000
  {
    ApprovalSavesIntent(d, 0, 8, 1);
    var again := Take(d, Approve(0, 8, true));
    assert again.refunds == [TwoHundred(Pending), TwoHundred(Initiated)] && again.actions == [ASKED] && again.now == 4;
    assert again.rulings == [Ruling(0, 8, 1, 2, Answered(Unknown), Some(0)), Ruling(0, 8, 3, 3, Ongoing, Some(1))];
    SentTwice(Take(again, Reply(1, Accepted)));
  }

  lemma SentTwice(d: Desk)
    requires |d.rulings| == 2 && d.rulings[0].id == 0 == d.rulings[1].id
    requires d.rulings[0].refund == Some(0) && d.rulings[1].refund == Some(1)
    requires |d.refunds| == 2 && d.refunds[0] in {TwoHundred(Pending), TwoHundred(Completed)}
             && d.refunds[1] == TwoHundred(Pending)
    ensures Ran(d, 0) == 2 && Sent(d, 1) == 40_000
  {
    CountTwo(d.rulings, (u: Ruling) => RunOn(u, 0, d.refunds));
    assert d.refunds == [d.refunds[0]] + [d.refunds[1]];
    TotalAppend([d.refunds[0]], [d.refunds[1]], SentOn(1));
    TotalOne(d.refunds[0], SentOn(1));
    TotalOne(d.refunds[1], SentOn(1));
  }

  /**
    * An approval never answered, its refund settled as paid later: the second one, accepted meanwhile, sends it again.
    */
  lemma UnansweredThenPaid()
    ensures var d := Run(OVERPAID_500,
                         ASK_AND_APPROVE + [Approve(0, 9, true)] + [Reply(1, Accepted)] + [RefundResult(0, true)]);
            && |d.actions| == 1 && d.actions[0].status == ActionApproved && NoOverlap(d, 0, AcceptedOn)
            && d.refunds == [TwoHundred(Completed), TwoHundred(Pending)] && Ran(d, 0) == 2 && Sent(d, 1) == 40_000
  {
    ApprovedByBoth();
    var both := ASK_AND_APPROVE + [Approve(0, 9, true)];
    RunSnoc(OVERPAID_500, both, Reply(1, Accepted));
    RunSnoc(OVERPAID_500, both + [Reply(1, Accepted)], RefundResult(0, true));
    var d := Take(Take(Run(OVERPAID_500, both), Reply(1, Accepted)), RefundResult(0, true));
    assert d.rulings == [Ruling(0, 8, 1, 1, Ongoing, Some(0)), Ruling(0, 9, 2, 3, Answered(Accepted), Some(1))];
    SentTwice(d);
  }

  const ONE_ENTRY: Desk := Desk(map[], [Entry(Some(1), 20_000, Open)], [], [], [], 0)
  const ENTRY_OUT: seq<Step> := [RequestOfEntry(0, 7)] + [Approve(0, 8, true)]

  lemma EntryOut()
    ensures var d := Run(ONE_ENTRY, ENTRY_OUT);
            && d.entries == [Entry(Some(1), 20_000, BeingRefunded)] && d.now == 2
            && d.actions == [Action(SuspenseRefund(0), Some(1), 20_000, 7, 0, AwaitingApproval, None)]
            && d.refunds == [Refund(Some(1), 20_000, Initiated, Some(0))]
            && d.rulings == [Ruling(0, 8, 1, 1, Ongoing, Some(0))]
  {
    var ask := RequestOfEntry(0, 7);
    assert [] + [ask] == [ask];
    RunSnoc(ONE_ENTRY, [], ask);
    RunSnoc(ONE_ENTRY, [ask], Approve(0, 8, true));
    EntryTakenUp(Take(ONE_ENTRY, ask));
  }

  lemma EntryTakenUp(d: Desk)
    requires d.entries == [Entry(Some(1), 20_000, Parked)] && d.refunds == [] && d.rulings == [] && d.now == 1
    requires d.actions == [Action(SuspenseRefund(0), Some(1), 20_000, 7, 0, AwaitingApproval, None)]
    ensures var after := Take(d, Approve(0, 8, true));
            && after.entries == [Entry(Some(1), 20_000, BeingRefunded)] && after.actions == d.actions && after.now == 2
            && after.refunds == [Refund(Some(1), 20_000, Initiated, Some(0))]
            && after.rulings == [Ruling(0, 8, 1, 1, Ongoing, Some(0))]
  {
  }

  /** Rejected while its refund is out, and that settled as paid: a rejected action whose entry was paid back. */
  lemma RejectedThenPaid()
    ensures var d := Run(ONE_ENTRY, ENTRY_OUT + [Reject(0, 9, true)] + [RefundResult(0, true)]);
            && |d.actions| == 1 && d.actions[0].status == ActionRejected
            && d.refunds == [Refund(Some(1), 20_000, Completed, Some(0))] && Ran(d, 0) == 1
  {
    EntryOut();
    RunSnoc(ONE_ENTRY, ENTRY_OUT, Reject(0, 9, true));
    RunSnoc(ONE_ENTRY, ENTRY_OUT + [Reject(0, 9, true)], RefundResult(0, true));
    var rejected := Take(Run(ONE_ENTRY, ENTRY_OUT), Reject(0, 9, true));
    assert rejected.rulings == [Ruling(0, 8, 1, 1, Ongoing, Some(0)), Ruling(0, 9, 2, 2, Rejection, None)];
    PaidOut(Take(rejected, RefundResult(0, true)));
  }

  lemma PaidOut(d: Desk)
    requires d.rulings == [Ruling(0, 8, 1, 1, Ongoing, Some(0)), Ruling(0, 9, 2, 2, Rejection, None)]
    requires d.refunds == [Refund(Some(1), 20_000, Completed, Some(0))]
    ensures Ran(d, 0) == 1
  {
    CountTwo(d.rulings, (u: Ruling) => RunOn(u, 0, d.refunds));
  }

  /** A rejection instead leaves a rejected action whose money may have gone out. */
  lemma UnknownThenRejected()
    ensures var d := Run(OVERPAID_500, UNKNOWN + [Reject(0, 8, true)]);
            |d.actions| == 1 && d.actions[0].status == ActionRejected && Ran(d, 0) == 1 && Sent(d, 1) == 20_000
  {
    LeftUnknown();
    RunSnoc(OVERPAID_500, UNKNOWN, Reject(0, 8, true));
    var d := Take(Run(OVERPAID_500, UNKNOWN), Reject(0, 8, true));
    assert d.rulings == [Ruling(0, 8, 1, 2, Answered(Unknown), Some(0)), Ruling(0, 8, 3, 3, Rejection, None)];
    CountTwo(d.rulings, (u: Ruling) => RunOn(u, 0, d.refunds));
  }
}
