/**
  * How much the decisions of MakerChecker send on a loan (backend/app/services/disbursement.py:312-438,
  * payment_approvals.py:157-177, 379-424): refunds of the loan's overpayment, which refundable_overpayment limits, and
  * refunds of suspense entries matched to the loan, which only the entry itself limits.
  */
module RefundBounds {
  import opened Wrappers
  import opened Money
  import opened Sequences
  import opened MakerChecker

  /** Sent of the loan's overpayment. */
  function RequestedOn(loanId: int): Refund -> int {
    (r: Refund) => if r.loanId == Some(loanId) && Live(r) && r.entry == None then r.amount else 0
  }

  /** Sent of suspense entries matched to the loan. */
  function FromEntriesOn(loanId: int): Refund -> int {
    (r: Refund) => if r.loanId == Some(loanId) && Live(r) && r.entry != None then r.amount else 0
  }

  function LiveOf(e: nat): Refund -> bool {
    (r: Refund) => Live(r) && r.entry == Some(e)
  }

  /** What a refund of the entry comes to, once one has claimed it. */
  function HeldOn(loanId: int): Entry -> int {
    (e: Entry) => if e.loanId == Some(loanId) && Claimed(e) then CeilShilling(Max(e.amount, 0)) else 0
  }

  function MatchedOn(loanId: int): Entry -> int {
    (e: Entry) => if e.loanId == Some(loanId) then CeilShilling(Max(e.amount, 0)) else 0
  }

  lemma {:induction false} SentParts(refunds: seq<Refund>, loanId: int)
    ensures Total(refunds, SentOn(loanId))
         == Total(refunds, RequestedOn(loanId)) + Total(refunds, FromEntriesOn(loanId))
  {
    if refunds != [] {
      SentParts(refunds[1..], loanId);
    }
  }

  lemma {:induction false} HeldWithinMatched(entries: seq<Entry>, loanId: int)
    ensures Total(entries, HeldOn(loanId)) <= Total(entries, MatchedOn(loanId))
  {
    if entries != [] {
      HeldWithinMatched(entries[1..], loanId);
    }
  }

  // ---------------------------------------------------------------- rows that belong together

  ghost predicate ActionLinked(a: Action, entries: seq<Entry>) {
    match a.kind
    case LoanRefund => a.loanId.Some? && a.amount > 0
    case SuspenseRefund(e) => e < |entries| && a.loanId == entries[e].loanId && a.amount == entries[e].amount
    case OtherAction => true
  }

  ghost predicate RefundLinked(r: Refund, entries: seq<Entry>) {
    && r.amount >= 0 && r.amount % SHILLING == 0
    && match r.entry
       case None => r.loanId.Some?
       case Some(e) => e < |entries| && r.loanId == entries[e].loanId
                       && r.amount == CeilShilling(Max(entries[e].amount, 0))
                       && entries[e].amount > 0
  }

  ghost predicate RulingLinked(u: Ruling, d: Desk) {
    && u.id < |d.actions|
    && match u.refund
       case None => u.outcome == Rejection || d.actions[u.id].kind == OtherAction
       case Some(r) =>
         && u.outcome != Rejection && d.actions[u.id].kind != OtherAction
         && r < |d.refunds| && d.refunds[r].entry == EntryOf(d.actions[u.id])
  }

  ghost predicate Linked(d: Desk) {
    && (forall id :: 0 <= id < |d.actions| ==> ActionLinked(d.actions[id], d.entries))
    && (forall r :: 0 <= r < |d.refunds| ==> RefundLinked(d.refunds[r], d.entries))
    && (forall k :: 0 <= k < |d.rulings| ==> RulingLinked(d.rulings[k], d))
  }

  predicate SameEntry(e: Entry, f: Entry) {
    e.loanId == f.loanId && e.amount == f.amount
  }

  predicate SameRefund(r: Refund, s: Refund) {
    r.loanId == s.loanId && r.amount == s.amount && r.entry == s.entry
  }

  predicate SameAction(a: Action, b: Action) {
    a.kind == b.kind && a.loanId == b.loanId && a.amount == b.amount
  }

  predicate SameRuling(u: Ruling, v: Ruling) {
    u.id == v.id && u.refund == v.refund && (u.outcome == Rejection <==> v.outcome == Rejection)
  }

  /** The rows there were are there with nothing but their statuses rewritten. */
  ghost predicate Extends(d: Desk, after: Desk) {
    && |d.entries| <= |after.entries|
    && (forall e :: 0 <= e < |d.entries| ==> SameEntry(after.entries[e], d.entries[e]))
    && |d.refunds| <= |after.refunds|
    && (forall r :: 0 <= r < |d.refunds| ==> SameRefund(after.refunds[r], d.refunds[r]))
    && |d.actions| <= |after.actions|
    && (forall a :: 0 <= a < |d.actions| ==> SameAction(after.actions[a], d.actions[a]))
    && |d.rulings| <= |after.rulings|
    && (forall k :: 0 <= k < |d.rulings| ==> SameRuling(after.rulings[k], d.rulings[k]))
  }

  lemma DecisionExtends(d: Desk, id: nat, checker: int, permitted: bool)
    ensures BeginApproval(d, id, checker, permitted).Ok? ==> Extends(d, BeginApproval(d, id, checker, permitted).value)
    ensures RejectAction(d, id, checker, permitted).Ok? ==> Extends(d, RejectAction(d, id, checker, permitted).value)
  {
  }

  lemma AnswerExtends(d: Desk, k: nat, answer: Answer)
    requires InProgress(d, k)
    ensures Extends(d, FinishApproval(d, k, answer).0)
  {
  }

  lemma RequestExtends(d: Desk, step: Step)
    requires !step.Reject? && !step.Approve? && !step.Reply?
    ensures Extends(d, Effect(d, step))
  {
  }

  lemma TakeExtends(d: Desk, step: Step)
    ensures Extends(d, Take(d, step))
  {
    match step
    case Reject(id, checker, permitted) => DecisionExtends(d, id, checker, permitted);
    case Approve(id, checker, permitted) => DecisionExtends(d, id, checker, permitted);
    case Reply(k, answer) =>
      if InProgress(d, k) {
        AnswerExtends(d, k, answer);
      }
    case _ => RequestExtends(d, step);
  }

  lemma OldRowsLinked(d: Desk, after: Desk)
    requires Linked(d) && Extends(d, after)
    ensures forall id :: 0 <= id < |d.actions| ==> ActionLinked(after.actions[id], after.entries)
    ensures forall r :: 0 <= r < |d.refunds| ==> RefundLinked(after.refunds[r], after.entries)
    ensures forall k :: 0 <= k < |d.rulings| ==> RulingLinked(after.rulings[k], after)
  {
    forall id | 0 <= id < |d.actions| ensures ActionLinked(after.actions[id], after.entries) {
      assert ActionLinked(d.actions[id], d.entries) && SameAction(after.actions[id], d.actions[id]);
    }
    forall r | 0 <= r < |d.refunds| ensures RefundLinked(after.refunds[r], after.entries) {
      assert RefundLinked(d.refunds[r], d.entries) && SameRefund(after.refunds[r], d.refunds[r]);
    }
    forall k | 0 <= k < |d.rulings| ensures RulingLinked(after.rulings[k], after) {
      assert RulingLinked(d.rulings[k], d) && SameRuling(after.rulings[k], d.rulings[k]);
      assert SameAction(after.actions[d.rulings[k].id], d.actions[d.rulings[k].id]);
    }
  }

  lemma NewActionLinked(d: Desk, step: Step, id: nat)
    requires Sound(step) && |d.actions| <= id < |Take(d, step).actions|
    ensures ActionLinked(Take(d, step).actions[id], Take(d, step).entries)
  {
  }

  lemma NewRefundLinked(d: Desk, step: Step, r: nat)
    requires Linked(d) && |d.refunds| <= r < |Take(d, step).refunds|
    ensures RefundLinked(Take(d, step).refunds[r], Take(d, step).entries)
  {
    assert step.Approve? && ActionLinked(d.actions[step.id], d.entries);
  }

  lemma NewRulingLinked(d: Desk, step: Step, k: nat)
    requires |d.rulings| <= k < |Take(d, step).rulings|
    ensures RulingLinked(Take(d, step).rulings[k], Take(d, step))
  {
    assert step.Approve? || step.Reject?;
  }

  lemma TakeKeepsLinked(d: Desk, step: Step)
    requires Linked(d) && Sound(step)
    ensures Linked(Take(d, step))
  {
    var after := Take(d, step);
    TakeExtends(d, step);
    OldRowsLinked(d, after);
    forall id | |d.actions| <= id < |after.actions| ensures ActionLinked(after.actions[id], after.entries) {
      NewActionLinked(d, step, id);
    }
    forall r | |d.refunds| <= r < |after.refunds| ensures RefundLinked(after.refunds[r], after.entries) {
      NewRefundLinked(d, step, r);
    }
    forall k | |d.rulings| <= k < |after.rulings| ensures RulingLinked(after.rulings[k], after) {
      NewRulingLinked(d, step, k);
    }
  }

  lemma {:induction false} RunKeepsLinked(d: Desk, steps: seq<Step>)
    requires Opened(d) && AllSound(steps)
    ensures Linked(Run(d, steps))
  {
    if steps != [] {
      RunKeepsLinked(d, steps[..|steps| - 1]);
      TakeKeepsLinked(Run(d, steps[..|steps| - 1]), steps[|steps| - 1]);
    }
  }

  // ---------------------------------------------------------------- how much is sent

  /** The answer to a request comes after somebody settled its refund as not paid. */
  predicate LateAnswer(d: Desk, step: Step) {
    && step.Reply? && InProgress(d, step.ruling)
    && var r := d.rulings[step.ruling].refund;
    r.Some? && r.value < |d.refunds| && !Live(d.refunds[r.value])
  }

  ghost predicate InTime(d: Desk, steps: seq<Step>) {
    steps == [] || (var before := steps[..|steps| - 1];
                    InTime(d, before) && !LateAnswer(Run(d, before), steps[|steps| - 1]))
  }

  ghost predicate LoansBounded(d: Desk) {
    forall id :: id in d.overpaid ==> Total(d.refunds, RequestedOn(id)) <= CeilShilling(Max(d.overpaid[id], 0))
  }

  ghost predicate EntriesBounded(d: Desk) {
    && (forall id :: Total(d.refunds, FromEntriesOn(id)) <= Total(d.entries, HeldOn(id)))
    && (forall e :: 0 <= e < |d.entries| ==>
                      Total(d.refunds, Count(LiveOf(e))) <= if Claimed(d.entries[e]) then 1 else 0)
  }

  ghost predicate Bounded(d: Desk) {
    LoansBounded(d) && EntriesBounded(d)
  }

  lemma {:induction false} WholeShillings(refunds: seq<Refund>, id: int)
    requires forall k :: 0 <= k < |refunds| ==> refunds[k].amount >= 0 && refunds[k].amount % SHILLING == 0
    ensures 0 <= Total(refunds, RequestedOn(id)) <= Total(refunds, SentOn(id))
            && Total(refunds, SentOn(id)) % SHILLING == 0
  {
    if refunds != [] {
      WholeShillings(refunds[1..], id);
      WholeSum(refunds[0].amount, Total(refunds[1..], SentOn(id)));
    }
  }

  lemma WholeSum(a: Cents, b: Cents)
    requires a % SHILLING == 0 && b % SHILLING == 0
    ensures (a + b) % SHILLING == 0
  {
  }

  /** A refund's status changes: what that does to each of the totals. */
  lemma RefundRewritten(refunds: seq<Refund>, r: nat, status: RefundStatus)
    requires r < |refunds| && Live(refunds[r])
    ensures var was, after := refunds[r], SetRefund(refunds, Some(r), status);
            var lost := if status == RefundFailed then 1 else 0;
            && (forall id ::
                  Total(after, RequestedOn(id)) == Total(refunds, RequestedOn(id)) - lost * RequestedOn(id)(was))
            && (forall id ::
                  Total(after, FromEntriesOn(id)) == Total(refunds, FromEntriesOn(id)) - lost * FromEntriesOn(id)(was))
            && (forall e: nat ::
                  Total(after, Count(LiveOf(e))) == Total(refunds, Count(LiveOf(e))) - lost * Count(LiveOf(e))(was))
  {
    var now, lost := refunds[r].(status := status), if status == RefundFailed then 1 else 0;
    forall id
      ensures Total(refunds[r := now], RequestedOn(id))
           == Total(refunds, RequestedOn(id)) - lost * RequestedOn(id)(refunds[r])
      ensures Total(refunds[r := now], FromEntriesOn(id))
           == Total(refunds, FromEntriesOn(id)) - lost * FromEntriesOn(id)(refunds[r])
    {
      TotalUpdate(refunds, r, now, RequestedOn(id));
      TotalUpdate(refunds, r, now, FromEntriesOn(id));
    }
    forall e: nat
      ensures Total(refunds[r := now], Count(LiveOf(e)))
           == Total(refunds, Count(LiveOf(e))) - lost * Count(LiveOf(e))(refunds[r])
    {
      TotalUpdate(refunds, r, now, Count(LiveOf(e)));
    }
  }

  /** An entry's status changes. */
  lemma EntryRewritten(entries: seq<Entry>, e: Option<nat>, status: EntryStatus, id: int)
    ensures Total(SetEntry(entries, e, status), HeldOn(id))
         == Total(entries, HeldOn(id))
            + if e.Some? && e.value < |entries|
            then HeldOn(id)(entries[e.value].(status := status)) - HeldOn(id)(entries[e.value])
            else 0
  {
    if e.Some? && e.value < |entries| {
      TotalUpdate(entries, e.value, entries[e.value].(status := status), HeldOn(id));
    }
  }

  lemma LivesOnKeepsBounded(d: Desk, after: Desk, r: nat, status: RefundStatus)
    requires Bounded(d) && r < |d.refunds| && Live(d.refunds[r]) && status != RefundFailed
    requires after.overpaid == d.overpaid && after.refunds == SetRefund(d.refunds, Some(r), status)
    requires after.entries == d.entries || after.entries == SetEntry(d.entries, d.refunds[r].entry, Refunded)
    ensures Bounded(after)
  {
    RefundRewritten(d.refunds, r, status);
    forall id ensures Total(after.refunds, FromEntriesOn(id)) <= Total(after.entries, HeldOn(id)) {
      EntryRewritten(d.entries, d.refunds[r].entry, Refunded, id);
    }
  }

  lemma FailsKeepsBounded(d: Desk, after: Desk, r: nat)
    requires Linked(d) && Bounded(d) && r < |d.refunds| && Live(d.refunds[r])
    requires after.overpaid == d.overpaid && after.refunds == SetRefund(d.refunds, Some(r), RefundFailed)
    requires after.entries == Reopen(d.entries, d.refunds[r].entry)
    ensures Bounded(after)
  {
    RefundRewritten(d.refunds, r, RefundFailed);
    assert RefundLinked(d.refunds[r], d.entries);
    forall id ensures Total(after.refunds, FromEntriesOn(id)) <= Total(after.entries, HeldOn(id)) {
      EntryRewritten(d.entries, d.refunds[r].entry, Open, id);
    }
  }

  lemma EntryMovesKeepsBounded(d: Desk, after: Desk, e: Option<nat>, status: EntryStatus)
    requires Bounded(d) && status in {Open, Parked, Closed}
    requires e.Some? && e.value < |d.entries| && !Claimed(d.entries[e.value])
    requires after.overpaid == d.overpaid && after.refunds == d.refunds
             && after.entries == SetEntry(d.entries, e, status)
    ensures Bounded(after)
  {
    forall id ensures Total(after.entries, HeldOn(id)) == Total(d.entries, HeldOn(id)) {
      EntryRewritten(d.entries, e, status, id);
    }
  }

  lemma SendsOverpaymentKeepsBounded(d: Desk, id: nat, checker: int, permitted: bool)
    requires Linked(d) && Bounded(d)
    requires id < |d.actions| && d.actions[id].kind == LoanRefund && BeginApproval(d, id, checker, permitted).Ok?
    ensures Bounded(BeginApproval(d, id, checker, permitted).value)
  {
    var a, after := d.actions[id], BeginApproval(d, id, checker, permitted).value;
    var sent := Refund(a.loanId, CeilShilling(a.amount), Initiated, None);
    forall loanId
      ensures Total(after.refunds, RequestedOn(loanId))
           == Total(d.refunds, RequestedOn(loanId)) + RequestedOn(loanId)(sent)
      ensures Total(after.refunds, FromEntriesOn(loanId)) == Total(d.refunds, FromEntriesOn(loanId))
    {
      TotalAppend(d.refunds, [sent], RequestedOn(loanId));
      TotalAppend(d.refunds, [sent], FromEntriesOn(loanId));
    }
    forall e: nat ensures Total(after.refunds, Count(LiveOf(e))) == Total(d.refunds, Count(LiveOf(e))) {
      TotalAppend(d.refunds, [sent], Count(LiveOf(e)));
    }
    assert Total(after.refunds, RequestedOn(a.loanId.value)) <= CeilShilling(Max(d.overpaid[a.loanId.value], 0)) by {
      assert forall k :: 0 <= k < |d.refunds| ==> RefundLinked(d.refunds[k], d.entries);
      WholeShillings(d.refunds, a.loanId.value);
      CeilAdds(Total(d.refunds, SentOn(a.loanId.value)), a.amount, d.overpaid[a.loanId.value]);
    }
  }

  lemma CeilAdds(sent: Cents, amount: Cents, overpaid: Cents)
    requires sent % SHILLING == 0 && sent >= 0 && 0 < amount <= Max(overpaid - sent, 0)
    ensures sent + CeilShilling(amount) <= CeilShilling(Max(overpaid, 0))
  {
  }

  lemma SendsEntryKeepsBounded(d: Desk, id: nat, checker: int, permitted: bool)
    requires Linked(d) && Bounded(d)
    requires id < |d.actions| && d.actions[id].kind.SuspenseRefund? && BeginApproval(d, id, checker, permitted).Ok?
    ensures Bounded(BeginApproval(d, id, checker, permitted).value)
  {
    var a, after := d.actions[id], BeginApproval(d, id, checker, permitted).value;
    assert ActionLinked(a, d.entries);
    var e := a.kind.entry;
    var sent := Refund(a.loanId, CeilShilling(a.amount), Initiated, Some(e));
    forall loanId
      ensures Total(after.refunds, RequestedOn(loanId)) == Total(d.refunds, RequestedOn(loanId))
      ensures Total(after.refunds, FromEntriesOn(loanId)) <= Total(after.entries, HeldOn(loanId))
    {
      TotalAppend(d.refunds, [sent], RequestedOn(loanId));
      TotalAppend(d.refunds, [sent], FromEntriesOn(loanId));
      EntryRewritten(d.entries, Some(e), BeingRefunded, loanId);
    }
    forall other: nat
      ensures Total(after.refunds, Count(LiveOf(other)))
           == Total(d.refunds, Count(LiveOf(other))) + if other == e then 1 else 0
    {
      TotalAppend(d.refunds, [sent], Count(LiveOf(other)));
    }
  }

  lemma ReceiptKeepsBounded(d: Desk, after: Desk, entry: Entry)
    requires Bounded(d) && Linked(d) && !Claimed(entry)
    requires after.overpaid == d.overpaid && after.refunds == d.refunds && after.entries == d.entries + [entry]
    ensures Bounded(after)
  {
    forall id ensures Total(after.entries, HeldOn(id)) == Total(d.entries, HeldOn(id)) {
      TotalAppend(d.entries, [entry], HeldOn(id));
    }
    var e := |d.entries|;
    CountMembers(d.refunds, LiveOf(e));
    assert forall r :: 0 <= r < |d.refunds| ==> RefundLinked(d.refunds[r], d.entries);
    assert Total(d.refunds, Count(LiveOf(e))) == 0;
  }

  lemma ReplyKeepsBounded(d: Desk, k: nat, answer: Answer)
    requires Linked(d) && Bounded(d) && InProgress(d, k) && !LateAnswer(d, Reply(k, answer))
    ensures Bounded(Take(d, Reply(k, answer)))
  {
    var after, u := Take(d, Reply(k, answer)), d.rulings[k];
    assert RulingLinked(u, d);
    if u.refund.Some? {
      if answer == Refused {
        FailsKeepsBounded(d, after, u.refund.value);
      } else {
        LivesOnKeepsBounded(d, after, u.refund.value, Pending);
      }
    }
  }

  lemma ApproveKeepsBounded(d: Desk, id: nat, checker: int, permitted: bool)
    requires Linked(d) && Bounded(d)
    ensures Bounded(Take(d, Approve(id, checker, permitted)))
  {
    if BeginApproval(d, id, checker, permitted).Ok? {
      if d.actions[id].kind == LoanRefund {
        SendsOverpaymentKeepsBounded(d, id, checker, permitted);
      } else if d.actions[id].kind.SuspenseRefund? {
        SendsEntryKeepsBounded(d, id, checker, permitted);
      }
    }
  }

  lemma SettleKeepsBounded(d: Desk, r: nat, paid: bool)
    requires Linked(d) && Bounded(d)
    ensures Bounded(Take(d, RefundResult(r, paid)))
  {
    var after := Take(d, RefundResult(r, paid));
    if r < |d.refunds| && d.refunds[r].status in {Initiated, Pending} {
      if paid {
        LivesOnKeepsBounded(d, after, r, Completed);
      } else {
        FailsKeepsBounded(d, after, r);
      }
    }
  }

  lemma EntryStepKeepsBounded(d: Desk, step: Step)
    requires Bounded(d) && Sound(step)
    requires step.RequestOfEntry? || step.Reject? || step.Moved?
    ensures Bounded(Take(d, step))
  {
    var after := Take(d, step);
    match step
    case RequestOfEntry(e, maker) =>
      if RequestSuspenseRefund(d, e, maker).Ok? {
        EntryMovesKeepsBounded(d, after, Some(e), Parked);
      }
    case Reject(id, checker, permitted) =>
      if after.entries != d.entries {
        EntryMovesKeepsBounded(d, after, EntryOf(d.actions[id]), Open);
      }
    case Moved(e, status) =>
      if after.entries != d.entries {
        EntryMovesKeepsBounded(d, after, Some(e), status);
      }
  }

  lemma CeilMonotone(a: Cents, b: Cents)
    requires a <= b
    ensures CeilShilling(a) <= CeilShilling(b)
  {
  }

  lemma PaymentKeepsBounded(d: Desk, loan: int, received: Cents)
    requires Bounded(d) && received >= 0
    ensures Bounded(Take(d, Repayment(loan, received)))
  {
    var after := Take(d, Repayment(loan, received));
    forall id | id in after.overpaid
      ensures Total(after.refunds, RequestedOn(id)) <= CeilShilling(Max(after.overpaid[id], 0))
    {
      CeilMonotone(Max(d.overpaid[id], 0), Max(after.overpaid[id], 0));
    }
  }

  lemma OutsideStepKeepsBounded(d: Desk, step: Step)
    requires Linked(d) && Bounded(d) && Sound(step)
    requires step.Request? || step.RequestOther? || step.Received? || step.Repayment?
    ensures Bounded(Take(d, step))
  {
    match step
    case Received(entry) => ReceiptKeepsBounded(d, Take(d, step), entry);
    case Repayment(loan, received) => PaymentKeepsBounded(d, loan, received);
    case _ =>
  }

  lemma TakeKeepsBounded(d: Desk, step: Step)
    requires Linked(d) && Bounded(d) && Sound(step) && !LateAnswer(d, step)
    ensures Bounded(Take(d, step))
  {
    match step
    case Approve(id, checker, permitted) => ApproveKeepsBounded(d, id, checker, permitted);
    case Reply(k, answer) =>
      if InProgress(d, k) {
        ReplyKeepsBounded(d, k, answer);
      }
    case RefundResult(r, paid) => SettleKeepsBounded(d, r, paid);
    case RequestOfEntry(e, maker) => EntryStepKeepsBounded(d, step);
    case Reject(id, checker, permitted) => EntryStepKeepsBounded(d, step);
    case Moved(e, status) => EntryStepKeepsBounded(d, step);
    case _ => OutsideStepKeepsBounded(d, step);
  }

  lemma {:induction false} NothingHeld(entries: seq<Entry>, id: int)
    requires forall e :: e in entries ==> e.status == Open
    ensures Total(entries, HeldOn(id)) == 0
  {
    if entries != [] {
      NothingHeld(entries[1..], id);
    }
  }

  lemma {:induction false} RunKeepsBounded(d: Desk, steps: seq<Step>)
    requires Opened(d) && AllSound(steps) && InTime(d, steps)
    ensures Linked(Run(d, steps)) && Bounded(Run(d, steps))
  {
    if steps == [] {
      forall id ensures Total(d.entries, HeldOn(id)) == 0 {
        NothingHeld(d.entries, id);
      }
    } else {
      var before := steps[..|steps| - 1];
      RunKeepsBounded(d, before);
      RunKeepsLinked(d, steps);
      TakeKeepsBounded(Run(d, before), steps[|steps| - 1]);
    }
  }

  /**
    * Whatever is requested, decided, answered and settled, as long as no answer comes late: refunds of a loan's
    * overpayment never total more than it, rounded up to the shilling; every suspense entry has at most one refund that
    * did not fail; and all refunds sent on the loan are within the first and its matched entries.
    */
  lemma RefundsNeverExceed(d: Desk, steps: seq<Step>)
    requires Opened(d) && AllSound(steps) && InTime(d, steps)
    ensures var after := Run(d, steps);
            && (forall id :: id in after.overpaid ==>
                               var cap := CeilShilling(Max(after.overpaid[id], 0));
                               && Total(after.refunds, RequestedOn(id)) <= cap
                               && Sent(after, id) <= cap + Total(after.entries, MatchedOn(id)))
            && (forall j, k :: 0 <= j < k < |after.refunds| && Live(after.refunds[j]) && Live(after.refunds[k]) ==>
                                 after.refunds[j].entry == after.refunds[k].entry ==> after.refunds[j].entry == None)
  {
    var after := Run(d, steps);
    RunKeepsBounded(d, steps);
    forall id | id in after.overpaid
      ensures Sent(after, id) <= CeilShilling(Max(after.overpaid[id], 0)) + Total(after.entries, MatchedOn(id))
    {
      SentParts(after.refunds, id);
      HeldWithinMatched(after.entries, id);
    }
    forall j, k | 0 <= j < k < |after.refunds| && Live(after.refunds[j]) && Live(after.refunds[k])
                  && after.refunds[j].entry == after.refunds[k].entry
      ensures after.refunds[j].entry == None
    {
      if after.refunds[j].entry.Some? {
        var e := after.refunds[j].entry.value;
        assert RefundLinked(after.refunds[j], after.entries);
        CountMembers(after.refunds, LiveOf(e));
        assert false;
      }
    }
  }

  /**
    * Requests never reserve more than is left: with what is sent, those awaiting approval stay within the overpayment.
    */
  lemma RequestsStayWithin(d: Desk, loanId: int, amount: Option<Cents>, maker: int)
    requires RequestRefund(d, loanId, amount, maker).Ok?
    ensures var after := RequestRefund(d, loanId, amount, maker).value;
            Total(after.actions, PendingOn(loanId)) + Sent(after, loanId) <= d.overpaid[loanId]
  {
    var after := RequestRefund(d, loanId, amount, maker).value;
    TotalAppend(d.actions, [after.actions[|d.actions|]], PendingOn(loanId));
  }

  // ---------------------------------------------------------------- requests over a run

  function RowOf(loanId: int): Refund -> bool {
    (r: Refund) => r.loanId == Some(loanId) && r.entry == None
  }

  /** What approvals of the loan's requests sent, or may have, without being accepted. */
  function UnacceptedOn(loanId: int, actions: seq<Action>): Ruling -> int {
    (u: Ruling) =>
      if u.refund != None && u.outcome != Answered(Accepted) && u.id < |actions|
         && actions[u.id].kind == LoanRefund && actions[u.id].loanId == Some(loanId)
      then actions[u.id].amount else 0
  }

  ghost predicate Reserved(d: Desk, loanId: int)
    requires loanId in d.overpaid
  {
    Total(d.actions, PendingOn(loanId)) + Total(d.refunds, RequestedOn(loanId))
    <= Max(d.overpaid[loanId], 0) + SHILLING * Total(d.refunds, Count(RowOf(loanId)))
    + Total(d.rulings, UnacceptedOn(loanId, d.actions))
  }

  lemma UnacceptedKept(d: Desk, after: Desk, loanId: int)
    requires Linked(d) && Extends(d, after)
    ensures Total(d.rulings, UnacceptedOn(loanId, after.actions))
         == Total(d.rulings, UnacceptedOn(loanId, d.actions)) >= 0
  {
    forall u | u in d.rulings
      ensures UnacceptedOn(loanId, after.actions)(u) == UnacceptedOn(loanId, d.actions)(u) >= 0
    {
      assert RulingLinked(u, d) && ActionLinked(d.actions[u.id], d.entries);
      assert SameAction(after.actions[u.id], d.actions[u.id]);
    }
    TotalEqual(d.rulings, UnacceptedOn(loanId, after.actions), UnacceptedOn(loanId, d.actions));
    TotalNotNegative(d.rulings, UnacceptedOn(loanId, d.actions));
  }

  lemma RefundRequestKeepsReserved(d: Desk, other: int, amount: Option<Cents>, maker: int, loanId: int)
    requires Linked(d) && loanId in d.overpaid && Reserved(d, loanId) && RequestRefund(d, other, amount, maker).Ok?
    ensures Reserved(RequestRefund(d, other, amount, maker).value, loanId)
  {
    var after := RequestRefund(d, other, amount, maker).value;
    var a := after.actions[|d.actions|];
    UnacceptedKept(d, after, loanId);
    CountMembers(d.refunds, RowOf(loanId));
    TotalAppend(d.actions, [a], PendingOn(loanId));
    TotalOne(a, PendingOn(loanId));
    if other == loanId {
      RequestsStayWithin(d, loanId, amount, maker);
      assert forall k :: 0 <= k < |d.refunds| ==> RefundLinked(d.refunds[k], d.entries);
      WholeShillings(d.refunds, loanId);
    }
  }

  lemma RequestKeepsReserved(d: Desk, step: Step, loanId: int)
    requires Linked(d) && loanId in d.overpaid && Reserved(d, loanId) && Sound(step)
    requires step.Request? || step.RequestOfEntry? || step.RequestOther?
    ensures Reserved(Take(d, step), loanId)
  {
    var after := Take(d, step);
    if step.Request? {
      if RequestRefund(d, step.loanId, step.amount, step.maker).Ok? {
        RefundRequestKeepsReserved(d, step.loanId, step.amount, step.maker, loanId);
      }
    } else {
      TakeExtends(d, step);
      UnacceptedKept(d, after, loanId);
      if |after.actions| > |d.actions| {
        TotalAppend(d.actions, [after.actions[|d.actions|]], PendingOn(loanId));
        TotalOne(after.actions[|d.actions|], PendingOn(loanId));
      }
    }
  }

  lemma RejectKeepsReserved(d: Desk, id: nat, checker: int, permitted: bool, loanId: int)
    requires Linked(d) && loanId in d.overpaid && Reserved(d, loanId)
    ensures Reserved(Take(d, Reject(id, checker, permitted)), loanId)
  {
    var after := Take(d, Reject(id, checker, permitted));
    if RejectAction(d, id, checker, permitted).Ok? {
      var u := Ruling(id, checker, d.now, d.now, Rejection, None);
      assert ActionLinked(d.actions[id], d.entries);
      TakeExtends(d, Reject(id, checker, permitted));
      UnacceptedKept(d, after, loanId);
      TotalAppend(d.rulings, [u], UnacceptedOn(loanId, after.actions));
      TotalOne(u, UnacceptedOn(loanId, after.actions));
      TotalUpdate(d.actions, id, after.actions[id], PendingOn(loanId));
    }
  }

  lemma IntentKeepsReserved(d: Desk, after: Desk, u: Ruling, r: Refund, loanId: int)
    requires loanId in d.overpaid && Reserved(d, loanId)
    requires after.overpaid == d.overpaid && after.actions == d.actions
    requires after.refunds == d.refunds + [r] && after.rulings == d.rulings + [u]
    requires RequestedOn(loanId)(r) <= SHILLING * Count(RowOf(loanId))(r) + UnacceptedOn(loanId, d.actions)(u)
    ensures Reserved(after, loanId)
  {
    TotalAppend(d.rulings, [u], UnacceptedOn(loanId, d.actions));
    TotalOne(u, UnacceptedOn(loanId, d.actions));
    TotalAppend(d.refunds, [r], RequestedOn(loanId));
    TotalOne(r, RequestedOn(loanId));
    TotalAppend(d.refunds, [r], Count(RowOf(loanId)));
    TotalOne(r, Count(RowOf(loanId)));
  }

  lemma ApproveKeepsReserved(d: Desk, id: nat, checker: int, permitted: bool, loanId: int)
    requires Linked(d) && loanId in d.overpaid && Reserved(d, loanId)
    ensures Reserved(Take(d, Approve(id, checker, permitted)), loanId)
  {
    var after := Take(d, Approve(id, checker, permitted));
    if BeginApproval(d, id, checker, permitted).Ok? {
      var a := d.actions[id];
      assert ActionLinked(a, d.entries);
      if a.kind == OtherAction {
        var u := Ruling(id, checker, d.now, d.now, Ongoing, None);
        TotalAppend(d.rulings, [u], UnacceptedOn(loanId, d.actions));
        TotalOne(u, UnacceptedOn(loanId, d.actions));
      } else {
        var u := Ruling(id, checker, d.now, d.now, Ongoing, Some(|d.refunds|));
        IntentKeepsReserved(d, after, u, Refund(a.loanId, CeilShilling(a.amount), Initiated, EntryOf(a)), loanId);
      }
    }
  }

  lemma StatusRewritten(refunds: seq<Refund>, r: nat, status: RefundStatus, loanId: int)
    requires r < |refunds| && Live(refunds[r]) && refunds[r].amount >= 0
    ensures Total(SetRefund(refunds, Some(r), status), RequestedOn(loanId)) <= Total(refunds, RequestedOn(loanId))
    ensures Total(SetRefund(refunds, Some(r), status), Count(RowOf(loanId))) == Total(refunds, Count(RowOf(loanId)))
  {
    TotalUpdate(refunds, r, refunds[r].(status := status), RequestedOn(loanId));
    TotalUpdate(refunds, r, refunds[r].(status := status), Count(RowOf(loanId)));
  }

  lemma SettleKeepsReserved(d: Desk, r: nat, paid: bool, loanId: int)
    requires Linked(d) && loanId in d.overpaid && Reserved(d, loanId)
    ensures Reserved(Take(d, RefundResult(r, paid)), loanId)
  {
    if r < |d.refunds| && d.refunds[r].status in {Initiated, Pending} {
      assert RefundLinked(d.refunds[r], d.entries);
      StatusRewritten(d.refunds, r, if paid then Completed else RefundFailed, loanId);
    }
  }

  /** With decisions in turn, an approval that is out finds its action still awaiting. */
  lemma StillAwaiting(d: Desk, k: nat)
    requires Inv(d) && InProgress(d, k) && InTurn(d.rulings, d.rulings[k].id)
    ensures d.actions[d.rulings[k].id].status == AwaitingApproval
  {
    var id := d.rulings[k].id;
    assert StatusRuled(d.actions[id], d.rulings, id);
    assert !SomeRuling(d.rulings, id, EffectiveOn);
  }

  /** An acceptance counts one ruling less, and takes its action out of what awaits approval. */
  lemma ReplyTotals(d: Desk, k: nat, answer: Answer, loanId: int)
    requires Linked(d) && InProgress(d, k)
    ensures var after, u := Take(d, Reply(k, answer)), d.rulings[k];
            var lost := if answer == Accepted then 1 else 0;
            && Total(after.rulings, UnacceptedOn(loanId, after.actions))
               == Total(d.rulings, UnacceptedOn(loanId, d.actions)) - lost * UnacceptedOn(loanId, d.actions)(u)
            && Total(after.actions, PendingOn(loanId))
               == Total(d.actions, PendingOn(loanId)) - lost * PendingOn(loanId)(d.actions[u.id])
  {
    var after, u := Take(d, Reply(k, answer)), d.rulings[k];
    TakeExtends(d, Reply(k, answer));
    UnacceptedKept(d, after, loanId);
    TotalUpdate(d.rulings, k, after.rulings[k], UnacceptedOn(loanId, after.actions));
    if answer == Accepted {
      TotalUpdate(d.actions, u.id, after.actions[u.id], PendingOn(loanId));
    }
  }

  lemma ReplyKeepsReserved(d: Desk, k: nat, answer: Answer, loanId: int)
    requires Inv(d) && Linked(d) && loanId in d.overpaid && Reserved(d, loanId)
    requires InProgress(d, k) && InTurn(d.rulings, d.rulings[k].id) && !LateAnswer(d, Reply(k, answer))
    ensures Reserved(Take(d, Reply(k, answer)), loanId)
  {
    var after, u := Take(d, Reply(k, answer)), d.rulings[k];
    var lost := if answer == Accepted then 1 else 0;
    assert RulingLinked(u, d);
    StillAwaiting(d, k);
    ReplyTotals(d, k, answer, loanId);
    if u.refund.Some? {
      assert RefundLinked(d.refunds[u.refund.value], d.entries);
      StatusRewritten(d.refunds, u.refund.value, if answer == Refused then RefundFailed else Pending, loanId);
    }
  }

  lemma OutsideStepKeepsReserved(d: Desk, step: Step, loanId: int)
    requires loanId in d.overpaid && Reserved(d, loanId) && Sound(step)
    requires step.Received? || step.Moved? || step.Repayment?
    ensures loanId in Take(d, step).overpaid && Reserved(Take(d, step), loanId)
  {
  }

  lemma TakeKeepsReserved(d: Desk, step: Step, loanId: int)
    requires Inv(d) && Linked(d) && Sound(step) && !LateAnswer(d, step) && loanId in d.overpaid && Reserved(d, loanId)
    requires step.Reply? && InProgress(d, step.ruling) ==> InTurn(d.rulings, d.rulings[step.ruling].id)
    requires loanId in Take(d, step).overpaid
    ensures Reserved(Take(d, step), loanId)
  {
    match step
    case Reject(id, checker, permitted) => RejectKeepsReserved(d, id, checker, permitted, loanId);
    case Approve(id, checker, permitted) => ApproveKeepsReserved(d, id, checker, permitted, loanId);
    case Reply(k, answer) =>
      if InProgress(d, k) {
        ReplyKeepsReserved(d, k, answer, loanId);
      }
    case RefundResult(r, paid) => SettleKeepsReserved(d, r, paid, loanId);
    case Request(_, _, _) => RequestKeepsReserved(d, step, loanId);
    case RequestOfEntry(_, _) => RequestKeepsReserved(d, step, loanId);
    case RequestOther(_) => RequestKeepsReserved(d, step, loanId);
    case _ => OutsideStepKeepsReserved(d, step, loanId);
  }

  lemma {:induction false} OverpaidKept(d: Desk, steps: seq<Step>, loanId: int)
    requires loanId in d.overpaid
    ensures loanId in Run(d, steps).overpaid
  {
    if steps != [] {
      OverpaidKept(d, steps[..|steps| - 1], loanId);
    }
  }

  /**
    * With no two decisions on an action at once and no late answer: what awaits approval and what requests have sent
    * stay within the overpayment, one shilling for each refund sent, and what was sent without being accepted (so far).
    */
  lemma {:induction false} RequestsStayReserved(d: Desk, steps: seq<Step>, loanId: int)
    requires Opened(d) && AllSound(steps) && InTime(d, steps) && loanId in d.overpaid
    requires forall id :: OneAtATime(d, steps, id)
    ensures loanId in Run(d, steps).overpaid && Reserved(Run(d, steps), loanId)
  {
    if steps != [] {
      var before, step := steps[..|steps| - 1], steps[|steps| - 1];
      forall id ensures OneAtATime(d, before, id) {
        assert OneAtATime(d, steps, id);
      }
      RequestsStayReserved(d, before, loanId);
      RunKeepsInv(d, before);
      RunKeepsBounded(d, before);
      if step.Reply? && InProgress(Run(d, before), step.ruling) {
        RunKeepsTurn(d, before, Run(d, before).rulings[step.ruling].id);
      }
      OverpaidKept(d, steps, loanId);
      TakeKeepsReserved(Run(d, before), step, loanId);
    }
  }

  /** Once every approval was accepted, that is the overpayment and one shilling for each refund sent. */
  lemma RequestsStayReservedExactly(d: Desk, steps: seq<Step>, loanId: int)
    requires Opened(d) && AllSound(steps) && InTime(d, steps) && loanId in d.overpaid
    requires forall id :: OneAtATime(d, steps, id)
    requires forall k :: 0 <= k < |Run(d, steps).rulings| ==> Effective(Run(d, steps).rulings[k])
    ensures var after := Run(d, steps);
            loanId in after.overpaid
            && Total(after.actions, PendingOn(loanId)) + Total(after.refunds, RequestedOn(loanId))
               <= Max(after.overpaid[loanId], 0) + SHILLING * Total(after.refunds, Count(RowOf(loanId)))
  {
    var after := Run(d, steps);
    RequestsStayReserved(d, steps, loanId);
    RunKeepsBounded(d, steps);
    forall k | 0 <= k < |after.rulings| ensures UnacceptedOn(loanId, after.actions)(after.rulings[k]) == 0 {
      assert RulingLinked(after.rulings[k], after);
    }
    TotalZero(after.rulings, UnacceptedOn(loanId, after.actions));
  }

  // ---------------------------------------------------------------- suspense refunds run as decided

  ghost predicate HeldOnce(rulings: seq<Ruling>, refunds: seq<Refund>, id: nat) {
    forall j, k :: 0 <= j < k < |rulings| && rulings[j].id == id == rulings[k].id ==>
                     !MayHaveRun(rulings[j], refunds) || !MayHaveRun(rulings[k], refunds)
  }

  /** An entry that can be taken up is held by nobody. */
  lemma NoneHolding(d: Desk, id: nat, k: nat)
    requires Inv(d) && Linked(d) && EntriesBounded(d) && k < |d.rulings| && id == d.rulings[k].id < |d.actions|
    requires d.actions[id].kind.SuspenseRefund? && d.actions[id].status == AwaitingApproval
    requires d.actions[id].kind.entry < |d.entries| && !Claimed(d.entries[d.actions[id].kind.entry])
    ensures !MayHaveRun(d.rulings[k], d.refunds)
  {
    var e, u := d.actions[id].kind.entry, d.rulings[k];
    assert StatusRuled(d.actions[id], d.rulings, id) && RulingLinked(u, d);
    assert !EffectiveOn(u, id);
    CountMembers(d.refunds, LiveOf(e));
    assert Total(d.refunds, Count(LiveOf(e))) <= 0;
  }

  lemma TakenUp(d: Desk, id: nat, checker: int, permitted: bool)
    requires BeginApproval(d, id, checker, permitted).Ok?
    ensures var after := BeginApproval(d, id, checker, permitted).value;
            d.refunds <= after.refunds && |after.rulings| == |d.rulings| + 1 && d.rulings <= after.rulings
            && after.rulings[|d.rulings|].id == id
    ensures id < |d.actions| && d.actions[id].status == AwaitingApproval
    ensures d.actions[id].kind.SuspenseRefund? ==>
              d.actions[id].kind.entry < |d.entries| && d.entries[d.actions[id].kind.entry].status == Parked
  {
  }

  lemma AddedHeldOnce(d: Desk, after: Desk, id: nat)
    requires Linked(d) && HeldOnce(d.rulings, d.refunds, id)
    requires d.refunds <= after.refunds && |after.rulings| == |d.rulings| + 1 && d.rulings <= after.rulings
    requires after.rulings[|d.rulings|].id == id ==>
               forall k :: 0 <= k < |d.rulings| && d.rulings[k].id == id ==> !MayHaveRun(d.rulings[k], d.refunds)
    ensures HeldOnce(after.rulings, after.refunds, id)
  {
    forall k | 0 <= k < |d.rulings|
      ensures MayHaveRun(after.rulings[k], after.refunds) <==> MayHaveRun(d.rulings[k], d.refunds)
    {
      assert RulingLinked(d.rulings[k], d) && after.rulings[k] == d.rulings[k];
    }
  }

  lemma ApproveKeepsHeldOnce(d: Desk, other: nat, checker: int, permitted: bool, id: nat)
    requires Inv(d) && Linked(d) && EntriesBounded(d) && HeldOnce(d.rulings, d.refunds, id)
    requires id < |d.actions| && d.actions[id].kind.SuspenseRefund? && BeginApproval(d, other, checker, permitted).Ok?
    ensures var after := BeginApproval(d, other, checker, permitted).value;
            HeldOnce(after.rulings, after.refunds, id)
  {
    TakenUp(d, other, checker, permitted);
    if other == id {
      forall k | 0 <= k < |d.rulings| && d.rulings[k].id == id ensures !MayHaveRun(d.rulings[k], d.refunds) {
        NoneHolding(d, id, k);
      }
    }
    AddedHeldOnce(d, BeginApproval(d, other, checker, permitted).value, id);
  }

  lemma ReplyKeepsHeldOnce(d: Desk, k: nat, answer: Answer, id: nat)
    requires Linked(d) && HeldOnce(d.rulings, d.refunds, id) && InProgress(d, k) && !LateAnswer(d, Reply(k, answer))
    requires id < |d.actions| && d.actions[id].kind.SuspenseRefund?
    ensures HeldOnce(Take(d, Reply(k, answer)).rulings, Take(d, Reply(k, answer)).refunds, id)
  {
    var after := Take(d, Reply(k, answer));
    assert RulingLinked(d.rulings[k], d);
    forall j | 0 <= j < |d.rulings| && d.rulings[j].id == id
      ensures MayHaveRun(after.rulings[j], after.refunds) ==> MayHaveRun(d.rulings[j], d.refunds)
    {
      assert RulingLinked(d.rulings[j], d);
    }
  }

  lemma OthersKeepHeldOnce(d: Desk, step: Step, id: nat)
    requires Linked(d) && HeldOnce(d.rulings, d.refunds, id) && !step.Approve? && !step.Reply?
    ensures HeldOnce(Take(d, step).rulings, Take(d, step).refunds, id)
  {
    var after := Take(d, step);
    assert d.rulings <= after.rulings && |after.refunds| == |d.refunds|;
    forall j | 0 <= j < |d.rulings|
      ensures MayHaveRun(after.rulings[j], after.refunds) ==> MayHaveRun(d.rulings[j], d.refunds)
    {
      assert RulingLinked(d.rulings[j], d);
    }
    assert forall j :: |d.rulings| <= j < |after.rulings| ==> !MayHaveRun(after.rulings[j], after.refunds);
  }

  lemma TakeKeepsHeldOnce(d: Desk, step: Step, id: nat)
    requires Inv(d) && Linked(d) && EntriesBounded(d) && HeldOnce(d.rulings, d.refunds, id) && !LateAnswer(d, step)
    requires id < |d.actions| && d.actions[id].kind.SuspenseRefund?
    ensures HeldOnce(Take(d, step).rulings, Take(d, step).refunds, id)
  {
    match step
    case Approve(other, checker, permitted) =>
      if BeginApproval(d, other, checker, permitted).Ok? {
        ApproveKeepsHeldOnce(d, other, checker, permitted, id);
      }
    case Reply(k, answer) =>
      if InProgress(d, k) {
        ReplyKeepsHeldOnce(d, k, answer, id);
      }
    case _ => OthersKeepHeldOnce(d, step, id);
  }

  /** The action has just been requested. */
  lemma NewHeldOnce(d: Desk, step: Step, id: nat)
    requires Inv(d) && |d.actions| <= id < |Take(d, step).actions|
    ensures HeldOnce(Take(d, step).rulings, Take(d, step).refunds, id)
  {
    assert Take(d, step).rulings == d.rulings;
  }

  lemma {:induction false} RunKeepsHeldOnce(d: Desk, steps: seq<Step>, id: nat)
    requires Opened(d) && AllSound(steps) && InTime(d, steps)
    requires id < |Run(d, steps).actions| && Run(d, steps).actions[id].kind.SuspenseRefund?
    ensures HeldOnce(Run(d, steps).rulings, Run(d, steps).refunds, id)
  {
    if steps != [] {
      var before, step := steps[..|steps| - 1], steps[|steps| - 1];
      var was := Run(d, before);
      RunKeepsInv(d, before);
      if id < |was.actions| {
        assert SameAction(Take(was, step).actions[id], was.actions[id]) by {
          TakeExtends(was, step);
        }
        RunKeepsBounded(d, before);
        RunKeepsHeldOnce(d, before, id);
        TakeKeepsHeldOnce(was, step, id);
      } else {
        NewHeldOnce(was, step, id);
      }
    }
  }

  /**
    * The entry stands in for the lock an approval gives up: as long as no answer comes late, a suspense refund's effect
    * runs at most once, whoever else takes it up meanwhile; and it runs exactly as decided if and only if no approval
    * of it is left open without being accepted.
    */
  lemma SuspenseRefundRunsOnce(d: Desk, steps: seq<Step>, id: nat)
    requires Opened(d) && AllSound(steps) && InTime(d, steps)
    requires id < |Run(d, steps).actions| && Run(d, steps).actions[id].kind.SuspenseRefund?
    ensures Ran(Run(d, steps), id) <= 1
    ensures RanAsDecided(Run(d, steps), id) <==> NoneLeftOpen(Run(d, steps), id)
  {
    var after := Run(d, steps);
    var p := (u: Ruling) => RunOn(u, id, after.refunds);
    RunKeepsHeldOnce(d, steps, id);
    CountMembers(after.rulings, p);
    assert forall j, k :: 0 <= j < k < |after.rulings| ==> !p(after.rulings[j]) || !p(after.rulings[k]);
    RunKeepsInv(d, steps);
    RanIff(after, id);
    forall j, k | 0 <= j < k < |after.rulings|
      ensures !AcceptedOn(after.rulings[j], id) || !AcceptedOn(after.rulings[k], id)
    {
      assert AcceptedOn(after.rulings[j], id) ==> p(after.rulings[j]);
      assert AcceptedOn(after.rulings[k], id) ==> p(after.rulings[k]);
    }
  }

  // ---------------------------------------------------------------- exactly when the total stays within it

  function LoanOne(overpaid: int, entries: seq<Entry>): Desk {
    Desk(map[1 := overpaid], entries, [], [], [], 0)
  }

  ghost predicate NothingReceived(steps: seq<Step>) {
    forall k :: 0 <= k < |steps| ==> !steps[k].Repayment? && !steps[k].Received?
  }

  /** Whatever is done about loan 1 with these suspense entries, no more than cap is ever sent on it. */
  ghost predicate StaysWithin(overpaid: int, entries: seq<Entry>, late: bool, cap: Cents) {
    forall steps: seq<Step> :: AllSound(steps) && NothingReceived(steps)
                               && (late || InTime(LoanOne(overpaid, entries), steps)) ==>
                                 Sent(Run(LoanOne(overpaid, entries), steps), 1) <= cap
  }

  predicate Matched(e: Entry) {
    e.loanId == Some(1) && e.amount > 0
  }

  ghost predicate NoneMatched(entries: seq<Entry>) {
    forall e :: 0 <= e < |entries| ==> !Matched(entries[e])
  }

  lemma NoRowsAdded(d: Desk, step: Step)
    requires !step.Repayment? && !step.Received?
    ensures Take(d, step).overpaid == d.overpaid && |Take(d, step).entries| == |d.entries|
  {
  }

  lemma {:induction false} RunKeepsRows(d: Desk, steps: seq<Step>)
    requires NothingReceived(steps)
    ensures var after := Run(d, steps);
            && after.overpaid == d.overpaid && |after.entries| == |d.entries|
            && forall e :: 0 <= e < |d.entries| ==> SameEntry(after.entries[e], d.entries[e])
  {
    if steps != [] {
      var was, step := Run(d, steps[..|steps| - 1]), steps[|steps| - 1];
      RunKeepsRows(d, steps[..|steps| - 1]);
      NoRowsAdded(was, step);
      TakeExtends(was, step);
      forall e | 0 <= e < |d.entries| ensures SameEntry(Take(was, step).entries[e], d.entries[e]) {
        assert SameEntry(was.entries[e], d.entries[e]);
      }
    }
  }

  lemma {:induction false} NoneMatchedTotal(entries: seq<Entry>)
    requires NoneMatched(entries)
    ensures Total(entries, MatchedOn(1)) == 0
  {
    if entries != [] {
      assert !Matched(entries[0]) && CeilShilling(0) == 0;
      assert forall e :: 0 <= e < |entries[1..]| ==> entries[1..][e] == entries[e + 1];
      NoneMatchedTotal(entries[1..]);
    }
  }

  lemma InTimeWithin(overpaid: int, entries: seq<Entry>, steps: seq<Step>)
    requires Opened(LoanOne(overpaid, entries)) && NoneMatched(entries)
    requires AllSound(steps) && NothingReceived(steps) && InTime(LoanOne(overpaid, entries), steps)
    ensures Sent(Run(LoanOne(overpaid, entries), steps), 1) <= CeilShilling(Max(overpaid, 0))
  {
    var d := LoanOne(overpaid, entries);
    var after := Run(d, steps);
    RefundsNeverExceed(d, steps);
    RunKeepsRows(d, steps);
    forall e | 0 <= e < |after.entries| ensures !Matched(after.entries[e]) {
      assert SameEntry(after.entries[e], d.entries[e]) && !Matched(entries[e]);
    }
    NoneMatchedTotal(after.entries);
  }

  predicate UntouchedBy(a: Action) {
    a.loanId != Some(1) || a.kind == OtherAction || (a.kind.SuspenseRefund? && a.amount <= 0)
  }

  /** Nothing on loan 1 can be sent: no request of its overpayment, no matched entry. */
  ghost predicate Untouched(d: Desk) {
    && (forall id :: 0 <= id < |d.actions| ==> UntouchedBy(d.actions[id]))
    && (forall r :: 0 <= r < |d.refunds| ==> d.refunds[r].loanId != Some(1))
  }

  lemma {:induction false} TotalZero<T>(s: seq<T>, f: T -> int)
    requires forall k :: 0 <= k < |s| ==> f(s[k]) == 0
    ensures Total(s, f) == 0
  {
    if s != [] {
      assert forall k :: 0 <= k < |s[1..]| ==> s[1..][k] == s[k + 1];
      TotalZero(s[1..], f);
    }
  }

  lemma TakeKeepsUntouched(d: Desk, step: Step)
    requires Untouched(d) && NoneMatched(d.entries) && 1 in d.overpaid && d.overpaid[1] <= 0 && Sound(step)
    ensures Untouched(Take(d, step))
  {
    var after := Take(d, step);
    assert Refundable(d, 1, true) == 0 == Refundable(d, 1, false) by {
      TotalZero(d.actions, PendingOn(1));
      TotalZero(d.refunds, SentOn(1));
    }
    TakeExtends(d, step);
    forall id | 0 <= id < |after.actions| ensures UntouchedBy(after.actions[id]) {
      if id < |d.actions| {
        assert SameAction(after.actions[id], d.actions[id]) && UntouchedBy(d.actions[id]);
      } else if step.RequestOfEntry? {
        assert step.entry < |d.entries| && !Matched(d.entries[step.entry]);
      }
    }
    forall r | 0 <= r < |after.refunds| ensures after.refunds[r].loanId != Some(1) {
      if r < |d.refunds| {
        assert SameRefund(after.refunds[r], d.refunds[r]);
      } else {
        assert UntouchedBy(d.actions[step.id]);
      }
    }
  }

  lemma {:induction false} NothingSent(overpaid: int, entries: seq<Entry>, steps: seq<Step>)
    requires NoneMatched(entries) && overpaid <= 0 && AllSound(steps) && NothingReceived(steps)
    ensures Untouched(Run(LoanOne(overpaid, entries), steps)) && Sent(Run(LoanOne(overpaid, entries), steps), 1) == 0
  {
    var d := LoanOne(overpaid, entries);
    if steps != [] {
      var before := steps[..|steps| - 1];
      NothingSent(overpaid, entries, before);
      RunKeepsRows(d, before);
      var was := Run(d, before);
      forall e | 0 <= e < |was.entries| ensures !Matched(was.entries[e]) {
        assert SameEntry(was.entries[e], d.entries[e]) && !Matched(entries[e]);
      }
      TakeKeepsUntouched(was, steps[|steps| - 1]);
    }
    TotalZero(Run(d, steps).refunds, SentOn(1));
  }

  // ---------------------------------------------------------------- runs that send more

  lemma {:induction false} WithoutRepliesInTime(d: Desk, steps: seq<Step>)
    requires forall k :: 0 <= k < |steps| ==> !steps[k].Reply?
    ensures InTime(d, steps)
  {
    if steps != [] {
      WithoutRepliesInTime(d, steps[..|steps| - 1]);
    }
  }

  function AllOf(overpaid: int, status: RefundStatus): Refund {
    Refund(Some(1), CeilShilling(overpaid), status, None)
  }

  /** All of the overpayment asked for, and an approval of it by person 8 out with the provider. */
  const ASK_ALL_AND_APPROVE: seq<Step> := [Request(1, None, 7), Approve(0, 8, true)]

  lemma AllAskedAndApproved(overpaid: int, entries: seq<Entry>)
    requires overpaid > 0
    ensures Run(LoanOne(overpaid, entries), ASK_ALL_AND_APPROVE)
         == Desk(map[1 := overpaid], entries, [Action(LoanRefund, Some(1), overpaid, 7, 0, AwaitingApproval, None)],
                 [AllOf(overpaid, Initiated)], [Ruling(0, 8, 1, 1, Ongoing, Some(0))], 2)
  {
    var d, ask := LoanOne(overpaid, entries), Request(1, None, 7);
    assert [] + [ask] == [ask] && ASK_ALL_AND_APPROVE == [ask] + [Approve(0, 8, true)];
    RunSnoc(d, [], ask);
    RunSnoc(d, [ask], Approve(0, 8, true));
    ApprovalSavesIntent(Take(d, ask), 0, 8, 1);
  }

  lemma EntryAskedAndApproved(d: Desk, e: nat)
    requires e < |d.entries| && d.entries[e].status == Open && Matched(d.entries[e])
    ensures Take(Take(d, RequestOfEntry(e, 7)), Approve(|d.actions|, 8, true)).refunds
         == d.refunds + [Refund(Some(1), CeilShilling(d.entries[e].amount), Initiated, Some(e))]
  {
  }

  /** A suspense entry matched to the loan is refunded on top of the loan's whole overpayment. */
  lemma EntryRefundedOnTop(overpaid: int, entries: seq<Entry>, e: nat) returns (steps: seq<Step>)
    requires e < |entries| && entries[e].status == Open && Matched(entries[e])
    ensures AllSound(steps) && NothingReceived(steps) && InTime(LoanOne(overpaid, entries), steps)
    ensures Sent(Run(LoanOne(overpaid, entries), steps), 1)
         == (if overpaid > 0 then CeilShilling(overpaid) else 0) + CeilShilling(entries[e].amount)
  {
    var d, ask := LoanOne(overpaid, entries), RequestOfEntry(e, 7);
    var first := if overpaid > 0 then ASK_ALL_AND_APPROVE else [];
    if overpaid > 0 {
      AllAskedAndApproved(overpaid, entries);
    }
    var was := Run(d, first);
    var approve := Approve(|was.actions|, 8, true);
    steps := first + [ask] + [approve];
    RunSnoc(d, first, ask);
    RunSnoc(d, first + [ask], approve);
    EntryAskedAndApproved(was, e);
    WithoutRepliesInTime(d, steps);
    var sent := Refund(Some(1), CeilShilling(entries[e].amount), Initiated, Some(e));
    TotalAppend(was.refunds, [sent], SentOn(1));
    TotalOne(sent, SentOn(1));
    TotalOne(AllOf(overpaid, Initiated), SentOn(1));
  }

  /** Settled as not paid while its request is out, approved and sent again, then accepted after all. */
  lemma LateAnswerSendsTwice(overpaid: int, entries: seq<Entry>) returns (steps: seq<Step>)
    requires overpaid > 0
    ensures AllSound(steps) && NothingReceived(steps)
    ensures Sent(Run(LoanOne(overpaid, entries), steps), 1) == 2 * CeilShilling(overpaid)
  {
    var d, again, accept := LoanOne(overpaid, entries), Approve(0, 9, true), Reply(0, Accepted);
    AllSettledAsNotPaid(overpaid, entries);
    steps := SETTLED + [again] + [accept];
    RunSnoc(d, SETTLED, again);
    RunSnoc(d, SETTLED + [again], accept);
    AnsweredLate(Run(d, SETTLED), overpaid);
  }

  lemma AnsweredLate(d: Desk, overpaid: int)
    requires overpaid > 0 && d.overpaid == map[1 := overpaid] && Sent(d, 1) == 0
    requires d.actions == [Action(LoanRefund, Some(1), overpaid, 7, 0, AwaitingApproval, None)]
    requires d.refunds == [AllOf(overpaid, RefundFailed)] && d.rulings == [Ruling(0, 8, 1, 1, Ongoing, Some(0))]
    ensures Sent(Take(Take(d, Approve(0, 9, true)), Reply(0, Accepted)), 1) == 2 * CeilShilling(overpaid)
  {
    ApprovalSavesIntent(d, 0, 9, 1);
    var again := Take(d, Approve(0, 9, true));
    assert again.refunds == [AllOf(overpaid, RefundFailed), AllOf(overpaid, Initiated)];
    var sent := Take(again, Reply(0, Accepted)).refunds;
    assert sent == [AllOf(overpaid, Pending)] + [AllOf(overpaid, Initiated)];
    TotalAppend([AllOf(overpaid, Pending)], [AllOf(overpaid, Initiated)], SentOn(1));
    TotalOne(AllOf(overpaid, Pending), SentOn(1));
    TotalOne(AllOf(overpaid, Initiated), SentOn(1));
  }

  const SETTLED: seq<Step> := ASK_ALL_AND_APPROVE + [RefundResult(0, false)]

  lemma AllSettledAsNotPaid(overpaid: int, entries: seq<Entry>)
    requires overpaid > 0
    ensures Run(LoanOne(overpaid, entries), SETTLED)
         == Desk(map[1 := overpaid], entries, [Action(LoanRefund, Some(1), overpaid, 7, 0, AwaitingApproval, None)],
                 [AllOf(overpaid, RefundFailed)], [Ruling(0, 8, 1, 1, Ongoing, Some(0))], 3)
    ensures Sent(Run(LoanOne(overpaid, entries), SETTLED), 1) == 0
  {
    AllAskedAndApproved(overpaid, entries);
    RunSnoc(LoanOne(overpaid, entries), ASK_ALL_AND_APPROVE, RefundResult(0, false));
    TotalOne(AllOf(overpaid, RefundFailed), SentOn(1));
  }

  lemma AllSentOnce(overpaid: int, entries: seq<Entry>)
    requires overpaid > 0
    ensures InTime(LoanOne(overpaid, entries), ASK_ALL_AND_APPROVE)
    ensures Sent(Run(LoanOne(overpaid, entries), ASK_ALL_AND_APPROVE), 1) == CeilShilling(overpaid)
  {
    AllAskedAndApproved(overpaid, entries);
    TotalOne(AllOf(overpaid, Initiated), SentOn(1));
    WithoutRepliesInTime(LoanOne(overpaid, entries), ASK_ALL_AND_APPROVE);
  }

  /**
    * All refunds sent on a loan stay within its overpayment, rounded up to the shilling, in every run if and only if no
    * suspense entry is matched to it and, if anything is overpaid, no answer comes late.
    */
  lemma WithinCeilingIff(overpaid: int, entries: seq<Entry>, late: bool)
    requires Opened(LoanOne(overpaid, entries))
    ensures StaysWithin(overpaid, entries, late, CeilShilling(Max(overpaid, 0)))
       <==> NoneMatched(entries) && (late ==> overpaid <= 0)
  {
    var d, cap := LoanOne(overpaid, entries), CeilShilling(Max(overpaid, 0));
    if !NoneMatched(entries) {
      var e :| 0 <= e < |entries| && Matched(entries[e]);
      var steps := EntryRefundedOnTop(overpaid, entries, e);
      assert Sent(Run(d, steps), 1) > cap;
    } else if late && overpaid > 0 {
      var steps := LateAnswerSendsTwice(overpaid, entries);
      assert Sent(Run(d, steps), 1) > cap;
    } else {
      forall steps: seq<Step> | AllSound(steps) && NothingReceived(steps) && (late || InTime(d, steps))
        ensures Sent(Run(d, steps), 1) <= cap
      {
        if late {
          NothingSent(overpaid, entries, steps);
        } else {
          InTimeWithin(overpaid, entries, steps);
        }
      }
    }
  }

  lemma CeilWhole(amount: Cents)
    ensures CeilShilling(amount) == amount <==> amount % SHILLING == 0
  {
  }

  /** They stay within the overpayment itself exactly when, besides, it is a whole number of shillings (or none). */
  lemma WithinIffWholeShillings(overpaid: int, entries: seq<Entry>, late: bool)
    requires Opened(LoanOne(overpaid, entries))
    ensures StaysWithin(overpaid, entries, late, Max(overpaid, 0))
       <==> NoneMatched(entries) && (overpaid <= 0 || (overpaid % SHILLING == 0 && !late))
  {
    var d, cap := LoanOne(overpaid, entries), Max(overpaid, 0);
    WithinCeilingIff(overpaid, entries, late);
    CeilWhole(cap);
    if overpaid > 0 && overpaid % SHILLING != 0 {
      AllSentOnce(overpaid, entries);
      assert AllSound(ASK_ALL_AND_APPROVE) && NothingReceived(ASK_ALL_AND_APPROVE);
      assert Sent(Run(d, ASK_ALL_AND_APPROVE), 1) > cap;
    } else if StaysWithin(overpaid, entries, late, cap) {
      forall steps: seq<Step> | AllSound(steps) && NothingReceived(steps) && (late || InTime(d, steps))
        ensures Sent(Run(d, steps), 1) <= CeilShilling(cap)
      {
      }
    }
  }
}
