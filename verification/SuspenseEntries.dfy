/**
  * What each step of MakerChecker does to the rows it touches, stated on the rows alone, and when a suspense entry is
  * held for a refund (backend/app/routers/payments.py:134-171, 941-971, approvals.py:215-271; backend/app/services/
  * disbursement.py:321-404, payment_approvals.py:157-177, 354-411).
  */
module SuspenseEntries {
  import opened Wrappers
  import opened Money
  import opened Sequences
  import opened MakerChecker
  import opened RefundBounds

  // ---------------------------------------------------------------- step by step

  /** Nothing but the clock moves. */
  predicate NothingDone(d: Desk, after: Desk) {
    after == d.(now := d.now + 1)
  }

  /** The entries are as they were, but for the status of one. */
  ghost predicate OnlyEntry(was: seq<Entry>, now: seq<Entry>, e: nat, status: EntryStatus) {
    && |now| == |was| && e < |was| && now[e] == was[e].(status := status)
    && forall other :: 0 <= other < |was| && other != e ==> now[other] == was[other]
  }

  /** A refund may be requested for any positive amount within what is overpaid, not yet sent and not yet asked for. */
  lemma RequestTaken(d: Desk, loanId: int, amount: Option<Cents>, maker: int)
    ensures var after := Take(d, Request(loanId, amount, maker));
            var left := if loanId in d.overpaid
                        then d.overpaid[loanId] - Total(d.actions, PendingOn(loanId)) - Total(d.refunds, SentOn(loanId))
                        else 0;
            var wanted := if amount.Some? then amount.value else left;
            if left > 0 && 0 < wanted <= left then
              && |after.actions| == |d.actions| + 1 && d.actions <= after.actions
              && after == d.(now := d.now + 1, actions := after.actions)
              && var a := after.actions[|d.actions|];
              && a.kind == LoanRefund && a.loanId == Some(loanId) && a.amount == wanted && a.maker == maker
              && a.status == AwaitingApproval && a.checker == None
            else NothingDone(d, after)
  {
  }

  /** A suspense refund is requested for an open entry only, which it holds. */
  lemma EntryRequested(d: Desk, e: nat, maker: int)
    ensures var after := Take(d, RequestOfEntry(e, maker));
            if e < |d.entries| && d.entries[e].status == Open then
              && OnlyEntry(d.entries, after.entries, e, Parked) && after.refunds == d.refunds
              && |after.actions| == |d.actions| + 1 && d.actions <= after.actions
              && var a := after.actions[|d.actions|];
              && a.kind == SuspenseRefund(e) && a.loanId == d.entries[e].loanId && a.amount == d.entries[e].amount
              && a.maker == maker && a.status == AwaitingApproval && a.checker == None
            else NothingDone(d, after)
  {
  }

  /** Only somebody permitted, who is not its maker, takes up an action, and only while it awaits. */
  predicate MayDecide(d: Desk, id: nat, checker: int, permitted: bool) {
    id < |d.actions| && d.actions[id].status == AwaitingApproval && d.actions[id].maker != checker && permitted
  }

  /** A rejection marks the action and gives a parked entry back; it leaves everything else. */
  lemma RejectionReleases(d: Desk, id: nat, checker: int, permitted: bool)
    ensures var after := Take(d, Reject(id, checker, permitted));
            if MayDecide(d, id, checker, permitted) then
              && after.refunds == d.refunds && after.overpaid == d.overpaid
              && after.actions == d.actions[id := after.actions[id]]
              && after.actions[id].status == ActionRejected && after.actions[id].checker == Some(checker)
              && |after.entries| == |d.entries|
              && (forall e :: 0 <= e < |d.entries| ==>
                                after.entries[e] == if d.actions[id].kind == SuspenseRefund(e)
                                                       && d.entries[e].status == Parked
                                then d.entries[e].(status := Open) else d.entries[e])
            else NothingDone(d, after)
  {
  }

  /**
    * An approval goes out for a refund within what is overpaid and not yet sent, or for an entry that is parked:
    * exactly then its refund is saved, in whole shillings, and an entry claimed. The action stays as it was.
    */
  lemma ApprovalSends(d: Desk, id: nat, checker: int, permitted: bool)
    requires id < |d.actions| ==> d.actions[id].kind != OtherAction
    ensures var after := Take(d, Approve(id, checker, permitted));
            if MayDecide(d, id, checker, permitted) && Covered(d, d.actions[id]) then
              var a, r := d.actions[id], after.refunds[|after.refunds| - 1];
              && after.actions == d.actions && after.overpaid == d.overpaid
              && after.refunds == d.refunds + [r] && r.loanId == a.loanId && r.status == Initiated && Live(r)
              && a.amount <= r.amount < a.amount + 100 && r.amount % 100 == 0
              && (if a.kind.SuspenseRefund?
                  then r.entry == Some(a.kind.entry) && OnlyEntry(d.entries, after.entries, a.kind.entry, BeingRefunded)
                  else r.entry == None && after.entries == d.entries)
            else NothingDone(d, after)
  {
  }

  /** Approving anything else begins exactly when it may be decided, and touches no refund or entry. */
  lemma OtherApprovalBegins(d: Desk, id: nat, checker: int, permitted: bool)
    requires id < |d.actions| && d.actions[id].kind == OtherAction
    ensures var after := Take(d, Approve(id, checker, permitted));
            && after == d.(now := d.now + 1, rulings := after.rulings)
            && |after.rulings| == |d.rulings| + if MayDecide(d, id, checker, permitted) then 1 else 0
  {
  }

  /** What the refund would be paid from still covers it. */
  predicate Covered(d: Desk, a: Action) {
    && a.amount > 0
    && match a.kind
       case LoanRefund =>
         && a.loanId.Some? && a.loanId.value in d.overpaid
         && a.amount <= d.overpaid[a.loanId.value] - Total(d.refunds, SentOn(a.loanId.value))
       case SuspenseRefund(e) => e < |d.entries| && d.entries[e].status == Parked
       case OtherAction => true
  }

  /** Only an acceptance approves the action; only a refusal fails the refund,
    and gives its entry back unless it is closed. */
  lemma AnswerSaved(d: Desk, k: nat, answer: Answer, r: nat)
    requires InProgress(d, k) && d.rulings[k].refund == Some(r) && r < |d.refunds|
    requires d.refunds[r].entry.Some? ==> d.refunds[r].entry.value < |d.entries|
    ensures var after, id := Take(d, Reply(k, answer)), d.rulings[k].id;
            && after.overpaid == d.overpaid && after.refunds == d.refunds[r := after.refunds[r]]
            && after.refunds[r] == d.refunds[r].(status := after.refunds[r].status)
            && (Live(after.refunds[r]) <==> answer != Refused)
            && (if answer == Accepted
                then after.actions == d.actions[id := after.actions[id]] && after.actions[id].status == ActionApproved
                     && after.actions[id].checker == Some(d.rulings[k].checker)
                else after.actions == d.actions)
            && GivenBack(d.entries, after.entries, d.refunds[r].entry, answer == Refused)
  {
  }

  ghost predicate GivenBack(was: seq<Entry>, now: seq<Entry>, e: Option<nat>, failed: bool) {
    if failed && e.Some? && e.value < |was| && (was[e.value].status == BeingRefunded || was[e.value].status == Parked)
    then OnlyEntry(was, now, e.value, Open) else now == was
  }

  /** A settlement completes or fails a refund that was neither, and closes its entry or gives it back. */
  lemma SettlementSaved(d: Desk, r: nat, paid: bool)
    requires r < |d.refunds| ==> d.refunds[r].entry.Some? ==> d.refunds[r].entry.value < |d.entries|
    ensures var after := Take(d, RefundResult(r, paid));
            if r < |d.refunds| && (d.refunds[r].status == Initiated || d.refunds[r].status == Pending) then
              && after.actions == d.actions && after.rulings == d.rulings && after.overpaid == d.overpaid
              && after.refunds == d.refunds[r := d.refunds[r].(status := if paid then Completed else RefundFailed)]
              && (if paid && d.refunds[r].entry.Some?
                  then OnlyEntry(d.entries, after.entries, d.refunds[r].entry.value, Refunded)
                  else GivenBack(d.entries, after.entries, d.refunds[r].entry, !paid))
            else NothingDone(d, after)
  {
  }

  // ---------------------------------------------------------------- when an entry is held

  ghost predicate OnEntry(d: Desk, id: nat, e: nat) {
    id < |d.actions| && d.actions[id].kind == SuspenseRefund(e)
  }

  /** The action awaits, and nobody has taken up any refund of the entry since it was requested. */
  ghost predicate HeldBy(d: Desk, e: nat, n: nat) {
    && OnEntry(d, n, e) && d.actions[n].status == AwaitingApproval
    && forall k :: 0 <= k < |d.rulings| && OnEntry(d, d.rulings[k].id, e) ==> d.rulings[k].begun < d.actions[n].madeAt
  }

  ghost predicate ParkedExactly(d: Desk, e: nat) {
    e < |d.entries| && d.entries[e].status == Parked <==> exists n: nat :: HeldBy(d, e, n)
  }

  /** Requests come before the decisions on them. */
  ghost predicate Timed(d: Desk) {
    && (forall id :: 0 <= id < |d.actions| && d.actions[id].kind.SuspenseRefund? ==> d.actions[id].madeAt < d.now)
    && (forall k :: 0 <= k < |d.rulings| && d.rulings[k].id < |d.actions| ==>
                      d.actions[d.rulings[k].id].kind.SuspenseRefund? ==>
                        d.actions[d.rulings[k].id].madeAt < d.rulings[k].begun)
  }

  lemma TakeKeepsTimed(d: Desk, step: Step)
    requires Inv(d) && Timed(d) && Sound(step)
    ensures Timed(Take(d, step))
  {
    RulingsAfter(d, step);
    ActionsAfter(d, step);
  }

  /** What a step does to the actions: it changes statuses, or adds one made now. */
  lemma ActionsAfter(d: Desk, step: Step)
    requires Sound(step)
    ensures var after := Take(d, step);
            && |d.actions| <= |after.actions| <= |d.actions| + 1
            && (forall id :: 0 <= id < |d.actions| ==>
                               after.actions[id].kind == d.actions[id].kind
                               && after.actions[id].madeAt == d.actions[id].madeAt)
            && (|after.actions| > |d.actions| ==>
                  var a := after.actions[|d.actions|];
                  && after.rulings == d.rulings && a.status == AwaitingApproval
                  && (a.kind.SuspenseRefund? ==>
                        a.madeAt == d.now && step.RequestOfEntry? && step.entry == a.kind.entry))
            && (after.rulings != d.rulings && !step.Reply? ==> |after.actions| == |d.actions|)
  {
  }

  lemma {:induction false} RunKeepsTimed(d: Desk, steps: seq<Step>)
    requires Opened(d) && AllSound(steps)
    ensures Timed(Run(d, steps))
  {
    if steps != [] {
      RunKeepsTimed(d, steps[..|steps| - 1]);
      RunKeepsInv(d, steps[..|steps| - 1]);
      TakeKeepsTimed(Run(d, steps[..|steps| - 1]), steps[|steps| - 1]);
    }
  }

  /** A step that takes up a refund of the entry ends every hold on it. */
  lemma TakingUpEndsHold(d: Desk, after: Desk, u: Ruling, e: nat)
    requires Timed(d) && after.rulings == d.rulings + [u] && u.begun == d.now && OnEntry(after, u.id, e)
    requires |after.actions| == |d.actions|
    requires forall id :: 0 <= id < |d.actions| ==>
                            after.actions[id].kind == d.actions[id].kind
                            && after.actions[id].madeAt == d.actions[id].madeAt
    ensures !exists n: nat :: HeldBy(after, e, n)
  {
    forall n: nat ensures !HeldBy(after, e, n) {
      assert after.rulings[|d.rulings|] == u;
      assert OnEntry(after, n, e) ==> after.actions[n].madeAt < d.now;
    }
  }

  /** Steps that take up no refund of the entry, and decide none, leave its holds. */
  lemma HoldsKept(d: Desk, after: Desk, e: nat)
    requires Inv(d) && |after.actions| == |d.actions|
    requires forall id :: 0 <= id < |d.actions| ==>
                            after.actions[id].kind == d.actions[id].kind
                            && after.actions[id].madeAt == d.actions[id].madeAt
    requires forall id: nat :: OnEntry(d, id, e) ==>
                                 (after.actions[id].status == AwaitingApproval
                                  <==> d.actions[id].status == AwaitingApproval)
    requires |d.rulings| <= |after.rulings|
    requires forall k :: 0 <= k < |d.rulings| ==>
                           after.rulings[k].id == d.rulings[k].id && after.rulings[k].begun == d.rulings[k].begun
    requires forall k :: |d.rulings| <= k < |after.rulings| ==> !OnEntry(after, after.rulings[k].id, e)
    ensures (exists n: nat :: HeldBy(after, e, n)) <==> exists n: nat :: HeldBy(d, e, n)
  {
    forall n: nat ensures HeldBy(after, e, n) <==> HeldBy(d, e, n) {
      assert OnEntry(after, n, e) <==> OnEntry(d, n, e);
      forall k | 0 <= k < |d.rulings|
        ensures OnEntry(after, after.rulings[k].id, e) <==> OnEntry(d, d.rulings[k].id, e)
      {
      }
    }
  }

  lemma ApproveKeepsParked(d: Desk, id: nat, checker: int, permitted: bool, e: nat)
    requires Inv(d) && Timed(d) && ParkedExactly(d, e)
    ensures ParkedExactly(Take(d, Approve(id, checker, permitted)), e)
  {
    var step := Approve(id, checker, permitted);
    var after := Take(d, step);
    if BeginApproval(d, id, checker, permitted).Ok? {
      var u := after.rulings[|d.rulings|];
      assert after.rulings == d.rulings + [u] && u.begun == d.now && u.id == id && after.actions == d.actions;
      if OnEntry(d, id, e) {
        TakingUpEndsHold(d, after, u, e);
      } else {
        HoldsKept(d, after, e);
      }
    } else {
      HoldsKept(d, after, e);
    }
  }

  lemma RejectKeepsParked(d: Desk, id: nat, checker: int, permitted: bool, e: nat)
    requires Inv(d) && Timed(d) && ParkedExactly(d, e)
    ensures ParkedExactly(Take(d, Reject(id, checker, permitted)), e)
  {
    var step := Reject(id, checker, permitted);
    var after := Take(d, step);
    RejectionReleases(d, id, checker, permitted);
    if MayDecide(d, id, checker, permitted) {
      var u := Ruling(id, checker, d.now, d.now, Rejection, None);
      assert after.rulings == d.rulings + [u];
      if OnEntry(d, id, e) {
        TakingUpEndsHold(d, after, u, e);
      } else {
        HoldsKept(d, after, e);
      }
    } else {
      HoldsKept(d, after, e);
    }
  }

  /** A refund that has not failed means its entry is claimed, so not parked. */
  lemma LiveClaims(d: Desk, r: nat, e: nat)
    requires Linked(d) && EntriesBounded(d) && r < |d.refunds| && Live(d.refunds[r]) && d.refunds[r].entry == Some(e)
    ensures e < |d.entries| && Claimed(d.entries[e])
  {
    assert RefundLinked(d.refunds[r], d.entries);
    CountMembers(d.refunds, LiveOf(e));
    assert LiveOf(e)(d.refunds[r]);
  }

  lemma ReplyKeepsParked(d: Desk, k: nat, answer: Answer, e: nat)
    requires Inv(d) && Timed(d) && Linked(d) && EntriesBounded(d) && ParkedExactly(d, e)
    requires InProgress(d, k) && !LateAnswer(d, Reply(k, answer))
    ensures ParkedExactly(Take(d, Reply(k, answer)), e)
  {
    var after, u := Take(d, Reply(k, answer)), d.rulings[k];
    assert RulingLinked(u, d);
    if u.refund.Some? && d.refunds[u.refund.value].entry.Some? {
      LiveClaims(d, u.refund.value, d.refunds[u.refund.value].entry.value);
    }
    assert after.rulings == d.rulings[k := u.(ended := d.now, outcome := Answered(answer))];
    if OnEntry(d, u.id, e) && answer == Accepted {
      AcceptanceEndsNoHold(d, after, k, e);
    } else {
      HoldsKept(d, after, e);
    }
  }

  /** The accepted action was taken up after its request, so it held nothing. */
  lemma AcceptanceEndsNoHold(d: Desk, after: Desk, k: nat, e: nat)
    requires Inv(d) && Timed(d) && k < |d.rulings| && OnEntry(d, d.rulings[k].id, e)
    requires |after.actions| == |d.actions|
    requires after.actions == d.actions[d.rulings[k].id := after.actions[d.rulings[k].id]]
    requires after.actions[d.rulings[k].id].kind == d.actions[d.rulings[k].id].kind
    requires after.actions[d.rulings[k].id].madeAt == d.actions[d.rulings[k].id].madeAt
    requires after.actions[d.rulings[k].id].status == ActionApproved
    requires |after.rulings| == |d.rulings| && forall j :: 0 <= j < |d.rulings| ==>
                                                             after.rulings[j].id == d.rulings[j].id
                                                             && after.rulings[j].begun == d.rulings[j].begun
    ensures (exists n: nat :: HeldBy(after, e, n)) <==> exists n: nat :: HeldBy(d, e, n)
  {
    assert !HeldBy(d, e, d.rulings[k].id);
    forall n: nat ensures HeldBy(after, e, n) <==> HeldBy(d, e, n) {
      forall j | 0 <= j < |d.rulings|
        ensures OnEntry(after, after.rulings[j].id, e) <==> OnEntry(d, d.rulings[j].id, e)
      {
      }
    }
  }

  lemma SettleKeepsParked(d: Desk, r: nat, paid: bool, e: nat)
    requires Inv(d) && Linked(d) && EntriesBounded(d) && ParkedExactly(d, e)
    ensures ParkedExactly(Take(d, RefundResult(r, paid)), e)
  {
    var after := Take(d, RefundResult(r, paid));
    if r < |d.refunds| && Live(d.refunds[r]) && d.refunds[r].entry.Some? {
      LiveClaims(d, r, d.refunds[r].entry.value);
    }
    HoldsKept(d, after, e);
  }

  lemma EntryRequestKeepsParked(d: Desk, entry: nat, maker: int, e: nat)
    requires Inv(d) && Timed(d) && ParkedExactly(d, e)
    ensures ParkedExactly(Take(d, RequestOfEntry(entry, maker)), e)
  {
    var after, n := Take(d, RequestOfEntry(entry, maker)), |d.actions|;
    EntryRequested(d, entry, maker);
    if entry < |d.entries| && d.entries[entry].status == Open {
      assert after.rulings == d.rulings && after.actions[n].madeAt == d.now;
      if entry == e {
        assert HeldBy(after, e, n);
      } else {
        forall m: nat ensures HeldBy(after, e, m) <==> HeldBy(d, e, m) {
        }
      }
    } else {
      HoldsKept(d, after, e);
    }
  }

  lemma OutsideKeepsParked(d: Desk, step: Step, e: nat)
    requires Inv(d) && Linked(d) && ParkedExactly(d, e) && Sound(step)
    requires step.Request? || step.RequestOther? || step.Received? || step.Repayment?
    ensures ParkedExactly(Take(d, step), e)
  {
    var after := Take(d, step);
    assert after.rulings == d.rulings && d.actions <= after.actions;
    assert forall id :: |d.actions| <= id < |after.actions| ==> !after.actions[id].kind.SuspenseRefund?;
    forall n: nat ensures HeldBy(after, e, n) <==> HeldBy(d, e, n) {
      assert OnEntry(after, n, e) <==> OnEntry(d, n, e);
      forall k | 0 <= k < |d.rulings| ensures OnEntry(after, d.rulings[k].id, e) <==> OnEntry(d, d.rulings[k].id, e) {
      }
    }
    assert forall x :: 0 <= x < |d.entries| ==> after.entries[x] == d.entries[x];
  }

  lemma TakeKeepsParked(d: Desk, step: Step, e: nat)
    requires Inv(d) && Timed(d) && Linked(d) && EntriesBounded(d) && ParkedExactly(d, e)
    requires Sound(step) && !step.Moved? && !LateAnswer(d, step)
    ensures ParkedExactly(Take(d, step), e)
  {
    match step
    case RequestOfEntry(entry, maker) => EntryRequestKeepsParked(d, entry, maker, e);
    case Reject(id, checker, permitted) => RejectKeepsParked(d, id, checker, permitted, e);
    case Approve(id, checker, permitted) => ApproveKeepsParked(d, id, checker, permitted, e);
    case Reply(k, answer) =>
      if InProgress(d, k) {
        ReplyKeepsParked(d, k, answer, e);
      } else {
        HoldsKept(d, Take(d, step), e);
      }
    case RefundResult(r, paid) => SettleKeepsParked(d, r, paid, e);
    case _ => OutsideKeepsParked(d, step, e);
  }

  ghost predicate NoneMoved(steps: seq<Step>) {
    forall k :: 0 <= k < |steps| ==> !steps[k].Moved?
  }

  /**
    * As long as no answer comes late and nothing else moves entries, an entry is parked exactly while some action on it
    * awaits that was requested after every refund of the entry was last taken up.
    */
  lemma {:induction false} ParkedIff(d: Desk, steps: seq<Step>, e: nat)
    requires Opened(d) && AllSound(steps) && InTime(d, steps) && NoneMoved(steps)
    ensures ParkedExactly(Run(d, steps), e)
  {
    if steps != [] {
      var before := steps[..|steps| - 1];
      ParkedIff(d, before, e);
      RunKeepsInv(d, before);
      RunKeepsTimed(d, before);
      RunKeepsBounded(d, before);
      TakeKeepsParked(Run(d, before), steps[|steps| - 1], e);
    } else {
      assert forall k :: 0 <= k < |d.entries| ==> d.entries[k] in d.entries;
    }
  }

  /** Awaiting alone does not park it: a refund that was refused leaves its action awaiting and its entry open. */
  lemma RefusedWhileAwaiting()
    ensures var d := Run(ONE_ENTRY, ENTRY_OUT + [Reply(0, Refused)]);
            && |d.actions| == 1 && d.actions[0].kind == SuspenseRefund(0) && d.actions[0].status == AwaitingApproval
            && |d.entries| == 1 && d.entries[0].status == Open
  {
    EntryOut();
    RunSnoc(ONE_ENTRY, ENTRY_OUT, Reply(0, Refused));
  }
}
