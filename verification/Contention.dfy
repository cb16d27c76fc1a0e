/**
  * When an action of MakerChecker can still be decided or sent more than once, seen from where it stands before the
  * answers arrive (backend/app/routers/approvals.py:211-271; backend/app/services/disbursement.py:328-356).
  */
module Contention {
  import opened Wrappers
  import opened Sequences
  import opened MakerChecker

  /** The ruling set the action's status, or still can. */
  predicate Contends(u: Ruling, id: nat) {
    u.id == id && (Effective(u) || u.outcome == Ongoing)
  }

  function Contenders(d: Desk, id: nat): int {
    Total(d.rulings, Count((u: Ruling) => Contends(u, id)))
  }

  /** The ruling ran the action's effect, or may have, or still can. */
  predicate CanRun(u: Ruling, id: nat, refunds: seq<Refund>) {
    u.id == id && (MayHaveRun(u, refunds) || u.outcome == Ongoing)
  }

  function Outstanding(d: Desk, id: nat): int {
    Total(d.rulings, Count((u: Ruling) => CanRun(u, id, d.refunds)))
  }

  predicate TakesUp(step: Step, id: nat) {
    (step.Approve? && step.id == id) || (step.Reject? && step.id == id)
  }

  /** Whatever else happens: answers, settlements, and all that is done about other actions. */
  ghost predicate LeavesAlone(steps: seq<Step>, id: nat) {
    forall k :: 0 <= k < |steps| ==> !TakesUp(steps[k], id)
  }

  // ---------------------------------------------------------------- each ruling has its own refund

  ghost predicate OwnRefunds(d: Desk) {
    && (forall k :: 0 <= k < |d.rulings| && d.rulings[k].refund.Some? ==> d.rulings[k].refund.value < |d.refunds|)
    && (forall j, k :: 0 <= j < k < |d.rulings| && d.rulings[j].refund.Some? && d.rulings[k].refund.Some? ==>
                         d.rulings[j].refund.value < d.rulings[k].refund.value)
  }

  /** What a step adds to the rulings and refunds; whatever it does to those there were, their ids and refunds stay. */
  lemma RowsAfter(d: Desk, step: Step)
    ensures var after := Take(d, step);
            && |d.refunds| <= |after.refunds|
            && |d.rulings| <= |after.rulings| <= |d.rulings| + 1
            && (forall k :: 0 <= k < |d.rulings| ==>
                              after.rulings[k].id == d.rulings[k].id && after.rulings[k].refund == d.rulings[k].refund)
            && (|after.rulings| > |d.rulings| ==>
                  var u := after.rulings[|d.rulings|];
                  && TakesUp(step, u.id) && u.outcome in {Ongoing, Rejection}
                  && (u.refund.Some? ==> u.refund.value == |d.refunds| < |after.refunds|))
  {
  }

  lemma TakeKeepsOwnRefunds(d: Desk, step: Step)
    requires OwnRefunds(d)
    ensures OwnRefunds(Take(d, step))
  {
    RowsAfter(d, step);
  }

  lemma {:induction false} RunKeepsOwnRefunds(d: Desk, steps: seq<Step>)
    requires Opened(d)
    ensures OwnRefunds(Run(d, steps))
  {
    if steps != [] {
      RunKeepsOwnRefunds(d, steps[..|steps| - 1]);
      TakeKeepsOwnRefunds(Run(d, steps[..|steps| - 1]), steps[|steps| - 1]);
    }
  }

  // ---------------------------------------------------------------- rulings there already

  /** No step makes a ruling there already contend that did not. */
  lemma NoneRejoins(d: Desk, step: Step, id: nat, k: nat)
    requires k < |d.rulings|
    ensures k < |Take(d, step).rulings| && (Contends(Take(d, step).rulings[k], id) ==> Contends(d.rulings[k], id))
  {
    RulingsAfter(d, step);
  }

  /** Nor can it run again, once it neither may have run nor is out. */
  lemma NoneRevives(d: Desk, step: Step, id: nat, k: nat)
    requires OwnRefunds(d) && k < |d.rulings|
    ensures var after := Take(d, step);
            k < |after.rulings| && (CanRun(after.rulings[k], id, after.refunds) ==> CanRun(d.rulings[k], id, d.refunds))
  {
    match step
    case Reply(other, answer) =>
      if InProgress(d, other) && other != k {
        ReplyKeepsOtherRefunds(d, other, answer, k);
      }
    case Reject(other, checker, permitted) => RulingsAfter(d, step);
    case Approve(other, checker, permitted) => ApproveKeepsRows(d, other, checker, permitted);
    case RefundResult(r, paid) =>
    case _ => RefundsUntouched(d, step);
  }

  lemma RefundsUntouched(d: Desk, step: Step)
    requires !step.Reply? && !step.Approve? && !step.RefundResult? && !step.Reject?
    ensures Take(d, step).rulings == d.rulings && Take(d, step).refunds == d.refunds
  {
  }

  lemma ApproveKeepsRows(d: Desk, id: nat, checker: int, permitted: bool)
    ensures var after := Take(d, Approve(id, checker, permitted));
            d.rulings <= after.rulings && d.refunds <= after.refunds
  {
  }

  lemma ReplyKeepsOtherRefunds(d: Desk, other: nat, answer: Answer, k: nat)
    requires OwnRefunds(d) && InProgress(d, other) && k < |d.rulings| && k != other
    ensures var after := Take(d, Reply(other, answer));
            && |after.rulings| == |d.rulings| && after.rulings[k] == d.rulings[k] && |after.refunds| == |d.refunds|
            && (d.rulings[k].refund.Some? ==>
                  after.refunds[d.rulings[k].refund.value] == d.refunds[d.rulings[k].refund.value])
  {
    if d.rulings[k].refund.Some? && d.rulings[other].refund.Some? {
      assert d.rulings[k].refund.value != d.rulings[other].refund.value;
    }
  }

  lemma {:induction false} CountNotAbove(s: seq<Ruling>, t: seq<Ruling>, p: Ruling -> bool, q: Ruling -> bool)
    requires |s| == |t| && forall k :: 0 <= k < |s| && p(s[k]) ==> q(t[k])
    ensures Total(s, Count(p)) <= Total(t, Count(q))
  {
    if s != [] {
      assert forall k :: 0 <= k < |s[1..]| ==> s[1..][k] == s[k + 1] && t[1..][k] == t[k + 1];
      CountNotAbove(s[1..], t[1..], p, q);
    }
  }

  /** Counts over the rulings after a step: those there already, and the one it adds, if any. */
  lemma CountAfter(d: Desk, step: Step, p: Ruling -> bool, q: Ruling -> bool)
    requires var after := Take(d, step);
             |d.rulings| <= |after.rulings| && forall k :: 0 <= k < |d.rulings| && p(after.rulings[k]) ==>
                                                             q(d.rulings[k])
    ensures var after := Take(d, step);
            Total(after.rulings, Count(p))
            <= Total(d.rulings, Count(q))
            + if |after.rulings| > |d.rulings| && p(after.rulings[|d.rulings|]) then 1 else 0
  {
    RowsAfter(d, step);
    var after := Take(d, step);
    CountNotAbove(after.rulings[..|d.rulings|], d.rulings, p, q);
    if |after.rulings| > |d.rulings| {
      TotalStep(after.rulings, Count(p), |d.rulings|);
      assert after.rulings[..|d.rulings| + 1] == after.rulings;
    } else {
      assert after.rulings[..|d.rulings|] == after.rulings;
    }
  }

  /** A step lets at most one more decide the action, and only if it takes it up. */
  lemma ContendersAfter(d: Desk, step: Step, id: nat)
    ensures Contenders(Take(d, step), id) <= Contenders(d, id) + if TakesUp(step, id) then 1 else 0
  {
    forall k: nat | k < |d.rulings|
      ensures k < |Take(d, step).rulings| && (Contends(Take(d, step).rulings[k], id) ==> Contends(d.rulings[k], id))
    {
      NoneRejoins(d, step, id, k);
    }
    RowsAfter(d, step);
    CountAfter(d, step, (u: Ruling) => Contends(u, id), (u: Ruling) => Contends(u, id));
  }

  lemma OutstandingAfter(d: Desk, step: Step, id: nat)
    requires OwnRefunds(d)
    ensures Outstanding(Take(d, step), id) <= Outstanding(d, id) + if step.Approve? && step.id == id then 1 else 0
  {
    var after := Take(d, step);
    forall k: nat | k < |d.rulings|
      ensures k < |after.rulings|
              && (CanRun(after.rulings[k], id, after.refunds) ==> CanRun(d.rulings[k], id, d.refunds))
    {
      NoneRevives(d, step, id, k);
    }
    RowsAfter(d, step);
    if step.Reject? {
      RejectionHasNoRefund(d, step);
    }
    CountAfter(d, step, (u: Ruling) => CanRun(u, id, after.refunds), (u: Ruling) => CanRun(u, id, d.refunds));
  }

  lemma RejectionHasNoRefund(d: Desk, step: Step)
    requires step.Reject?
    ensures var after := Take(d, step);
            |after.rulings| > |d.rulings| ==>
              after.rulings[|d.rulings|].outcome == Rejection && after.rulings[|d.rulings|].refund == None
  {
  }

  // ---------------------------------------------------------------- whatever happens next

  lemma {:induction false} LeftAlone(d: Desk, steps: seq<Step>, id: nat)
    requires OwnRefunds(d) && LeavesAlone(steps, id)
    ensures OwnRefunds(Run(d, steps))
    ensures Contenders(Run(d, steps), id) <= Contenders(d, id) && Outstanding(Run(d, steps), id) <= Outstanding(d, id)
  {
    if steps != [] {
      var before, step := steps[..|steps| - 1], steps[|steps| - 1];
      LeftAlone(d, before, id);
      StepLeftAlone(Run(d, before), step, id);
    }
  }

  lemma StepLeftAlone(d: Desk, step: Step, id: nat)
    requires OwnRefunds(d) && !TakesUp(step, id)
    ensures OwnRefunds(Take(d, step))
    ensures Contenders(Take(d, step), id) <= Contenders(d, id) && Outstanding(Take(d, step), id) <= Outstanding(d, id)
  {
    TakeKeepsOwnRefunds(d, step);
    ContendersAfter(d, step, id);
    OutstandingAfter(d, step, id);
  }

  lemma CountedWithin(d: Desk, id: nat)
    ensures Decisions(d, id) <= Contenders(d, id) && Ran(d, id) <= Outstanding(d, id)
  {
    CountNotAbove(d.rulings, d.rulings, (u: Ruling) => EffectiveOn(u, id), (u: Ruling) => Contends(u, id));
    CountNotAbove(d.rulings, d.rulings, (u: Ruling) => RunOn(u, id, d.refunds),
                  (u: Ruling) => CanRun(u, id, d.refunds));
  }

  /**
    * An accepting answer to ruling k, if it is out: k then has taken effect, and whatever ran, may have run or is out
    * still does.
    */
  lemma Accept(d: Desk, k: nat, j: nat, id: nat)
    requires j < |d.rulings| && k < |d.rulings| && d.rulings[k].id < |d.actions|
    ensures var after := Take(d, Reply(k, Accepted));
            && |after.rulings| == |d.rulings| && |after.actions| == |d.actions|
            && after.rulings[j].id == d.rulings[j].id
            && (Contends(d.rulings[j], id) ==> Contends(after.rulings[j], id))
            && (EffectiveOn(d.rulings[j], id) ==> EffectiveOn(after.rulings[j], id))
            && (CanRun(d.rulings[j], id, d.refunds) ==> CanRun(after.rulings[j], id, after.refunds))
            && (RunOn(d.rulings[j], id, d.refunds) ==> RunOn(after.rulings[j], id, after.refunds))
            && (Contends(d.rulings[k], id) ==> EffectiveOn(after.rulings[k], id))
            && (CanRun(d.rulings[k], id, d.refunds) ==> RunOn(after.rulings[k], id, after.refunds))
  {
  }

  function BothAccepted(j: nat, k: nat): seq<Step> {
    [Reply(j, Accepted)] + [Reply(k, Accepted)]
  }

  lemma AcceptBoth(d: Desk, j: nat, k: nat, id: nat)
    requires j < k < |d.rulings| && d.rulings[j].id < |d.actions| && d.rulings[k].id < |d.actions|
    ensures var twice := Take(Take(d, Reply(j, Accepted)), Reply(k, Accepted));
            && |twice.rulings| == |d.rulings|
            && (Contends(d.rulings[j], id) ==> EffectiveOn(twice.rulings[j], id))
            && (Contends(d.rulings[k], id) ==> EffectiveOn(twice.rulings[k], id))
            && (CanRun(d.rulings[j], id, d.refunds) ==> RunOn(twice.rulings[j], id, twice.refunds))
            && (CanRun(d.rulings[k], id, d.refunds) ==> RunOn(twice.rulings[k], id, twice.refunds))
  {
    var once := Take(d, Reply(j, Accepted));
    Accept(d, j, j, id);
    Accept(d, j, k, id);
    Accept(once, k, j, id);
    Accept(once, k, k, id);
  }

  lemma RunBoth(d: Desk, j: nat, k: nat)
    ensures Run(d, BothAccepted(j, k)) == Take(Take(d, Reply(j, Accepted)), Reply(k, Accepted))
  {
    assert [] + [Reply(j, Accepted)] == [Reply(j, Accepted)];
    RunSnoc(d, [], Reply(j, Accepted));
    RunSnoc(d, [Reply(j, Accepted)], Reply(k, Accepted));
  }

  lemma TwoAccepted(d: Desk, j: nat, k: nat, id: nat)
    requires j < k < |d.rulings| && d.rulings[j].id < |d.actions| && d.rulings[k].id < |d.actions|
    ensures AllSound(BothAccepted(j, k)) && LeavesAlone(BothAccepted(j, k), id)
    ensures Contends(d.rulings[j], id) && Contends(d.rulings[k], id) ==> Decisions(Run(d, BothAccepted(j, k)), id) >= 2
    ensures CanRun(d.rulings[j], id, d.refunds) && CanRun(d.rulings[k], id, d.refunds) ==>
              Ran(Run(d, BothAccepted(j, k)), id) >= 2
  {
    var after := Run(d, BothAccepted(j, k));
    RunBoth(d, j, k);
    AcceptBoth(d, j, k, id);
    CountPair(after.rulings, (u: Ruling) => EffectiveOn(u, id), j, k);
    CountPair(after.rulings, (u: Ruling) => RunOn(u, id, after.refunds), j, k);
  }

  lemma CountPair(rulings: seq<Ruling>, p: Ruling -> bool, j: nat, k: nat)
    requires j < k < |rulings|
    ensures p(rulings[j]) && p(rulings[k]) ==> Total(rulings, Count(p)) >= 2
  {
    CountMembers(rulings, p);
  }

  /** Whatever happens next, as long as nobody takes the action up again, it is decided at most once. */
  ghost predicate DecidedOnceWhateverNext(d: Desk, id: nat) {
    forall steps: seq<Step> :: AllSound(steps) && LeavesAlone(steps, id) ==> Decisions(Run(d, steps), id) <= 1
  }

  /** Whatever happens next, as long as nobody takes the action up again, its effect runs at most once. */
  ghost predicate RunsOnceWhateverNext(d: Desk, id: nat) {
    forall steps: seq<Step> :: AllSound(steps) && LeavesAlone(steps, id) ==> Ran(Run(d, steps), id) <= 1
  }

  /** That holds of a reachable desk if and only if at most one decision of the action took effect or is still out. */
  lemma DecidedOnceIff(d0: Desk, before: seq<Step>, id: nat)
    requires Opened(d0) && AllSound(before)
    ensures DecidedOnceWhateverNext(Run(d0, before), id) <==> Contenders(Run(d0, before), id) <= 1
  {
    var d, p := Run(d0, before), (u: Ruling) => Contends(u, id);
    RunKeepsInv(d0, before);
    RunKeepsOwnRefunds(d0, before);
    CountMembers(d.rulings, p);
    if Contenders(d, id) > 1 {
      var j, k :| 0 <= j < k < |d.rulings| && p(d.rulings[j]) && p(d.rulings[k]);
      TwoAccepted(d, j, k, id);
    } else {
      forall steps: seq<Step> | AllSound(steps) && LeavesAlone(steps, id) ensures Decisions(Run(d, steps), id) <= 1 {
        LeftAlone(d, steps, id);
        CountedWithin(Run(d, steps), id);
      }
    }
  }

  /** And if and only if at most one approval of it is accepted, out, or left open with a refund that has not failed. */
  lemma RunsOnceIff(d0: Desk, before: seq<Step>, id: nat)
    requires Opened(d0) && AllSound(before)
    ensures RunsOnceWhateverNext(Run(d0, before), id) <==> Outstanding(Run(d0, before), id) <= 1
  {
    var d := Run(d0, before);
    var p := (u: Ruling) => CanRun(u, id, d.refunds);
    RunKeepsInv(d0, before);
    RunKeepsOwnRefunds(d0, before);
    CountMembers(d.rulings, p);
    if Outstanding(d, id) > 1 {
      var j, k :| 0 <= j < k < |d.rulings| && p(d.rulings[j]) && p(d.rulings[k]);
      TwoAccepted(d, j, k, id);
    } else {
      forall steps: seq<Step> | AllSound(steps) && LeavesAlone(steps, id) ensures Ran(Run(d, steps), id) <= 1 {
        LeftAlone(d, steps, id);
        CountedWithin(Run(d, steps), id);
      }
    }
  }

  // ---------------------------------------------------------------- the step that lets a second one in

  /** The step passes every check and takes the action up. */
  predicate TakesUpNow(d: Desk, step: Step, id: nat) {
    || (step.Approve? && step.id == id && BeginApproval(d, id, step.checker, step.permitted).Ok?)
    || (step.Reject? && step.id == id && RejectAction(d, id, step.checker, step.permitted).Ok?)
  }

  lemma TakenUpRows(d: Desk, step: Step, id: nat)
    requires TakesUp(step, id)
    ensures var after := Take(d, step);
            if TakesUpNow(d, step, id) then
              && id < |d.actions| && d.actions[id].status == AwaitingApproval
              && d.refunds <= after.refunds && after.rulings == d.rulings + [after.rulings[|d.rulings|]]
              && after.rulings[|d.rulings|].id == id
              && after.rulings[|d.rulings|].outcome == (if step.Approve? then Ongoing else Rejection)
              && (step.Reject? ==> after.rulings[|d.rulings|].refund == None)
            else after.rulings == d.rulings && after.refunds == d.refunds
  {
  }

  /** With the action awaiting, every contender is an approval that is out. */
  lemma AwaitingContenders(d: Desk, id: nat)
    requires Inv(d) && id < |d.actions| && d.actions[id].status == AwaitingApproval
    ensures Contenders(d, id) >= 1 <==> !NoneOngoing(d.rulings, id)
  {
    assert StatusRuled(d.actions[id], d.rulings, id);
    CountMembers(d.rulings, (u: Ruling) => Contends(u, id));
    assert forall k :: 0 <= k < |d.rulings| ==> !EffectiveOn(d.rulings[k], id);
  }

  /** A second contender arises exactly when the action is taken up while an approval of it is out. */
  lemma SecondContenderIff(d0: Desk, before: seq<Step>, step: Step, id: nat)
    requires Opened(d0) && AllSound(before) && Contenders(Run(d0, before), id) <= 1
    ensures var d := Run(d0, before);
            Contenders(Take(d, step), id) > 1 <==> TakesUpNow(d, step, id) && !NoneOngoing(d.rulings, id)
  {
    var d := Run(d0, before);
    RunKeepsInv(d0, before);
    ContendersAfter(d, step, id);
    if TakesUp(step, id) {
      TakenUpRows(d, step, id);
      if TakesUpNow(d, step, id) {
        AwaitingContenders(d, id);
        var u := Take(d, step).rulings[|d.rulings|];
        TotalAppend(d.rulings, [u], Count((v: Ruling) => Contends(v, id)));
        TotalOne(u, Count((v: Ruling) => Contends(v, id)));
        CountMembers(d.rulings, (v: Ruling) => Contends(v, id));
      }
    }
  }

  /** A second approval that can run arises exactly when one begins while another is out or left open. */
  lemma SecondOutstandingIff(d0: Desk, before: seq<Step>, step: Step, id: nat)
    requires Opened(d0) && AllSound(before) && Outstanding(Run(d0, before), id) <= 1
    ensures var d := Run(d0, before);
            Outstanding(Take(d, step), id) > 1 <==> step.Approve? && TakesUpNow(d, step, id) && Outstanding(d, id) == 1
  {
    var d := Run(d0, before);
    RunKeepsOwnRefunds(d0, before);
    OutstandingAfter(d, step, id);
    if step.Approve? && step.id == id {
      TakenUpRows(d, step, id);
      if TakesUpNow(d, step, id) {
        ApprovalAdds(d, step, id);
      }
    }
    CountMembers(d.rulings, (u: Ruling) => CanRun(u, id, d.refunds));
  }

  lemma ApprovalAdds(d: Desk, step: Step, id: nat)
    requires OwnRefunds(d) && step.Approve? && TakesUpNow(d, step, id)
    ensures Outstanding(Take(d, step), id) == Outstanding(d, id) + 1
  {
    var after := Take(d, step);
    TakenUpRows(d, step, id);
    var u := after.rulings[|d.rulings|];
    var p, q := (v: Ruling) => CanRun(v, id, after.refunds), (v: Ruling) => CanRun(v, id, d.refunds);
    forall v | v in d.rulings ensures Count(p)(v) == Count(q)(v) {
      var k :| 0 <= k < |d.rulings| && d.rulings[k] == v;
    }
    TotalEqual(d.rulings, Count(p), Count(q));
    TotalAppend(d.rulings, [u], Count(p));
    TotalOne(u, Count(p));
  }

  // ---------------------------------------------------------------- the guard that is missing

  /** No approval of the action begins while another is accepted, out, or left open. */
  ghost predicate ApprovedAlone(d: Desk, steps: seq<Step>, id: nat) {
    steps == [] || (var before, step := steps[..|steps| - 1], steps[|steps| - 1];
                    && ApprovedAlone(d, before, id)
                    && !(step.Approve? && TakesUpNow(Run(d, before), step, id) && Outstanding(Run(d, before), id) >= 1))
  }

  lemma {:induction false} AloneOutstanding(d: Desk, steps: seq<Step>, id: nat)
    requires Opened(d) && AllSound(steps) && ApprovedAlone(d, steps, id)
    ensures Outstanding(Run(d, steps), id) <= 1
  {
    if steps != [] {
      var before, step := steps[..|steps| - 1], steps[|steps| - 1];
      AloneOutstanding(d, before, id);
      SecondOutstandingIff(d, before, step, id);
    }
  }

  /**
    * With that guard every action's effect runs at most once, and exactly as decided unless an approval is left open.
    */
  lemma ApprovedAloneRunsOnce(d: Desk, steps: seq<Step>, id: nat)
    requires Opened(d) && AllSound(steps) && ApprovedAlone(d, steps, id)
    ensures Ran(Run(d, steps), id) <= 1
    ensures id < |Run(d, steps).actions| ==> (RanAsDecided(Run(d, steps), id) <==> NoneLeftOpen(Run(d, steps), id))
  {
    var after := Run(d, steps);
    AloneOutstanding(d, steps, id);
    CountedWithin(after, id);
    if id < |after.actions| {
      var p := (u: Ruling) => RunOn(u, id, after.refunds);
      CountMembers(after.rulings, p);
      RanAsDecidedIff(d, steps, id);
      forall j, k | 0 <= j < k < |after.rulings|
        ensures !AcceptedOn(after.rulings[j], id) || !AcceptedOn(after.rulings[k], id)
      {
        assert AcceptedOn(after.rulings[j], id) ==> p(after.rulings[j]);
        assert AcceptedOn(after.rulings[k], id) ==> p(after.rulings[k]);
      }
    }
  }
}
