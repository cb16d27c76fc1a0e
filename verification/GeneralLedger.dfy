/**
  * The double-entry ledger builder (backend/app/routers/accounting.py:89-316): the stored rows it reads, the lines each
  * row is booked as, and the four loops that build an export.
  */
module GeneralLedger {
  import opened Wrappers
  import opened Money
  import opened Sequences
  import opened StableSort

  /** Microseconds in a day; timestamps are microseconds, dates are day numbers. */
  const DAY: int := 86_400_000_000

  function Date(timestamp: int): int {
    timestamp / DAY
  }

  /** start <= timestamp <= end, for start = midnight of dfrom and end = 23:59:59.999999 of dto. */
  predicate InWindow(timestamp: int, dfrom: int, dto: int) {
    dfrom * DAY <= timestamp <= dto * DAY + DAY - 1
  }

  datatype Account = LoansReceivable | Cash | Suspense | ExcisePayable | InterestIncome | FeeIncome | PenaltyIncome

  function Code(account: Account): int {
    match account
    case LoansReceivable => 1000
    case Cash => 1010
    case Suspense => 1900
    case ExcisePayable => 2000
    case InterestIncome => 4000
    case FeeIncome => 4010
    case PenaltyIncome => 4020
  }

  datatype Description =
    | LoanDisbursement(loanId: int)
    | DisbursementRounding(loanId: int)
    | LoanRepayment(loanId: int)
    | OverpaymentRefund(loanId: int)
    | SuspenseReceipt(reason: string)
    | SuspenseResolved(status: SuspenseStatus)
    | SuspenseRounding(status: SuspenseStatus)

  datatype Reference = MpesaRef(code: string) | Generated(prefix: string, id: int)

  datatype Line = Line(date: int, account: Account, description: Description, debit: Cents, credit: Cents,
                       reference: Reference)

  // ---------------------------------------------------------------- stored rows

  datatype TxnType = B2C | Refund | OtherType
  datatype TxnStatus = Success | OtherStatus

  /** The payout's pricing snapshot; an absent one is PricingSnapshot(None, 0, false). */
  datatype PricingSnapshot = PricingSnapshot(principal: Option<Cents>, exciseDuty: Cents, deducted: bool)

  /** suspenseId is 0 when the payload names no suspense entry. */
  datatype Txn = Txn(id: int, kind: TxnType, status: TxnStatus, loanId: int, amount: Cents, createdAt: int,
                     mpesaRef: string, pricing: PricingSnapshot, suspenseId: int)

  datatype Repayment = Repayment(id: int, loanId: int, amount: Cents, principal: Cents, interest: Cents, fee: Cents,
                                 paidAt: int, mpesaRef: string)

  datatype SuspenseStatus =
    | Open | PendingApproval | RefundProcessing | ReversalPending | Allocated | Refunded | Reversed

  datatype SuspenseEntry = SuspenseEntry(id: int, amount: Cents, status: SuspenseStatus, reason: string,
                                         createdAt: Option<int>, resolvedAt: Option<int>, mpesaRef: string)

  datatype LoanTerms = LoanTerms(feesInBalance: Cents, totalFees: Cents, exciseDuty: Cents)

  /** One tenant's rows, in whatever order the tables hold them. */
  datatype Books = Books(txns: seq<Txn>, repayments: seq<Repayment>, suspense: seq<SuspenseEntry>,
                         loans: map<int, LoanTerms>)

  // ---------------------------------------------------------------- disbursements

  predicate IsDisbursement(t: Txn, dfrom: int, dto: int) {
    t.kind == B2C && t.status == Success && InWindow(t.createdAt, dfrom, dto)
  }

  function TxnRef(t: Txn): Reference {
    if t.mpesaRef != "" then MpesaRef(t.mpesaRef) else Generated("TXN", t.id)
  }

  function DisbursedPrincipal(t: Txn): Cents {
    if t.pricing.principal.Some? then t.pricing.principal.value else t.amount
  }

  function DeductedExcise(t: Txn): Cents {
    if t.pricing.deducted then t.pricing.exciseDuty else 0
  }

  function FeeKept(t: Txn): Cents {
    DisbursedPrincipal(t) - t.amount - DeductedExcise(t)
  }

  function DisbursementLines(t: Txn): seq<Line> {
    var d, ref, desc := Date(t.createdAt), TxnRef(t), LoanDisbursement(t.loanId);
    var excise, fee := DeductedExcise(t), FeeKept(t);
    [Line(d, LoansReceivable, desc, DisbursedPrincipal(t), 0, ref), Line(d, Cash, desc, 0, t.amount, ref)]
    + (if excise > 0 then [Line(d, ExcisePayable, desc, 0, excise, ref)] else [])
    + (if fee > 0 then [Line(d, FeeIncome, desc, 0, fee, ref)]
       else if fee < 0 then [Line(d, FeeIncome, DisbursementRounding(t.loanId), -fee, 0, ref)]
       else [])
  }

  function DisbursementPass(b: Books, dfrom: int, dto: int): seq<Line> {
    FlatMap(Filter(b.txns, t => IsDisbursement(t, dfrom, dto)), DisbursementLines)
  }

  method BookDisbursement(t: Txn) returns (lines: seq<Line>)
    ensures lines == DisbursementLines(t)
  {
    var d, ref, desc := Date(t.createdAt), TxnRef(t), LoanDisbursement(t.loanId);
    var paidOut := t.amount;
    var principal := if t.pricing.principal.Some? then t.pricing.principal.value else paidOut;
    var excise := if t.pricing.deducted then t.pricing.exciseDuty else 0;
    var fee := principal - paidOut - excise;
    lines := [Line(d, LoansReceivable, desc, principal, 0, ref)];
    lines := lines + [Line(d, Cash, desc, 0, paidOut, ref)];
    if excise > 0 {
      lines := lines + [Line(d, ExcisePayable, desc, 0, excise, ref)];
    }
    if fee > 0 {
      lines := lines + [Line(d, FeeIncome, desc, 0, fee, ref)];
    } else if fee < 0 {
      lines := lines + [Line(d, FeeIncome, DisbursementRounding(t.loanId), -fee, 0, ref)];
    }
  }

  method DisbursementPassLines(b: Books, dfrom: int, dto: int) returns (lines: seq<Line>)
    ensures lines == DisbursementPass(b, dfrom, dto)
  {
    var rows := Filter(b.txns, t => IsDisbursement(t, dfrom, dto));
    lines := [];
    for i := 0 to |rows|
      invariant lines == FlatMap(rows[..i], DisbursementLines)
    {
      var booked := BookDisbursement(rows[i]);
      lines := lines + booked;
      FlatMapStep(rows, DisbursementLines, i);
    }
    assert rows[..|rows|] == rows;
  }

  // ---------------------------------------------------------------- repayments

  /** ORDER BY payment_date, id */
  predicate RepaymentLe(x: Repayment, y: Repayment) {
    x.paidAt < y.paidAt || (x.paidAt == y.paidAt && x.id <= y.id)
  }

  function RepaymentsIn(b: Books, dfrom: int, dto: int): seq<Repayment> {
    Sort(Filter(b.repayments, (r: Repayment) => InWindow(r.paidAt, dfrom, dto)), RepaymentLe)
  }

  predicate ComponentsSum(r: Repayment) {
    r.principal + r.interest + r.fee == r.amount
  }

  /** A row without a usable split is booked as all principal. */
  function BookedPrincipal(r: Repayment): Cents {
    if ComponentsSum(r) then r.principal else r.amount
  }

  function BookedInterest(r: Repayment): Cents {
    if ComponentsSum(r) then r.interest else 0
  }

  function BookedFee(r: Repayment): Cents {
    if ComponentsSum(r) && r.fee > 0 then r.fee else 0
  }

  /** The share of product fees that is excise duty, as shareNum / shareDen. */
  datatype FeeInfo = FeeInfo(inBalance: Cents, shareNum: int, shareDen: int)

  type FeeTerms = f: FeeInfo | f.shareDen > 0 witness FeeInfo(0, 0, 1)

  function TermsOf(b: Books, loanId: int): LoanTerms {
    if loanId in b.loans then b.loans[loanId] else LoanTerms(0, 0, 0)
  }

  function FeeInfoOf(b: Books, loanId: int): FeeTerms {
    var terms := TermsOf(b, loanId);
    var priced := terms.totalFees + terms.exciseDuty;
    if priced > 0 then FeeInfo(terms.feesInBalance, terms.exciseDuty, priced) else FeeInfo(terms.feesInBalance, 0, 1)
  }

  function StoredFeeOf(loanId: int): Repayment -> int {
    (r: Repayment) => if r.loanId == loanId then r.fee else 0
  }

  function BookedFeeOf(loanId: int): Repayment -> int {
    (r: Repayment) => if r.loanId == loanId then BookedFee(r) else 0
  }

  /** Fees stored for the loan before the window opens. */
  function PriorFees(b: Books, dfrom: int, loanId: int): Cents {
    Total(Filter(b.repayments, (r: Repayment) => r.paidAt < dfrom * DAY), StoredFeeOf(loanId))
  }

  /** What the loan had paid in fees before rows[i], by the naive definition: look at every earlier row again. */
  function FeesPaidBefore(b: Books, dfrom: int, rows: seq<Repayment>, i: nat, loanId: int): Cents
    requires i <= |rows|
  {
    PriorFees(b, dfrom, loanId) + Total(rows[..i], BookedFeeOf(loanId))
  }

  function ProductPart(fee: Cents, inBalance: Cents, paidBefore: Cents): Cents {
    Min(fee, Max(inBalance - paidBefore, 0))
  }

  function ExcisePart(productFee: Cents, info: FeeTerms): Cents {
    RoundHalfUp(productFee * info.shareNum, info.shareDen)
  }

  function RepaymentRef(r: Repayment): Reference {
    if r.mpesaRef != "" then MpesaRef(r.mpesaRef) else Generated("REP", r.id)
  }

  function FeeLines(r: Repayment, info: FeeTerms, paidBefore: Cents): seq<Line> {
    var d, ref, desc := Date(r.paidAt), RepaymentRef(r), LoanRepayment(r.loanId);
    var productFee := ProductPart(r.fee, info.inBalance, paidBefore);
    var penalty := r.fee - productFee;
    var excise := ExcisePart(productFee, info);
    (if productFee - excise > 0 then [Line(d, FeeIncome, desc, 0, productFee - excise, ref)] else [])
    + (if excise > 0 then [Line(d, ExcisePayable, desc, 0, excise, ref)] else [])
    + (if penalty > 0 then [Line(d, PenaltyIncome, desc, 0, penalty, ref)] else [])
  }

  function PlainLines(r: Repayment): seq<Line> {
    var d, ref, desc := Date(r.paidAt), RepaymentRef(r), LoanRepayment(r.loanId);
    var principal, interest := BookedPrincipal(r), BookedInterest(r);
    [Line(d, Cash, desc, r.amount, 0, ref)]
    + (if principal > 0 then [Line(d, LoansReceivable, desc, 0, principal, ref)] else [])
    + (if interest > 0 then [Line(d, InterestIncome, desc, 0, interest, ref)] else [])
  }

  function RepaymentLines(r: Repayment, info: FeeTerms, paidBefore: Cents): seq<Line> {
    PlainLines(r) + if BookedFee(r) > 0 then FeeLines(r, info, paidBefore) else []
  }

  function LinesAt(b: Books, dfrom: int, rows: seq<Repayment>, i: nat): seq<Line>
    requires i < |rows|
  {
    var loanId := rows[i].loanId;
    RepaymentLines(rows[i], FeeInfoOf(b, loanId), FeesPaidBefore(b, dfrom, rows, i, loanId))
  }

  /** The lines of the first n rows, each fee split found from scratch. */
  function RepaymentPassTo(b: Books, dfrom: int, rows: seq<Repayment>, n: nat): seq<Line>
    requires n <= |rows|
  {
    if n == 0 then [] else RepaymentPassTo(b, dfrom, rows, n - 1) + LinesAt(b, dfrom, rows, n - 1)
  }

  function RepaymentPass(b: Books, dfrom: int, dto: int): seq<Line> {
    var rows := RepaymentsIn(b, dfrom, dto);
    RepaymentPassTo(b, dfrom, rows, |rows|)
  }

  /** The loop's dictionaries: which loans were looked up, and what each of those has paid in fees so far. */
  ghost predicate CacheTracks(b: Books, dfrom: int, rows: seq<Repayment>, i: nat,
                              loanCache: map<int, FeeTerms>, feePaidBefore: map<int, Cents>)
    requires i <= |rows|
  {
    && loanCache.Keys == feePaidBefore.Keys
    && (forall id :: id in loanCache ==> loanCache[id] == FeeInfoOf(b, id)
                                         && feePaidBefore[id] == FeesPaidBefore(b, dfrom, rows, i, id))
    && (forall id :: id !in loanCache ==> Total(rows[..i], BookedFeeOf(id)) == 0)
  }

  lemma FeesPaidStep(b: Books, dfrom: int, rows: seq<Repayment>, i: nat)
    requires i < |rows|
    ensures forall id :: FeesPaidBefore(b, dfrom, rows, i + 1, id)
                         == FeesPaidBefore(b, dfrom, rows, i, id) + BookedFeeOf(id)(rows[i])
    ensures forall id :: Total(rows[..i + 1], BookedFeeOf(id))
                         == Total(rows[..i], BookedFeeOf(id)) + BookedFeeOf(id)(rows[i])
  {
    forall id
      ensures Total(rows[..i + 1], BookedFeeOf(id)) == Total(rows[..i], BookedFeeOf(id)) + BookedFeeOf(id)(rows[i])
      ensures FeesPaidBefore(b, dfrom, rows, i + 1, id)
           == FeesPaidBefore(b, dfrom, rows, i, id) + BookedFeeOf(id)(rows[i])
    {
      TotalStep(rows, BookedFeeOf(id), i);
    }
  }

  /** _loan_fee_info: the first fee of a loan looks the loan up and seeds its running total. */
  method LoanFeeInfo(b: Books, dfrom: int, loanId: int, loanCache: map<int, FeeTerms>, feePaidBefore: map<int, Cents>,
                     ghost rows: seq<Repayment>, ghost i: nat)
    returns (loanCache': map<int, FeeTerms>, feePaidBefore': map<int, Cents>)
    requires i <= |rows| && CacheTracks(b, dfrom, rows, i, loanCache, feePaidBefore)
    ensures CacheTracks(b, dfrom, rows, i, loanCache', feePaidBefore')
    ensures loanCache'.Keys == loanCache.Keys + {loanId}
  {
    loanCache', feePaidBefore' := loanCache, feePaidBefore;
    if loanId !in loanCache {
      loanCache' := loanCache[loanId := FeeInfoOf(b, loanId)];
      var prior := Filter(b.repayments, (r: Repayment) => r.paidAt < dfrom * DAY);
      var sum := 0;
      for k := 0 to |prior|
        invariant sum == Total(prior[..k], StoredFeeOf(loanId))
      {
        TotalStep(prior, StoredFeeOf(loanId), k);
        if prior[k].loanId == loanId {
          sum := sum + prior[k].fee;
        }
      }
      assert prior[..|prior|] == prior;
      feePaidBefore' := feePaidBefore[loanId := sum];
    }
  }

  method BookPlain(r: Repayment) returns (lines: seq<Line>, fee: Cents)
    ensures lines == PlainLines(r)
    ensures fee > 0 <==> BookedFee(r) > 0
    ensures fee > 0 ==> fee == r.fee == BookedFee(r)
  {
    var d, ref, desc := Date(r.paidAt), RepaymentRef(r), LoanRepayment(r.loanId);
    var principal, interest := r.principal, r.interest;
    fee := r.fee;
    if principal + interest + fee != r.amount {
      principal, interest, fee := r.amount, 0, 0;
    }
    lines := [Line(d, Cash, desc, r.amount, 0, ref)];
    if principal > 0 {
      lines := lines + [Line(d, LoansReceivable, desc, 0, principal, ref)];
    }
    if interest > 0 {
      lines := lines + [Line(d, InterestIncome, desc, 0, interest, ref)];
    }
  }

  method BookFee(r: Repayment, info: FeeTerms, paidBefore: Cents) returns (lines: seq<Line>)
    ensures lines == FeeLines(r, info, paidBefore)
  {
    var d, ref, desc := Date(r.paidAt), RepaymentRef(r), LoanRepayment(r.loanId);
    var left := Max(info.inBalance - paidBefore, 0);
    var productFee := Min(r.fee, left);
    var penalty := r.fee - productFee;
    var excise := RoundHalfUp(productFee * info.shareNum, info.shareDen);
    lines := [];
    if productFee - excise > 0 {
      lines := lines + [Line(d, FeeIncome, desc, 0, productFee - excise, ref)];
    }
    if excise > 0 {
      lines := lines + [Line(d, ExcisePayable, desc, 0, excise, ref)];
    }
    if penalty > 0 {
      lines := lines + [Line(d, PenaltyIncome, desc, 0, penalty, ref)];
    }
  }

  /** One turn of the repayments loop. */
  method BookRepayment(b: Books, dfrom: int, ghost rows: seq<Repayment>, ghost i: nat, r: Repayment,
                       loanCache: map<int, FeeTerms>, feePaidBefore: map<int, Cents>)
    returns (booked: seq<Line>, loanCache': map<int, FeeTerms>, feePaidBefore': map<int, Cents>)
    requires i < |rows| && r == rows[i] && CacheTracks(b, dfrom, rows, i, loanCache, feePaidBefore)
    ensures booked == LinesAt(b, dfrom, rows, i)
    ensures CacheTracks(b, dfrom, rows, i + 1, loanCache', feePaidBefore')
  {
    var fee;
    booked, fee := BookPlain(r);
    FeesPaidStep(b, dfrom, rows, i);
    loanCache', feePaidBefore' := loanCache, feePaidBefore;
    if fee > 0 {
      loanCache', feePaidBefore' := LoanFeeInfo(b, dfrom, r.loanId, loanCache, feePaidBefore, rows, i);
      var feeLines := BookFee(r, loanCache'[r.loanId], feePaidBefore'[r.loanId]);
      feePaidBefore' := feePaidBefore'[r.loanId := feePaidBefore'[r.loanId] + fee];
      booked := booked + feeLines;
    }
  }

  method RepaymentPassLines(b: Books, dfrom: int, dto: int) returns (lines: seq<Line>)
    ensures lines == RepaymentPass(b, dfrom, dto)
  {
    var rows := RepaymentsIn(b, dfrom, dto);
    lines := [];
    var loanCache: map<int, FeeTerms>, feePaidBefore: map<int, Cents> := map[], map[];
    for i := 0 to |rows|
      invariant lines == RepaymentPassTo(b, dfrom, rows, i)
      invariant CacheTracks(b, dfrom, rows, i, loanCache, feePaidBefore)
    {
      var booked;
      booked, loanCache, feePaidBefore := BookRepayment(b, dfrom, rows, i, rows[i], loanCache, feePaidBefore);
      lines := lines + booked;
    }
  }

  // ---------------------------------------------------------------- refunds of loan overpayments

  predicate IsLoanRefund(t: Txn, dfrom: int, dto: int) {
    t.kind == Refund && t.status == Success && InWindow(t.createdAt, dfrom, dto)
  }

  function LoanRefundLines(t: Txn): seq<Line> {
    var d, ref, desc := Date(t.createdAt), TxnRef(t), OverpaymentRefund(t.loanId);
    if t.suspenseId != 0 then []
    else [Line(d, LoansReceivable, desc, t.amount, 0, ref), Line(d, Cash, desc, 0, t.amount, ref)]
  }

  function LoanRefundPass(b: Books, dfrom: int, dto: int): seq<Line> {
    FlatMap(Filter(b.txns, t => IsLoanRefund(t, dfrom, dto)), LoanRefundLines)
  }

  method LoanRefundPassLines(b: Books, dfrom: int, dto: int) returns (lines: seq<Line>)
    ensures lines == LoanRefundPass(b, dfrom, dto)
  {
    var rows := Filter(b.txns, t => IsLoanRefund(t, dfrom, dto));
    lines := [];
    for i := 0 to |rows|
      invariant lines == FlatMap(rows[..i], LoanRefundLines)
    {
      ghost var was := lines;
      var t := rows[i];
      if t.suspenseId == 0 {
        var d, ref, desc := Date(t.createdAt), TxnRef(t), OverpaymentRefund(t.loanId);
        lines := lines + [Line(d, LoansReceivable, desc, t.amount, 0, ref)];
        lines := lines + [Line(d, Cash, desc, 0, t.amount, ref)];
      }
      assert lines == was + LoanRefundLines(t);
      FlatMapStep(rows, LoanRefundLines, i);
    }
    assert rows[..|rows|] == rows;
  }

  // ---------------------------------------------------------------- suspense movements

  predicate IsSuspenseRefund(t: Txn) {
    t.kind == Refund && t.status == Success && t.suspenseId != 0
  }

  /** The cash sent for each suspense refund; a later row for the same entry replaces an earlier one. */
  function RefundSent(txns: seq<Txn>): map<int, Cents> {
    if txns == [] then map[]
    else
      var t, earlier := txns[|txns| - 1], RefundSent(txns[..|txns| - 1]);
      if IsSuspenseRefund(t) then earlier[t.suspenseId := t.amount] else earlier
  }

  function SentFor(s: SuspenseEntry, refundSent: map<int, Cents>): Cents {
    if s.status == Refunded && s.id in refundSent then refundSent[s.id] else s.amount
  }

  predicate ReceivedIn(s: SuspenseEntry, dfrom: int, dto: int) {
    s.createdAt.Some? && InWindow(s.createdAt.value, dfrom, dto)
  }

  predicate ResolvedIn(s: SuspenseEntry, dfrom: int, dto: int) {
    s.status in {Allocated, Refunded, Reversed} && s.resolvedAt.Some? && InWindow(s.resolvedAt.value, dfrom, dto)
  }

  function SuspenseRef(s: SuspenseEntry): Reference {
    if s.mpesaRef != "" then MpesaRef(s.mpesaRef) else Generated("SUS", s.id)
  }

  function ReceiptLines(s: SuspenseEntry, dfrom: int, dto: int): seq<Line> {
    if !ReceivedIn(s, dfrom, dto) then []
    else
      var d, ref, desc := Date(s.createdAt.value), SuspenseRef(s), SuspenseReceipt(s.reason);
      [Line(d, Cash, desc, s.amount, 0, ref), Line(d, Suspense, desc, 0, s.amount, ref)]
  }

  function ResolutionLines(s: SuspenseEntry, sent: Cents, dfrom: int, dto: int): seq<Line> {
    if !ResolvedIn(s, dfrom, dto) then []
    else
      var d, ref, desc := Date(s.resolvedAt.value), SuspenseRef(s), SuspenseResolved(s.status);
      [Line(d, Suspense, desc, s.amount, 0, ref), Line(d, Cash, desc, 0, sent, ref)]
      + if sent > s.amount then [Line(d, FeeIncome, SuspenseRounding(s.status), sent - s.amount, 0, ref)] else []
  }

  function SuspenseLines(refundSent: map<int, Cents>, dfrom: int, dto: int): SuspenseEntry -> seq<Line> {
    (s: SuspenseEntry) => ReceiptLines(s, dfrom, dto) + ResolutionLines(s, SentFor(s, refundSent), dfrom, dto)
  }

  function SuspensePass(b: Books, dfrom: int, dto: int): seq<Line> {
    FlatMap(b.suspense, SuspenseLines(RefundSent(b.txns), dfrom, dto))
  }

  /** Row i is the last successful refund of the suspense entry. */
  predicate LastRefundOf(txns: seq<Txn>, i: int, id: int) {
    && 0 <= i < |txns| && IsSuspenseRefund(txns[i]) && txns[i].suspenseId == id
    && forall j :: i < j < |txns| ==> !IsSuspenseRefund(txns[j]) || txns[j].suspenseId != id
  }

  /** An entry is there exactly if it has a successful refund, with what the last of them sent. */
  lemma {:induction false} RefundSentIsLast(txns: seq<Txn>, id: int)
    ensures id in RefundSent(txns) <==> exists i :: LastRefundOf(txns, i, id)
    ensures forall i :: LastRefundOf(txns, i, id) ==> id in RefundSent(txns) && RefundSent(txns)[id] == txns[i].amount
  {
    if txns != [] {
      var n := |txns| - 1;
      RefundSentIsLast(txns[..n], id);
      if IsSuspenseRefund(txns[n]) && txns[n].suspenseId == id {
        assert LastRefundOf(txns, n, id);
      } else {
        forall i ensures LastRefundOf(txns, i, id) <==> LastRefundOf(txns[..n], i, id) {
        }
      }
    }
  }

  method CollectRefundSent(txns: seq<Txn>) returns (refundSent: map<int, Cents>)
    ensures refundSent == RefundSent(txns)
    ensures forall id :: id in refundSent <==> exists i :: LastRefundOf(txns, i, id)
    ensures forall i, id :: LastRefundOf(txns, i, id) ==> id in refundSent && refundSent[id] == txns[i].amount
  {
    refundSent := map[];
    forall id
      ensures id in RefundSent(txns) <==> exists i :: LastRefundOf(txns, i, id)
      ensures forall i :: LastRefundOf(txns, i, id) ==> id in RefundSent(txns) && RefundSent(txns)[id] == txns[i].amount
    {
      RefundSentIsLast(txns, id);
    }
    for i := 0 to |txns|
      invariant refundSent == RefundSent(txns[..i])
    {
      assert txns[..i + 1][..i] == txns[..i];
      if IsSuspenseRefund(txns[i]) {
        refundSent := refundSent[txns[i].suspenseId := txns[i].amount];
      }
    }
    assert txns[..|txns|] == txns;
  }

  method BookSuspense(s: SuspenseEntry, refundSent: map<int, Cents>, dfrom: int, dto: int) returns (lines: seq<Line>)
    ensures lines == SuspenseLines(refundSent, dfrom, dto)(s)
  {
    var ref := SuspenseRef(s);
    lines := [];
    if ReceivedIn(s, dfrom, dto) {
      var d, desc := Date(s.createdAt.value), SuspenseReceipt(s.reason);
      lines := lines + [Line(d, Cash, desc, s.amount, 0, ref)];
      lines := lines + [Line(d, Suspense, desc, 0, s.amount, ref)];
    }
    if ResolvedIn(s, dfrom, dto) {
      var d, desc := Date(s.resolvedAt.value), SuspenseResolved(s.status);
      var sent := if s.status == Refunded && s.id in refundSent then refundSent[s.id] else s.amount;
      lines := lines + [Line(d, Suspense, desc, s.amount, 0, ref)];
      lines := lines + [Line(d, Cash, desc, 0, sent, ref)];
      if sent > s.amount {
        lines := lines + [Line(d, FeeIncome, SuspenseRounding(s.status), sent - s.amount, 0, ref)];
      }
    }
  }

  method SuspensePassLines(b: Books, dfrom: int, dto: int) returns (lines: seq<Line>)
    ensures lines == SuspensePass(b, dfrom, dto)
  {
    var refundSent := CollectRefundSent(b.txns);
    ghost var book := SuspenseLines(refundSent, dfrom, dto);
    lines := [];
    for i := 0 to |b.suspense|
      invariant lines == FlatMap(b.suspense[..i], book)
    {
      var booked := BookSuspense(b.suspense[i], refundSent, dfrom, dto);
      lines := lines + booked;
      FlatMapStep(b.suspense, book, i);
    }
    assert b.suspense[..|b.suspense|] == b.suspense;
  }

  // ---------------------------------------------------------------- the export

  /** lines.sort(key=(date, account_code)) */
  predicate LineLe(x: Line, y: Line) {
    x.date < y.date || (x.date == y.date && Code(x.account) <= Code(y.account))
  }

  function UnsortedLines(b: Books, dfrom: int, dto: int): seq<Line> {
    DisbursementPass(b, dfrom, dto) + RepaymentPass(b, dfrom, dto) + LoanRefundPass(b, dfrom, dto)
    + SuspensePass(b, dfrom, dto)
  }

  function GlLines(b: Books, dfrom: int, dto: int): seq<Line> {
    Sort(UnsortedLines(b, dfrom, dto), LineLe)
  }

  method BuildGlLines(b: Books, dfrom: int, dto: int) returns (lines: seq<Line>)
    ensures lines == GlLines(b, dfrom, dto)
  {
    var disbursed := DisbursementPassLines(b, dfrom, dto);
    var repaid := RepaymentPassLines(b, dfrom, dto);
    var refunded := LoanRefundPassLines(b, dfrom, dto);
    var suspended := SuspensePassLines(b, dfrom, dto);
    lines := disbursed + repaid + refunded + suspended;
    lines := Sort(lines, LineLe);
  }

  function DebitOf(l: Line): Cents {
    l.debit
  }

  function CreditOf(l: Line): Cents {
    l.credit
  }

  datatype Export = Export(lines: seq<Line>, totalDebit: Cents, totalCredit: Cents, balanced: bool)
  datatype ExportError = FromAfterTo

  method GlExport(b: Books, dfrom: int, dto: int) returns (r: Result<Export, ExportError>)
    ensures r.Err? <==> dfrom > dto
    ensures r.Ok? ==>
              && r.value.lines == GlLines(b, dfrom, dto)
              && r.value.totalDebit == Total(r.value.lines, DebitOf)
              && r.value.totalCredit == Total(r.value.lines, CreditOf)
              && (r.value.balanced <==> Total(r.value.lines, DebitOf) == Total(r.value.lines, CreditOf))
  {
    if dfrom > dto {
      return Err(FromAfterTo);
    }
    var lines := BuildGlLines(b, dfrom, dto);
    var debit, credit := 0, 0;
    for i := 0 to |lines|
      invariant debit == Total(lines[..i], DebitOf) && credit == Total(lines[..i], CreditOf)
    {
      TotalStep(lines, DebitOf, i);
      TotalStep(lines, CreditOf, i);
      debit, credit := debit + lines[i].debit, credit + lines[i].credit;
    }
    assert lines[..|lines|] == lines;
    return Ok(Export(lines, debit, credit, debit == credit));
  }
}
