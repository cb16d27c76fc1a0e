/** What an export moves on each account, against the stored rows it came from. */
module LedgerAccounts {
  import opened Wrappers
  import opened Money
  import opened Sequences
  import opened StableSort
  import opened GeneralLedger
  import opened LedgerBalance

  /** Debits less credits on an account. */
  function NetOn(account: Account): Line -> int {
    (l: Line) => if l.account == account then l.debit - l.credit else 0
  }

  function Net(lines: seq<Line>, account: Account): int {
    Total(lines, NetOn(account))
  }

  // ---------------------------------------------------------------- what each row should move

  /** Loan up by the principal, cash down by the payout; excise and the fee kept are owed or earned. */
  function PayoutMoves(account: Account): Txn -> int {
    (t: Txn) => match account
    case LoansReceivable => PrincipalOf(t)
    case Cash => -t.amount
    case ExcisePayable => -ExciseOf(t)
    case FeeIncome => -(PrincipalOf(t) - t.amount - ExciseOf(t))
    case _ => 0
  }

  /** The snapshot's principal, or what was paid out if it names none. */
  function PrincipalOf(t: Txn): Cents {
    match t.pricing.principal
    case Some(principal) => principal
    case None => t.amount
  }

  function ExciseOf(t: Txn): Cents {
    if t.pricing.deducted then t.pricing.exciseDuty else 0
  }

  /** Cash up by the payment, the loan down by the principal booked, interest earned; fees are LedgerSplit's subject. */
  function RepaymentMoves(account: Account): Repayment -> int {
    (r: Repayment) =>
      var split := r.principal + r.interest + r.fee == r.amount;
      match account
      case Cash => r.amount
      case LoansReceivable => -(if split then r.principal else r.amount)
      case InterestIncome => -(if split then r.interest else 0)
      case _ => 0
  }

  function RefundMoves(account: Account): Txn -> int {
    (t: Txn) => if t.suspenseId != 0 then 0
      else match account
           case LoansReceivable => t.amount
           case Cash => -t.amount
           case _ => 0
  }

  function SuspenseMoves(account: Account, refundSent: map<int, Cents>, dfrom: int, dto: int): SuspenseEntry -> int {
    (s: SuspenseEntry) =>
      var left := (s.status == Allocated || s.status == Refunded || s.status == Reversed)
                  && IsWithin(s.resolvedAt, dfrom, dto);
      var received, resolved := if IsWithin(s.createdAt, dfrom, dto) then s.amount else 0, if left then s.amount else 0;
      var sent := if left && s.status == Refunded && s.id in refundSent then refundSent[s.id] else resolved;
      match account
      case Cash => received - sent
      case Suspense => resolved - received
      case FeeIncome => sent - resolved
      case _ => 0
  }

  /** On a day of the window, both ends included. */
  predicate IsWithin(timestamp: Option<int>, dfrom: int, dto: int) {
    timestamp.Some? && dfrom * DAY <= timestamp.value < (dto + 1) * DAY
  }

  /** A transaction moves the books if it went through within the window: a payout, or the refund of an overpayment. */
  function TxnMoves(account: Account, dfrom: int, dto: int): Txn -> int {
    (t: Txn) =>
      if t.status != Success || !IsWithin(Some(t.createdAt), dfrom, dto) then 0
      else match t.kind
           case B2C => PayoutMoves(account)(t)
           case Refund => RefundMoves(account)(t)
           case OtherType => 0
  }

  function RepaymentMovesIn(account: Account, dfrom: int, dto: int): Repayment -> int {
    (r: Repayment) => if IsWithin(Some(r.paidAt), dfrom, dto) then RepaymentMoves(account)(r) else 0
  }

  // ---------------------------------------------------------------- what its lines move

  lemma PayoutNet(t: Txn, account: Account)
    requires DeductedExcise(t) >= 0
    ensures Net(DisbursementLines(t), account) == PayoutMoves(account)(t)
  {
    var d, ref, desc := Date(t.createdAt), TxnRef(t), LoanDisbursement(t.loanId);
    var excise, fee := DeductedExcise(t), FeeKept(t);
    var owed, paid := Line(d, LoansReceivable, desc, DisbursedPrincipal(t), 0, ref),
                      Line(d, Cash, desc, 0, t.amount, ref);
    var duty := Line(d, ExcisePayable, desc, 0, excise, ref);
    var kept := if fee > 0 then Line(d, FeeIncome, desc, 0, fee, ref)
    else Line(d, FeeIncome, DisbursementRounding(t.loanId), -fee, 0, ref);
    TotalPair(owed, paid, NetOn(account));
    TotalOptional([owed, paid], excise > 0, duty, NetOn(account));
    var dutied := [owed, paid] + (if excise > 0 then [duty] else []);
    TotalOptional(dutied, fee != 0, kept, NetOn(account));
    assert DisbursementLines(t) == dutied + (if fee != 0 then [kept] else []);
  }

  lemma RefundNet(t: Txn, account: Account)
    ensures Net(LoanRefundLines(t), account) == RefundMoves(account)(t)
  {
    if t.suspenseId == 0 {
      TotalPair(LoanRefundLines(t)[0], LoanRefundLines(t)[1], NetOn(account));
    }
  }

  lemma SuspenseNet(s: SuspenseEntry, refundSent: map<int, Cents>, dfrom: int, dto: int, account: Account)
    requires ResolvedIn(s, dfrom, dto) ==> SentFor(s, refundSent) >= s.amount
    ensures Net(SuspenseLines(refundSent, dfrom, dto)(s), account) == SuspenseMoves(account, refundSent, dfrom, dto)(s)
  {
    var receipt, sent := ReceiptLines(s, dfrom, dto), SentFor(s, refundSent);
    var resolution := ResolutionLines(s, sent, dfrom, dto);
    if ReceivedIn(s, dfrom, dto) {
      TotalPair(receipt[0], receipt[1], NetOn(account));
    }
    if ResolvedIn(s, dfrom, dto) {
      var d, ref, desc := Date(s.resolvedAt.value), SuspenseRef(s), SuspenseResolved(s.status);
      var out, cash := Line(d, Suspense, desc, s.amount, 0, ref), Line(d, Cash, desc, 0, sent, ref);
      TotalPair(out, cash, NetOn(account));
      TotalOptional([out, cash], sent > s.amount,
                    Line(d, FeeIncome, SuspenseRounding(s.status), sent - s.amount, 0, ref), NetOn(account));
    }
    TotalAppend(receipt, resolution, NetOn(account));
  }

  predicate PlainAccount(account: Account) {
    account in {LoansReceivable, Cash, Suspense, InterestIncome}
  }

  lemma RepaymentNet(r: Repayment, info: FeeTerms, paidBefore: Cents, account: Account)
    requires SplitSound(r) && PlainAccount(account)
    ensures Net(RepaymentLines(r, info, paidBefore), account) == RepaymentMoves(account)(r)
  {
    PlainLineTotal(r, NetOn(account));
    FeeLineTotal(r, info, paidBefore, NetOn(account));
    TotalAppend(PlainLines(r), if BookedFee(r) > 0 then FeeLines(r, info, paidBefore) else [], NetOn(account));
  }

  lemma {:induction false} RepaymentPassNet(b: Books, dfrom: int, rows: seq<Repayment>, n: nat, account: Account)
    requires n <= |rows| && PlainAccount(account) && forall r :: r in rows ==> SplitSound(r)
    ensures Net(RepaymentPassTo(b, dfrom, rows, n), account) == Total(rows[..n], RepaymentMoves(account))
  {
    if n > 0 {
      RepaymentPassNet(b, dfrom, rows, n - 1, account);
      var r := rows[n - 1];
      RepaymentNet(r, FeeInfoOf(b, r.loanId), FeesPaidBefore(b, dfrom, rows, n - 1, r.loanId), account);
      TotalAppend(RepaymentPassTo(b, dfrom, rows, n - 1), LinesAt(b, dfrom, rows, n - 1), NetOn(account));
      TotalStep(rows, RepaymentMoves(account), n - 1);
    }
  }

  /**
    * What the export moves on an account: the payouts, repayments, refunds and suspense entries of the window, and no
    * more.
    */
  function Moves(b: Books, dfrom: int, dto: int, account: Account): int {
    Total(b.txns, TxnMoves(account, dfrom, dto)) + Total(b.repayments, RepaymentMovesIn(account, dfrom, dto))
    + Total(b.suspense, SuspenseMoves(account, RefundSent(b.txns), dfrom, dto))
  }

  lemma MovesOfQueries(b: Books, dfrom: int, dto: int, account: Account)
    ensures Total(Filter(b.txns, t => IsDisbursement(t, dfrom, dto)), PayoutMoves(account))
            + Total(Filter(b.txns, t => IsLoanRefund(t, dfrom, dto)), RefundMoves(account))
         == Total(b.txns, TxnMoves(account, dfrom, dto))
    ensures Total(RepaymentsIn(b, dfrom, dto), RepaymentMoves(account))
         == Total(b.repayments, RepaymentMovesIn(account, dfrom, dto))
  {
    var paid := (t: Txn) => if IsDisbursement(t, dfrom, dto) then PayoutMoves(account)(t) else 0;
    var back := (t: Txn) => if IsLoanRefund(t, dfrom, dto) then RefundMoves(account)(t) else 0;
    TotalFiltered(b.txns, t => IsDisbursement(t, dfrom, dto), PayoutMoves(account), paid);
    TotalFiltered(b.txns, t => IsLoanRefund(t, dfrom, dto), RefundMoves(account), back);
    TotalOfBoth(b.txns, paid, back, TxnMoves(account, dfrom, dto));
    var inside := (r: Repayment) => InWindow(r.paidAt, dfrom, dto);
    TotalFiltered(b.repayments, inside, RepaymentMoves(account), RepaymentMovesIn(account, dfrom, dto));
    TotalSort(Filter(b.repayments, inside), RepaymentLe, RepaymentMoves(account));
  }

  lemma {:induction false} TotalOfBoth<T>(s: seq<T>, f: T -> int, g: T -> int, both: T -> int)
    requires forall x :: x in s ==> both(x) == f(x) + g(x)
    ensures Total(s, both) == Total(s, f) + Total(s, g)
  {
    if s != [] {
      TotalOfBoth(s[1..], f, g, both);
    }
  }

  lemma TxnPassesNet(b: Books, dfrom: int, dto: int, account: Account)
    requires RowsSound(b, dfrom, dto)
    ensures Net(DisbursementPass(b, dfrom, dto), account)
         == Total(Filter(b.txns, t => IsDisbursement(t, dfrom, dto)), PayoutMoves(account))
    ensures Net(LoanRefundPass(b, dfrom, dto), account)
         == Total(Filter(b.txns, t => IsLoanRefund(t, dfrom, dto)), RefundMoves(account))
  {
    var payouts, refunds := Filter(b.txns, t => IsDisbursement(t, dfrom, dto)),
                            Filter(b.txns, t => IsLoanRefund(t, dfrom, dto));
    forall t | t in payouts ensures Net(DisbursementLines(t), account) == PayoutMoves(account)(t) {
      FilterMember(b.txns, t => IsDisbursement(t, dfrom, dto), t);
      PayoutNet(t, account);
    }
    TotalFlatMap(payouts, DisbursementLines, NetOn(account), PayoutMoves(account));
    forall t | t in refunds ensures Net(LoanRefundLines(t), account) == RefundMoves(account)(t) {
      RefundNet(t, account);
    }
    TotalFlatMap(refunds, LoanRefundLines, NetOn(account), RefundMoves(account));
  }

  lemma SuspensePassNet(b: Books, dfrom: int, dto: int, account: Account)
    requires RowsSound(b, dfrom, dto)
    ensures Net(SuspensePass(b, dfrom, dto), account)
         == Total(b.suspense, SuspenseMoves(account, RefundSent(b.txns), dfrom, dto))
  {
    var sent := RefundSent(b.txns);
    var lines, moves := SuspenseLines(sent, dfrom, dto), SuspenseMoves(account, sent, dfrom, dto);
    forall s | s in b.suspense ensures Net(lines(s), account) == moves(s) {
      SuspenseNet(s, sent, dfrom, dto, account);
    }
    TotalFlatMap(b.suspense, lines, NetOn(account), moves);
  }

  /** Cash, loans, suspense and interest move in an export exactly as the window's rows say. */
  lemma ExportMovesAccounts(b: Books, dfrom: int, dto: int, account: Account)
    requires RowsSound(b, dfrom, dto) && PlainAccount(account)
    ensures Net(GlLines(b, dfrom, dto), account) == Moves(b, dfrom, dto, account)
  {
    var d, r, l, s := DisbursementPass(b, dfrom, dto), RepaymentPass(b, dfrom, dto), LoanRefundPass(b, dfrom, dto),
                      SuspensePass(b, dfrom, dto);
    TxnPassesNet(b, dfrom, dto, account);
    SuspensePassNet(b, dfrom, dto, account);
    MovesOfQueries(b, dfrom, dto, account);
    var rows := RepaymentsIn(b, dfrom, dto);
    RepaymentsInMembers(b, dfrom, dto);
    RepaymentPassNet(b, dfrom, rows, |rows|, account);
    assert rows[..|rows|] == rows;
    TotalAppend(d + r + l, s, NetOn(account));
    TotalAppend(d + r, l, NetOn(account));
    TotalAppend(d, r, NetOn(account));
    TotalSort(UnsortedLines(b, dfrom, dto), LineLe, NetOn(account));
  }

  // ---------------------------------------------------------------- what its lines say

  /** The row's M-Pesa code, or one made of its id. */
  function ReferenceOf(code: string, prefix: string, id: int): Reference {
    if code == "" then Generated(prefix, id) else MpesaRef(code)
  }

  ghost predicate Stamped(lines: seq<Line>, timestamp: int, reference: Reference) {
    forall l :: l in lines ==> l.date == timestamp / 86_400_000_000 && l.reference == reference
  }

  /** Every line carries the date and reference of the row it books. */
  lemma TxnLinesStamped(t: Txn)
    ensures Stamped(DisbursementLines(t), t.createdAt, ReferenceOf(t.mpesaRef, "TXN", t.id))
    ensures Stamped(LoanRefundLines(t), t.createdAt, ReferenceOf(t.mpesaRef, "TXN", t.id))
  {
  }

  lemma RepaymentLinesStamped(r: Repayment, info: FeeTerms, paidBefore: Cents)
    ensures Stamped(RepaymentLines(r, info, paidBefore), r.paidAt, ReferenceOf(r.mpesaRef, "REP", r.id))
  {
    var reference := ReferenceOf(r.mpesaRef, "REP", r.id);
    assert Stamped(PlainLines(r), r.paidAt, reference);
    assert Stamped(FeeLines(r, info, paidBefore), r.paidAt, reference);
  }

  /** A suspense entry's receipt by the day it came in, its resolution by the day it left. */
  lemma SuspenseLinesStamped(s: SuspenseEntry, sent: Cents, dfrom: int, dto: int)
    ensures s.createdAt.Some? ==>
              Stamped(ReceiptLines(s, dfrom, dto), s.createdAt.value, ReferenceOf(s.mpesaRef, "SUS", s.id))
    ensures s.resolvedAt.Some? ==>
              Stamped(ResolutionLines(s, sent, dfrom, dto), s.resolvedAt.value, ReferenceOf(s.mpesaRef, "SUS", s.id))
  {
  }

  /** The export comes by date and, within a date, by account number. */
  lemma ExportSorted(b: Books, dfrom: int, dto: int)
    ensures var lines := GlLines(b, dfrom, dto);
            forall i, j :: 0 <= i < j < |lines| ==>
                             || lines[i].date < lines[j].date
                             || (lines[i].date == lines[j].date && Code(lines[i].account) <= Code(lines[j].account))
  {
    SortSorts(UnsortedLines(b, dfrom, dto), LineLe);
  }

  /** Lines level in date and account come as the passes added them: payouts, repayments, refunds, suspense. */
  lemma PassesInOrder(b: Books, dfrom: int, dto: int, l: Line)
    ensures Level(GlLines(b, dfrom, dto), LineLe, l)
         == Level(DisbursementPass(b, dfrom, dto), LineLe, l) + Level(RepaymentPass(b, dfrom, dto), LineLe, l)
            + Level(LoanRefundPass(b, dfrom, dto), LineLe, l) + Level(SuspensePass(b, dfrom, dto), LineLe, l)
  {
    var d, r, u, s := DisbursementPass(b, dfrom, dto), RepaymentPass(b, dfrom, dto), LoanRefundPass(b, dfrom, dto),
                      SuspensePass(b, dfrom, dto);
    SortStable(UnsortedLines(b, dfrom, dto), LineLe, l);
    FilterAppend(d + r + u, s, (z: Line) => Equiv(LineLe, z, l));
    FilterAppend(d + r, u, (z: Line) => Equiv(LineLe, z, l));
    FilterAppend(d, r, (z: Line) => Equiv(LineLe, z, l));
    LevelIs(d + r + u + s, l);
    LevelIs(d, l);
    LevelIs(r, l);
    LevelIs(u, l);
    LevelIs(s, l);
  }

  lemma {:induction false} LevelIs(lines: seq<Line>, l: Line)
    ensures Level(lines, LineLe, l) == Filter(lines, (z: Line) => Equiv(LineLe, z, l))
  {
    FilterSame(lines, z => Equiv(LineLe, z, l), (z: Line) => Equiv(LineLe, z, l));
  }

  lemma {:induction false} FilterSame<T>(s: seq<T>, p: T -> bool, q: T -> bool)
    requires forall x :: x in s ==> p(x) == q(x)
    ensures Filter(s, p) == Filter(s, q)
  {
    if s != [] {
      FilterSame(s[1..], p, q);
    }
  }

  /** Repayments are booked by the time they were paid and, at the same time, by their ids. */
  lemma RepaymentsOrdered(b: Books, dfrom: int, dto: int)
    ensures var rows := RepaymentsIn(b, dfrom, dto);
            forall i, j :: 0 <= i < j < |rows| ==>
                             || rows[i].paidAt < rows[j].paidAt
                             || (rows[i].paidAt == rows[j].paidAt && rows[i].id <= rows[j].id)
  {
    SortSorts(Filter(b.repayments, (r: Repayment) => InWindow(r.paidAt, dfrom, dto)), RepaymentLe);
  }
}
