/** Exporting consecutive windows gives the export of the whole, and exactly which stored fees would break that. */
module LedgerWindows {
  import opened Money
  import opened Sequences
  import opened StableSort
  import opened GeneralLedger
  import opened LedgerBalance
  import opened LedgerSplit

  function Early(m: int): Line -> bool {
    (l: Line) => l.date <= m
  }

  function Late(m: int): Line -> bool {
    (l: Line) => l.date > m
  }

  lemma WindowByDate(timestamp: int, dfrom: int, dto: int)
    ensures InWindow(timestamp, dfrom, dto) <==> dfrom <= Date(timestamp) <= dto
  {
  }

  // ---------------------------------------------------------------- passes over a plain query

  /** Keeping the lines of part of a query's rows is running the narrower query. */
  lemma QuerySplit<T>(s: seq<T>, f: T -> seq<Line>, whole: T -> bool, part: T -> bool, p: Line -> bool)
    requires forall x :: x in s && part(x) ==> whole(x) && forall l :: l in f(x) ==> p(l)
    requires forall x :: x in s && whole(x) && !part(x) ==> forall l :: l in f(x) ==> !p(l)
    ensures Filter(FlatMap(Filter(s, whole), f), p) == FlatMap(Filter(s, part), f)
  {
    var g, h := (x: T) => if whole(x) then f(x) else [], (x: T) => if part(x) then f(x) else [];
    FlatMapOfFilter(s, whole, f, g);
    FlatMapOfFilter(s, part, f, h);
    forall x | x in s ensures Filter(g(x), p) == h(x) {
      if part(x) {
        FilterAll(f(x), p);
      } else if whole(x) {
        FilterNone(f(x), p);
      }
    }
    FilterFlatMap(s, g, h, p);
  }

  lemma DisbursementDates(t: Txn)
    ensures forall l :: l in DisbursementLines(t) ==> l.date == Date(t.createdAt)
  {
  }

  lemma LoanRefundDates(t: Txn)
    ensures forall l :: l in LoanRefundLines(t) ==> l.date == Date(t.createdAt)
  {
  }

  lemma TxnPassesSplit(b: Books, dfrom: int, mid: int, dto: int)
    requires dfrom <= mid < dto
    ensures Filter(DisbursementPass(b, dfrom, dto), Early(mid)) == DisbursementPass(b, dfrom, mid)
    ensures Filter(DisbursementPass(b, dfrom, dto), Late(mid)) == DisbursementPass(b, mid + 1, dto)
    ensures Filter(LoanRefundPass(b, dfrom, dto), Early(mid)) == LoanRefundPass(b, dfrom, mid)
    ensures Filter(LoanRefundPass(b, dfrom, dto), Late(mid)) == LoanRefundPass(b, mid + 1, dto)
  {
    forall t: Txn
      ensures InWindow(t.createdAt, dfrom, dto) <==> dfrom <= Date(t.createdAt) <= dto
      ensures InWindow(t.createdAt, dfrom, mid) <==> dfrom <= Date(t.createdAt) <= mid
      ensures InWindow(t.createdAt, mid + 1, dto) <==> mid < Date(t.createdAt) <= dto
      ensures forall l :: l in DisbursementLines(t) ==> l.date == Date(t.createdAt)
      ensures forall l :: l in LoanRefundLines(t) ==> l.date == Date(t.createdAt)
    {
      DisbursementDates(t);
      LoanRefundDates(t);
    }
    QuerySplit(b.txns, DisbursementLines, t => IsDisbursement(t, dfrom, dto), t => IsDisbursement(t, dfrom, mid),
               Early(mid));
    QuerySplit(b.txns, DisbursementLines, t => IsDisbursement(t, dfrom, dto), t => IsDisbursement(t, mid + 1, dto),
               Late(mid));
    QuerySplit(b.txns, LoanRefundLines, t => IsLoanRefund(t, dfrom, dto), t => IsLoanRefund(t, dfrom, mid), Early(mid));
    QuerySplit(b.txns, LoanRefundLines, t => IsLoanRefund(t, dfrom, dto), t => IsLoanRefund(t, mid + 1, dto),
               Late(mid));
  }

  lemma ReceiptSplit(s: SuspenseEntry, dfrom: int, mid: int, dto: int)
    requires dfrom <= mid < dto
    ensures Filter(ReceiptLines(s, dfrom, dto), Early(mid)) == ReceiptLines(s, dfrom, mid)
    ensures Filter(ReceiptLines(s, dfrom, dto), Late(mid)) == ReceiptLines(s, mid + 1, dto)
  {
    if s.createdAt.Some? {
      WindowByDate(s.createdAt.value, dfrom, dto);
      WindowByDate(s.createdAt.value, dfrom, mid);
      WindowByDate(s.createdAt.value, mid + 1, dto);
      if ReceivedIn(s, dfrom, dto) {
        OneSide(ReceiptLines(s, dfrom, dto), Date(s.createdAt.value), mid);
      }
    }
  }

  lemma ResolutionSplit(s: SuspenseEntry, sent: Cents, dfrom: int, mid: int, dto: int)
    requires dfrom <= mid < dto
    ensures Filter(ResolutionLines(s, sent, dfrom, dto), Early(mid)) == ResolutionLines(s, sent, dfrom, mid)
    ensures Filter(ResolutionLines(s, sent, dfrom, dto), Late(mid)) == ResolutionLines(s, sent, mid + 1, dto)
  {
    if s.resolvedAt.Some? {
      WindowByDate(s.resolvedAt.value, dfrom, dto);
      WindowByDate(s.resolvedAt.value, dfrom, mid);
      WindowByDate(s.resolvedAt.value, mid + 1, dto);
      if ResolvedIn(s, dfrom, dto) {
        OneSide(ResolutionLines(s, sent, dfrom, dto), Date(s.resolvedAt.value), mid);
      }
    }
  }

  /** An entry received in one window and resolved in a later one puts each pair of lines where it belongs. */
  lemma SuspenseEntrySplit(s: SuspenseEntry, sent: map<int, Cents>, dfrom: int, mid: int, dto: int)
    requires dfrom <= mid < dto
    ensures Filter(SuspenseLines(sent, dfrom, dto)(s), Early(mid)) == SuspenseLines(sent, dfrom, mid)(s)
    ensures Filter(SuspenseLines(sent, dfrom, dto)(s), Late(mid)) == SuspenseLines(sent, mid + 1, dto)(s)
  {
    var cash := SentFor(s, sent);
    FilterAppend(ReceiptLines(s, dfrom, dto), ResolutionLines(s, cash, dfrom, dto), Early(mid));
    FilterAppend(ReceiptLines(s, dfrom, dto), ResolutionLines(s, cash, dfrom, dto), Late(mid));
    ReceiptSplit(s, dfrom, mid, dto);
    ResolutionSplit(s, cash, dfrom, mid, dto);
  }

  lemma OneSide(lines: seq<Line>, date: int, mid: int)
    requires forall l :: l in lines ==> l.date == date
    ensures date <= mid ==> Filter(lines, Early(mid)) == lines && Filter(lines, Late(mid)) == []
    ensures date > mid ==> Filter(lines, Early(mid)) == [] && Filter(lines, Late(mid)) == lines
  {
    if date <= mid {
      FilterAll(lines, Early(mid));
      FilterNone(lines, Late(mid));
    } else {
      FilterNone(lines, Early(mid));
      FilterAll(lines, Late(mid));
    }
  }

  lemma SuspensePassSplit(b: Books, dfrom: int, mid: int, dto: int)
    requires dfrom <= mid < dto
    ensures Filter(SuspensePass(b, dfrom, dto), Early(mid)) == SuspensePass(b, dfrom, mid)
    ensures Filter(SuspensePass(b, dfrom, dto), Late(mid)) == SuspensePass(b, mid + 1, dto)
  {
    var sent := RefundSent(b.txns);
    forall s | s in b.suspense
      ensures Filter(SuspenseLines(sent, dfrom, dto)(s), Early(mid)) == SuspenseLines(sent, dfrom, mid)(s)
      ensures Filter(SuspenseLines(sent, dfrom, dto)(s), Late(mid)) == SuspenseLines(sent, mid + 1, dto)(s)
    {
      SuspenseEntrySplit(s, sent, dfrom, mid, dto);
    }
    FilterFlatMap(b.suspense, SuspenseLines(sent, dfrom, dto), SuspenseLines(sent, dfrom, mid), Early(mid));
    FilterFlatMap(b.suspense, SuspenseLines(sent, dfrom, dto), SuspenseLines(sent, mid + 1, dto), Late(mid));
  }

  // ---------------------------------------------------------------- the repayments pass

  lemma RepaymentsSplit(b: Books, dfrom: int, mid: int, dto: int)
    requires dfrom <= mid < dto
    ensures RepaymentsIn(b, dfrom, dto) == RepaymentsIn(b, dfrom, mid) + RepaymentsIn(b, mid + 1, dto)
  {
    var whole := (r: Repayment) => InWindow(r.paidAt, dfrom, dto);
    var early, late := (r: Repayment) => Date(r.paidAt) <= mid, (r: Repayment) => !(Date(r.paidAt) <= mid);
    var rows := Filter(b.repayments, whole);
    FilterFilter(b.repayments, whole, early, (r: Repayment) => InWindow(r.paidAt, dfrom, mid));
    FilterFilter(b.repayments, whole, late, (r: Repayment) => InWindow(r.paidAt, mid + 1, dto));
    SortSplit(rows, RepaymentLe, early, late);
  }

  /** Fees stored before the later window: those stored before the earlier one, and those stored within it. */
  lemma PriorFeesSplit(b: Books, dfrom: int, mid: int, loanId: int)
    requires dfrom <= mid
    ensures PriorFees(b, mid + 1, loanId)
         == PriorFees(b, dfrom, loanId) + Total(RepaymentsIn(b, dfrom, mid), StoredFeeOf(loanId))
  {
    var inside := (r: Repayment) => InWindow(r.paidAt, dfrom, mid);
    TotalSort(Filter(b.repayments, inside), RepaymentLe, StoredFeeOf(loanId));
    TotalOfCases(b.repayments, (r: Repayment) => r.paidAt < (mid + 1) * DAY,
                 (r: Repayment) => r.paidAt < dfrom * DAY, inside,
                 StoredFeeOf(loanId));
  }

  lemma {:induction false} TotalOfCases<T>(s: seq<T>, either: T -> bool, p: T -> bool, q: T -> bool, f: T -> int)
    requires forall x :: x in s ==> !(p(x) && q(x)) && (either(x) <==> p(x) || q(x))
    ensures Total(Filter(s, either), f) == Total(Filter(s, p), f) + Total(Filter(s, q), f)
  {
    if s != [] {
      TotalOfCases(s[1..], either, p, q, f);
    }
  }

  /** No fee of loanId stored in [dfrom, mid] went unbooked. */
  ghost predicate FeesBookedAsStored(b: Books, dfrom: int, mid: int, loanId: int) {
    forall r :: r in b.repayments && InWindow(r.paidAt, dfrom, mid) && r.loanId == loanId ==> BookedFee(r) == r.fee
  }

  /** The lazily seeded total of the later window picks up where the earlier window's loop left it. */
  lemma SeedContinues(b: Books, dfrom: int, mid: int, loanId: int)
    requires dfrom <= mid && FeesBookedAsStored(b, dfrom, mid, loanId)
    ensures var rows := RepaymentsIn(b, dfrom, mid);
            PriorFees(b, mid + 1, loanId) == FeesPaidBefore(b, dfrom, rows, |rows|, loanId)
  {
    var rows := RepaymentsIn(b, dfrom, mid);
    PriorFeesSplit(b, dfrom, mid, loanId);
    RepaymentsInMembers(b, dfrom, mid);
    TotalEqual(rows, StoredFeeOf(loanId), BookedFeeOf(loanId));
    assert rows[..|rows|] == rows;
  }

  /** Every fee booked in the later window belongs to a loan none of whose earlier fees went unbooked. */
  ghost predicate FeesCarryOver(b: Books, dfrom: int, mid: int, dto: int) {
    forall r :: r in b.repayments && InWindow(r.paidAt, mid + 1, dto) && BookedFee(r) > 0
                ==> FeesBookedAsStored(b, dfrom, mid, r.loanId)
  }

  /** A row's lines depend on the rows before it only through what its loan had paid, and only if it books a fee. */
  lemma SameLines(b: Books, dfrom: int, rows: seq<Repayment>, i: nat, dfrom': int, rows': seq<Repayment>, i': nat)
    requires i < |rows| && i' < |rows'| && rows[i] == rows'[i']
    requires BookedFee(rows[i]) > 0 ==>
               FeesPaidBefore(b, dfrom, rows, i, rows[i].loanId) == FeesPaidBefore(b, dfrom', rows', i', rows[i].loanId)
    ensures LinesAt(b, dfrom, rows, i) == LinesAt(b, dfrom', rows', i')
  {
  }

  lemma FeesPaidContinue(b: Books, dfrom: int, mid: int, dto: int, i: nat, loanId: int)
    requires dfrom <= mid < dto && FeesBookedAsStored(b, dfrom, mid, loanId)
    requires i <= |RepaymentsIn(b, mid + 1, dto)|
    ensures var first, second := RepaymentsIn(b, dfrom, mid), RepaymentsIn(b, mid + 1, dto);
            FeesPaidBefore(b, dfrom, first + second, |first| + i, loanId)
            == FeesPaidBefore(b, mid + 1, second, i, loanId)
  {
    var first, second := RepaymentsIn(b, dfrom, mid), RepaymentsIn(b, mid + 1, dto);
    SeedContinues(b, dfrom, mid, loanId);
    assert (first + second)[..|first| + i] == first + second[..i];
    assert first[..|first|] == first;
    TotalAppend(first, second[..i], BookedFeeOf(loanId));
  }

  lemma SameLinesLater(b: Books, dfrom: int, mid: int, dto: int, i: nat)
    requires dfrom <= mid < dto && FeesCarryOver(b, dfrom, mid, dto)
    requires i < |RepaymentsIn(b, mid + 1, dto)|
    ensures var first, second := RepaymentsIn(b, dfrom, mid), RepaymentsIn(b, mid + 1, dto);
            LinesAt(b, dfrom, first + second, |first| + i) == LinesAt(b, mid + 1, second, i)
  {
    var first, second := RepaymentsIn(b, dfrom, mid), RepaymentsIn(b, mid + 1, dto);
    var r := second[i];
    assert (first + second)[|first| + i] == r;
    if BookedFee(r) > 0 {
      RepaymentsInMembers(b, mid + 1, dto);
      FeesPaidContinue(b, dfrom, mid, dto, i, r.loanId);
    }
    SameLines(b, dfrom, first + second, |first| + i, mid + 1, second, i);
  }

  /** The pass as the concatenation of its rows' lines. */
  function RowLines(b: Books, dfrom: int, rows: seq<Repayment>, n: nat): (r: seq<seq<Line>>)
    requires n <= |rows|
    ensures |r| == n
  {
    seq(n, i requires 0 <= i < n => LinesAt(b, dfrom, rows, i))
  }

  lemma {:induction false} PassIsJoined(b: Books, dfrom: int, rows: seq<Repayment>, n: nat)
    requires n <= |rows|
    ensures RepaymentPassTo(b, dfrom, rows, n) == FlatMap(RowLines(b, dfrom, rows, n), Identity)
  {
    if n > 0 {
      PassIsJoined(b, dfrom, rows, n - 1);
      assert RowLines(b, dfrom, rows, n)[..n - 1] == RowLines(b, dfrom, rows, n - 1);
    }
  }

  function Identity(lines: seq<Line>): seq<Line> {
    lines
  }

  lemma Rejoin(whole: seq<seq<Line>>, a: seq<seq<Line>>, c: seq<seq<Line>>)
    requires |whole| == |a| + |c|
    requires forall i :: 0 <= i < |a| ==> whole[i] == a[i]
    requires forall i :: 0 <= i < |c| ==> whole[|a| + i] == c[i]
    ensures whole == a + c
  {
  }

  lemma RowAt(b: Books, dfrom: int, rows: seq<Repayment>, n: nat, i: nat)
    requires i < n <= |rows|
    ensures RowLines(b, dfrom, rows, n)[i] == LinesAt(b, dfrom, rows, i)
  {
  }

  lemma SameLinesEarlier(b: Books, dfrom: int, first: seq<Repayment>, second: seq<Repayment>, i: nat)
    requires i < |first|
    ensures LinesAt(b, dfrom, first + second, i) == LinesAt(b, dfrom, first, i)
  {
    assert (first + second)[..i] == first[..i];
    SameLines(b, dfrom, first + second, i, dfrom, first, i);
  }

  lemma RowEarlier(b: Books, dfrom: int, first: seq<Repayment>, second: seq<Repayment>, i: nat)
    requires i < |first|
    ensures RowLines(b, dfrom, first + second, |first + second|)[i] == RowLines(b, dfrom, first, |first|)[i]
  {
    RowAt(b, dfrom, first + second, |first + second|, i);
    RowAt(b, dfrom, first, |first|, i);
    SameLinesEarlier(b, dfrom, first, second, i);
  }

  lemma RowLater(b: Books, dfrom: int, mid: int, dto: int, i: nat)
    requires dfrom <= mid < dto && FeesCarryOver(b, dfrom, mid, dto)
    requires i < |RepaymentsIn(b, mid + 1, dto)|
    ensures var first, second := RepaymentsIn(b, dfrom, mid), RepaymentsIn(b, mid + 1, dto);
            RowLines(b, dfrom, first + second, |first + second|)[|first| + i]
            == RowLines(b, mid + 1, second, |second|)[i]
  {
    var first, second := RepaymentsIn(b, dfrom, mid), RepaymentsIn(b, mid + 1, dto);
    RowAt(b, dfrom, first + second, |first + second|, |first| + i);
    RowAt(b, mid + 1, second, |second|, i);
    SameLinesLater(b, dfrom, mid, dto, i);
  }

  lemma RowLinesSplit(b: Books, dfrom: int, mid: int, dto: int)
    requires dfrom <= mid < dto && FeesCarryOver(b, dfrom, mid, dto)
    ensures var first, second := RepaymentsIn(b, dfrom, mid), RepaymentsIn(b, mid + 1, dto);
            RowLines(b, dfrom, first + second, |first + second|)
            == RowLines(b, dfrom, first, |first|) + RowLines(b, mid + 1, second, |second|)
  {
    var first, second := RepaymentsIn(b, dfrom, mid), RepaymentsIn(b, mid + 1, dto);
    var whole := RowLines(b, dfrom, first + second, |first + second|);
    var a, c := RowLines(b, dfrom, first, |first|), RowLines(b, mid + 1, second, |second|);
    forall i | 0 <= i < |a| ensures whole[i] == a[i] {
      RowEarlier(b, dfrom, first, second, i);
    }
    forall i | 0 <= i < |c| ensures whole[|a| + i] == c[i] {
      RowLater(b, dfrom, mid, dto, i);
    }
    Rejoin(whole, a, c);
  }

  lemma RepaymentPassContinues(b: Books, dfrom: int, mid: int, dto: int)
    requires dfrom <= mid < dto && FeesCarryOver(b, dfrom, mid, dto)
    ensures RepaymentPass(b, dfrom, dto) == RepaymentPass(b, dfrom, mid) + RepaymentPass(b, mid + 1, dto)
  {
    var first, second := RepaymentsIn(b, dfrom, mid), RepaymentsIn(b, mid + 1, dto);
    RepaymentsSplit(b, dfrom, mid, dto);
    RowLinesSplit(b, dfrom, mid, dto);
    PassIsJoined(b, dfrom, first + second, |first + second|);
    PassIsJoined(b, dfrom, first, |first|);
    PassIsJoined(b, mid + 1, second, |second|);
    FlatMapAppend(RowLines(b, dfrom, first, |first|), RowLines(b, mid + 1, second, |second|), Identity);
  }

  lemma LinesAtDate(b: Books, dfrom: int, rows: seq<Repayment>, i: nat)
    requires i < |rows|
    ensures forall l :: l in LinesAt(b, dfrom, rows, i) ==> l.date == Date(rows[i].paidAt)
  {
    var r := rows[i];
    var info, paid := FeeInfoOf(b, r.loanId), FeesPaidBefore(b, dfrom, rows, i, r.loanId);
    assert forall l :: l in PlainLines(r) ==> l.date == Date(r.paidAt);
    assert forall l :: l in FeeLines(r, info, paid) ==> l.date == Date(r.paidAt);
  }

  lemma {:induction false} RepaymentDates(b: Books, dfrom: int, rows: seq<Repayment>, n: nat, lo: int, hi: int)
    requires n <= |rows| && forall r :: r in rows ==> lo <= Date(r.paidAt) <= hi
    ensures forall l :: l in RepaymentPassTo(b, dfrom, rows, n) ==> lo <= l.date <= hi
  {
    if n > 0 {
      RepaymentDates(b, dfrom, rows, n - 1, lo, hi);
      var r := rows[n - 1];
      LinesAtDate(b, dfrom, rows, n - 1);
    }
  }

  lemma RepaymentPassDates(b: Books, dfrom: int, dto: int)
    ensures forall l :: l in RepaymentPass(b, dfrom, dto) ==> dfrom <= l.date <= dto
  {
    RepaymentsInMembers(b, dfrom, dto);
    var rows := RepaymentsIn(b, dfrom, dto);
    RepaymentDates(b, dfrom, rows, |rows|, dfrom, dto);
  }

  lemma RepaymentPassSplit(b: Books, dfrom: int, mid: int, dto: int)
    requires dfrom <= mid < dto && FeesCarryOver(b, dfrom, mid, dto)
    ensures Filter(RepaymentPass(b, dfrom, dto), Early(mid)) == RepaymentPass(b, dfrom, mid)
    ensures Filter(RepaymentPass(b, dfrom, dto), Late(mid)) == RepaymentPass(b, mid + 1, dto)
  {
    RepaymentPassContinues(b, dfrom, mid, dto);
    var first, second := RepaymentPass(b, dfrom, mid), RepaymentPass(b, mid + 1, dto);
    RepaymentPassDates(b, dfrom, mid);
    RepaymentPassDates(b, mid + 1, dto);
    FilterAppend(first, second, Early(mid));
    FilterAppend(first, second, Late(mid));
    FilterAll(first, Early(mid));
    FilterNone(second, Early(mid));
    FilterNone(first, Late(mid));
    FilterAll(second, Late(mid));
  }

  // ---------------------------------------------------------------- whole exports

  predicate Composes(b: Books, dfrom: int, mid: int, dto: int) {
    GlLines(b, dfrom, dto) == GlLines(b, dfrom, mid) + GlLines(b, mid + 1, dto)
  }

  /** Exporting [dfrom, mid] and then [mid + 1, dto] gives the very sequence of exporting [dfrom, dto]. */
  lemma WindowsCompose(b: Books, dfrom: int, mid: int, dto: int)
    requires dfrom <= mid < dto && FeesCarryOver(b, dfrom, mid, dto)
    ensures Composes(b, dfrom, mid, dto)
  {
    TxnPassesSplit(b, dfrom, mid, dto);
    RepaymentPassSplit(b, dfrom, mid, dto);
    SuspensePassSplit(b, dfrom, mid, dto);
    var d, r, l, s := DisbursementPass(b, dfrom, dto), RepaymentPass(b, dfrom, dto), LoanRefundPass(b, dfrom, dto),
                      SuspensePass(b, dfrom, dto);
    forall p | p == Early(mid) || p == Late(mid)
      ensures Filter(d + r + l + s, p) == Filter(d, p) + Filter(r, p) + Filter(l, p) + Filter(s, p)
    {
      FilterAppend(d + r + l, s, p);
      FilterAppend(d + r, l, p);
      FilterAppend(d, r, p);
    }
    SortSplit(UnsortedLines(b, dfrom, dto), LineLe, Early(mid), Late(mid));
  }

  /** A stored fee that is never booked: the row's components do not sum to its amount. */
  predicate FeeUnbooked(r: Repayment) {
    r.fee > 0 && !ComponentsSum(r)
  }

  /** Some fee is booked on a later day than an unbooked fee of the same loan. */
  ghost predicate FeeAfterUnbooked(repayments: seq<Repayment>) {
    exists x, y :: x in repayments && y in repayments && x.loanId == y.loanId && Date(x.paidAt) < Date(y.paidAt)
                   && FeeUnbooked(x) && BookedFee(y) > 0
  }

  ghost predicate AlwaysComposes(repayments: seq<Repayment>) {
    forall b: Books, dfrom: int, mid: int, dto: int ::
      b.repayments == repayments && dfrom <= mid < dto ==> Composes(b, dfrom, mid, dto)
  }

  /** Nothing booked in any window can follow an unbooked fee, so every export composes, whatever the loans' terms. */
  lemma NoFeeAfterUnbooked(repayments: seq<Repayment>)
    requires !FeeAfterUnbooked(repayments) && forall r :: r in repayments ==> r.fee >= 0
    ensures AlwaysComposes(repayments)
  {
    forall b: Books, dfrom: int, mid: int, dto: int | b.repayments == repayments && dfrom <= mid < dto
      ensures Composes(b, dfrom, mid, dto)
    {
      forall r | r in b.repayments && InWindow(r.paidAt, mid + 1, dto) && BookedFee(r) > 0
        ensures FeesBookedAsStored(b, dfrom, mid, r.loanId)
      {
        forall x | x in b.repayments && InWindow(x.paidAt, dfrom, mid) && x.loanId == r.loanId
          ensures BookedFee(x) == x.fee
        {
          WindowByDate(x.paidAt, dfrom, mid);
          WindowByDate(r.paidAt, mid + 1, dto);
          assert !FeeUnbooked(x);
        }
      }
      WindowsCompose(b, dfrom, mid, dto);
    }
  }

  /** In books holding nothing but repayments, what an export credits the loan's product fees with. */
  lemma RepaymentOnlyCredits(b: Books, dfrom: int, dto: int, loanId: int)
    requires b.txns == [] && b.suspense == [] && ShareWithinOne(FeeInfoOf(b, loanId))
    ensures var rows, inBalance := RepaymentsIn(b, dfrom, dto), FeeInfoOf(b, loanId).inBalance;
            Total(GlLines(b, dfrom, dto), CreditedTo(PRODUCT_FEES, loanId))
            == Min(FeesPaidBefore(b, dfrom, rows, |rows|, loanId), inBalance)
            - Min(PriorFees(b, dfrom, loanId), inBalance)
  {
    var rows := RepaymentsIn(b, dfrom, dto);
    assert UnsortedLines(b, dfrom, dto) == RepaymentPassTo(b, dfrom, rows, |rows|);
    SplitTelescopes(b, dfrom, rows, |rows|, loanId);
    TotalSort(UnsortedLines(b, dfrom, dto), LineLe, CreditedTo(PRODUCT_FEES, loanId));
  }

  /** The part of a window's booked fees that is fees in the balance. */
  function ProductCredited(b: Books, dfrom: int, dto: int, loanId: int): Cents {
    var inBalance, start := FeeInfoOf(b, loanId).inBalance, PriorFees(b, dfrom, loanId);
    Min(start + Total(RepaymentsIn(b, dfrom, dto), BookedFeeOf(loanId)), inBalance) - Min(start, inBalance)
  }

  lemma ExportCredits(b: Books, dfrom: int, dto: int, loanId: int)
    requires b.txns == [] && b.suspense == [] && ShareWithinOne(FeeInfoOf(b, loanId))
    ensures Total(GlLines(b, dfrom, dto), CreditedTo(PRODUCT_FEES, loanId)) == ProductCredited(b, dfrom, dto, loanId)
  {
    RepaymentOnlyCredits(b, dfrom, dto, loanId);
    var rows := RepaymentsIn(b, dfrom, dto);
    assert rows[..|rows|] == rows;
  }

  lemma {:induction false} TotalAtLeast<T>(s: seq<T>, f: T -> int, g: T -> int, member: T)
    requires forall x :: x in s ==> f(x) >= g(x)
    requires member in s
    ensures Total(s, f) >= Total(s, g) + f(member) - g(member)
  {
    if member == s[0] {
      TotalNotBelow(s[1..], f, g);
    } else {
      TotalAtLeast(s[1..], f, g, member);
    }
  }

  lemma {:induction false} TotalNotBelow<T>(s: seq<T>, f: T -> int, g: T -> int)
    requires forall x :: x in s ==> f(x) >= g(x)
    ensures Total(s, f) >= Total(s, g)
  {
    if s != [] {
      TotalNotBelow(s[1..], f, g);
    }
  }

  /** A member with a positive f makes a total of non-negative f's positive. */
  lemma {:induction false} TotalPositive<T>(s: seq<T>, f: T -> int, member: T)
    requires forall x :: x in s ==> f(x) >= 0
    requires member in s && f(member) > 0
    ensures Total(s, f) > 0
  {
    if member == s[0] {
      TotalNotNegative(s[1..], f);
    } else {
      TotalPositive(s[1..], f, member);
    }
  }

  lemma BookedAfter(b: Books, dto: int, y: Repayment)
    requires y in b.repayments && Date(y.paidAt) == dto && BookedFee(y) > 0
    ensures Total(RepaymentsIn(b, dto, dto), BookedFeeOf(y.loanId)) > 0
  {
    RepaymentsInMembers(b, dto, dto);
    WindowByDate(y.paidAt, dto, dto);
    TotalPositive(RepaymentsIn(b, dto, dto), BookedFeeOf(y.loanId), y);
  }

  lemma StoredBeyondBooked(b: Books, dfrom: int, mid: int, x: Repayment)
    requires forall r :: r in b.repayments ==> r.fee >= 0
    requires dfrom == Date(x.paidAt) <= mid && x in b.repayments && FeeUnbooked(x)
    ensures var rows := RepaymentsIn(b, dfrom, mid);
            PriorFees(b, mid + 1, x.loanId) > PriorFees(b, dfrom, x.loanId) + Total(rows, BookedFeeOf(x.loanId))
  {
    var rows := RepaymentsIn(b, dfrom, mid);
    RepaymentsInMembers(b, dfrom, mid);
    PriorFeesSplit(b, dfrom, mid, x.loanId);
    WindowByDate(x.paidAt, dfrom, mid);
    TotalAtLeast(rows, StoredFeeOf(x.loanId), BookedFeeOf(x.loanId), x);
  }

  /** The parts hold more fees in the balance than the whole, when they are all stored, but not all booked, by mid. */
  lemma PartsCreditMore(b: Books, dfrom: int, mid: int, dto: int, loanId: int)
    requires dfrom <= mid < dto
    requires FeeInfoOf(b, loanId).inBalance == PriorFees(b, mid + 1, loanId)
    requires PriorFees(b, dfrom, loanId) + Total(RepaymentsIn(b, dfrom, mid), BookedFeeOf(loanId))
           < PriorFees(b, mid + 1, loanId)
    requires Total(RepaymentsIn(b, mid + 1, dto), BookedFeeOf(loanId)) > 0
    ensures ProductCredited(b, dfrom, dto, loanId)
          > ProductCredited(b, dfrom, mid, loanId) + ProductCredited(b, mid + 1, dto, loanId)
  {
    RepaymentsSplit(b, dfrom, mid, dto);
    TotalAppend(RepaymentsIn(b, dfrom, mid), RepaymentsIn(b, mid + 1, dto), BookedFeeOf(loanId));
  }

  lemma CreditsDiffer(b: Books, dfrom: int, mid: int, dto: int, loanId: int)
    requires b.txns == [] && b.suspense == [] && ShareWithinOne(FeeInfoOf(b, loanId))
    requires ProductCredited(b, dfrom, dto, loanId)
          != ProductCredited(b, dfrom, mid, loanId) + ProductCredited(b, mid + 1, dto, loanId)
    ensures !Composes(b, dfrom, mid, dto)
  {
    ExportCredits(b, dfrom, dto, loanId);
    ExportCredits(b, dfrom, mid, loanId);
    ExportCredits(b, mid + 1, dto, loanId);
    TotalAppend(GlLines(b, dfrom, mid), GlLines(b, mid + 1, dto), CreditedTo(PRODUCT_FEES, loanId));
  }

  /**
    * The windows that split just before the booked fee's day, for a loan whose fees in the balance are all stored by
    * then.
    */
  lemma FeeAfterUnbookedBreaks(repayments: seq<Repayment>, x: Repayment, y: Repayment) returns (b: Books)
    requires forall r :: r in repayments ==> r.fee >= 0
    requires x in repayments && y in repayments && x.loanId == y.loanId && Date(x.paidAt) < Date(y.paidAt)
    requires FeeUnbooked(x) && BookedFee(y) > 0
    ensures b.repayments == repayments
    ensures !Composes(b, Date(x.paidAt), Date(y.paidAt) - 1, Date(y.paidAt))
  {
    var mid := Date(y.paidAt) - 1;
    var stored := PriorFees(Books([], repayments, [], map[]), mid + 1, x.loanId);
    b := Books([], repayments, [], map[x.loanId := LoanTerms(stored, 1, 0)]);
    assert PriorFees(b, mid + 1, x.loanId) == stored;
    StoredBeyondBooked(b, Date(x.paidAt), mid, x);
    BookedAfter(b, mid + 1, y);
    PartsCreditMore(b, Date(x.paidAt), mid, mid + 1, x.loanId);
    CreditsDiffer(b, Date(x.paidAt), mid, mid + 1, x.loanId);
  }

  /** Exactly when every pair of adjacent windows composes, whatever else the books hold. */
  lemma ComposesIffNoFeeAfterUnbooked(repayments: seq<Repayment>)
    requires forall r :: r in repayments ==> r.fee >= 0
    ensures AlwaysComposes(repayments) <==> !FeeAfterUnbooked(repayments)
  {
    if FeeAfterUnbooked(repayments) {
      var x, y :| x in repayments && y in repayments && x.loanId == y.loanId && Date(x.paidAt) < Date(y.paidAt)
                  && FeeUnbooked(x) && BookedFee(y) > 0;
      var b := FeeAfterUnbookedBreaks(repayments, x, y);
    } else {
      NoFeeAfterUnbooked(repayments);
    }
  }
}
