/**
  * The AML scan (backend/app/services/aml.py): sliding windows over one loan's sorted repayments, against what they are
  * meant to find in the unsorted group.
  */
module AmlScan {
  import opened Money
  import opened Sequences
  import opened StableSort

  /** at is a timestamp in microseconds. */
  datatype Repayment = Repayment(loanId: int, borrowerId: int, amount: Cents, at: int)

  datatype FlagType = Structuring | RapidSmall | Velocity
  datatype Severity = High | Medium
  datatype Flag = Flag(loanId: int, borrowerId: int, kind: FlagType, severity: Severity)

  const HOUR: int := 3_600_000_000
  const REPORT_THRESHOLD: Cents := 1_000_000
  const STRUCT_LO: Cents := 800_000
  const SMALL: Cents := 200_000
  const VELOCITY_LIMIT: Cents := 10_000_000

  function TimeLe(x: int, y: int): bool {
    x <= y
  }

  function TimesOf(rows: seq<Repayment>): seq<int> {
    Map(rows, (r: Repayment) => r.at)
  }

  // ---------------------------------------------------------------- k payments within a span

  /** Some k distinct payments lie pairwise within the span. */
  ghost predicate Clustered(times: seq<int>, k: nat, span: int) {
    exists chosen: set<nat> :: |chosen| == k && CloseTogether(times, chosen, span)
  }

  ghost predicate CloseTogether(times: seq<int>, chosen: set<nat>, span: int) {
    && (forall i :: i in chosen ==> i < |times|)
    && (forall i, j :: i in chosen && j in chosen ==> times[i] - times[j] <= span)
  }

  /** What the scan looks for in the sorted times: some i with sorted[i + k - 1] - sorted[i] <= span. */
  predicate BurstAt(sorted: seq<int>, k: nat, span: int, i: nat) {
    k > 0 && i + k - 1 < |sorted| && sorted[i + k - 1] - sorted[i] <= span
  }

  predicate Burst(sorted: seq<int>, k: nat, span: int) {
    exists i: nat :: i < |sorted| && BurstAt(sorted, k, span, i)
  }

  method FindBurst(sorted: seq<int>, k: nat, span: int) returns (found: bool)
    requires k > 0
    ensures found <==> Burst(sorted, k, span)
  {
    var i := 0;
    while i + k <= |sorted|
      invariant forall j: nat :: j < i ==> !BurstAt(sorted, k, span, j)
    {
      if sorted[i + k - 1] - sorted[i] <= span {
        assert BurstAt(sorted, k, span, i);
        return true;
      }
      i := i + 1;
    }
    return false;
  }

  function Within(lo: int, hi: int): int -> int {
    (t: int) => if lo <= t <= hi then 1 else 0
  }

  function CountIn(times: seq<int>, lo: int, hi: int): int {
    Total(times, Within(lo, hi))
  }

  ghost predicate CrowdedFrom(times: seq<int>, k: nat, span: int, start: int) {
    CountIn(times, start, start + span) >= k
  }

  lemma {:induction false} CountBounds(times: seq<int>, lo: int, hi: int)
    ensures 0 <= CountIn(times, lo, hi) <= |times|
  {
    if times != [] {
      CountBounds(times[1..], lo, hi);
    }
  }

  lemma {:induction false} CountNone(times: seq<int>, lo: int, hi: int)
    requires forall i :: 0 <= i < |times| ==> times[i] > hi
    ensures CountIn(times, lo, hi) == 0
  {
    if times != [] {
      CountNone(times[1..], lo, hi);
    }
  }

  lemma {:induction false} CountFull(times: seq<int>, lo: int, hi: int)
    requires forall i :: 0 <= i < |times| ==> lo <= times[i] <= hi
    ensures CountIn(times, lo, hi) == |times|
  {
    if times != [] {
      CountFull(times[1..], lo, hi);
    }
  }

  /** Sorted times without a burst leave every span short of k payments. */
  lemma {:induction false} NoBurstNoCrowd(sorted: seq<int>, k: nat, span: int, lo: int)
    requires k > 0 && Sorted(sorted, TimeLe) && !Burst(sorted, k, span)
    ensures CountIn(sorted, lo, lo + span) < k
  {
    if sorted == [] {
      return;
    }
    if sorted[0] < lo {
      forall i: nat | i < |sorted[1..]| ensures !BurstAt(sorted[1..], k, span, i) {
        assert !BurstAt(sorted, k, span, i + 1);
      }
      NoBurstNoCrowd(sorted[1..], k, span, lo);
    } else if |sorted| < k {
      CountBounds(sorted, lo, lo + span);
    } else {
      assert !BurstAt(sorted, k, span, 0);
      var head, tail := sorted[..k - 1], sorted[k - 1..];
      assert sorted == head + tail;
      TotalAppend(head, tail, Within(lo, lo + span));
      CountBounds(head, lo, lo + span);
      assert TimeLe(sorted[0], sorted[k - 1]);
      forall j | 0 <= j < |tail| ensures tail[j] > lo + span {
        assert j > 0 ==> TimeLe(sorted[k - 1], sorted[k - 1 + j]);
      }
      CountNone(tail, lo, lo + span);
    }
  }

  lemma BurstCrowds(sorted: seq<int>, k: nat, span: int, i: nat)
    requires Sorted(sorted, TimeLe) && BurstAt(sorted, k, span, i)
    ensures CrowdedFrom(sorted, k, span, sorted[i])
  {
    var lo, hi := sorted[i], sorted[i] + span;
    var before, run, after := sorted[..i], sorted[i..i + k], sorted[i + k..];
    assert sorted == before + run + after;
    TotalAppend(before + run, after, Within(lo, hi));
    TotalAppend(before, run, Within(lo, hi));
    CountBounds(before, lo, hi);
    CountBounds(after, lo, hi);
    forall j | 0 <= j < |run| ensures lo <= run[j] <= hi {
      assert j > 0 ==> TimeLe(sorted[i], sorted[i + j]);
      assert j < k - 1 ==> TimeLe(sorted[i + j], sorted[i + k - 1]);
    }
    CountFull(run, lo, hi);
  }

  /** Distinct indices whose times are within [lo, hi] are no more than the count. */
  lemma {:induction false} ChosenCounted(times: seq<int>, chosen: set<nat>, lo: int, hi: int)
    requires forall i :: i in chosen ==> i < |times| && lo <= times[i] <= hi
    ensures |chosen| <= CountIn(times, lo, hi)
  {
    if times == [] {
      assert chosen == {};
    } else {
      var n := |times| - 1;
      var rest := chosen - {n};
      ChosenCounted(times[..n], rest, lo, hi);
      assert times == times[..n] + [times[n]];
      TotalAppend(times[..n], [times[n]], Within(lo, hi));
      assert Total([times[n]], Within(lo, hi)) == Within(lo, hi)(times[n]);
      if n in chosen {
        assert chosen == rest + {n};
      } else {
        assert chosen == rest;
      }
    }
  }

  /** A count of at least k yields k distinct indices. */
  lemma {:induction false} ChooseCounted(times: seq<int>, k: nat, lo: int, hi: int) returns (chosen: set<nat>)
    requires CountIn(times, lo, hi) >= k
    ensures |chosen| == k && forall i :: i in chosen ==> i < |times| && lo <= times[i] <= hi
  {
    if k == 0 {
      return {};
    }
    var n := |times| - 1;
    assert times != [];
    assert times == times[..n] + [times[n]];
    TotalAppend(times[..n], [times[n]], Within(lo, hi));
    assert Total([times[n]], Within(lo, hi)) == Within(lo, hi)(times[n]);
    if lo <= times[n] <= hi {
      chosen := ChooseCounted(times[..n], k - 1, lo, hi);
      chosen := chosen + {n};
    } else {
      chosen := ChooseCounted(times[..n], k, lo, hi);
    }
  }

  lemma {:induction false} EarliestOf(times: seq<int>, chosen: set<nat>) returns (m: nat)
    requires chosen != {} && forall i :: i in chosen ==> i < |times|
    ensures m in chosen && forall i :: i in chosen ==> times[m] <= times[i]
  {
    var first :| first in chosen;
    var rest := chosen - {first};
    m := first;
    if rest != {} {
      var other := EarliestOf(times, rest);
      if times[other] < times[first] {
        m := other;
      }
    }
    forall i | i in chosen ensures times[m] <= times[i] {
      assert i == first || i in rest;
    }
  }

  lemma ClusteredIffCrowded(times: seq<int>, k: nat, span: int)
    requires k > 0
    ensures Clustered(times, k, span) <==> exists start :: CrowdedFrom(times, k, span, start)
  {
    if Clustered(times, k, span) {
      var chosen: set<nat> :| |chosen| == k && CloseTogether(times, chosen, span);
      var m := EarliestOf(times, chosen);
      ChosenCounted(times, chosen, times[m], times[m] + span);
      assert CrowdedFrom(times, k, span, times[m]);
    }
    if exists start :: CrowdedFrom(times, k, span, start) {
      var start :| CrowdedFrom(times, k, span, start);
      var chosen := ChooseCounted(times, k, start, start + span);
      assert CloseTogether(times, chosen, span);
    }
  }

  /** The scan of the sorted times is sound and complete for the unsorted group. */
  lemma BurstIffClustered(times: seq<int>, k: nat, span: int)
    requires k > 0
    ensures Burst(Sort(times, TimeLe), k, span) <==> Clustered(times, k, span)
  {
    var sorted := Sort(times, TimeLe);
    SortSorts(times, TimeLe);
    forall start ensures CrowdedFrom(sorted, k, span, start) <==> CrowdedFrom(times, k, span, start) {
      TotalSort(times, TimeLe, Within(start, start + span));
    }
    ClusteredIffCrowded(times, k, span);
    if Burst(sorted, k, span) {
      var i: nat :| i < |sorted| && BurstAt(sorted, k, span, i);
      BurstCrowds(sorted, k, span, i);
    } else {
      forall start ensures !CrowdedFrom(times, k, span, start) {
        NoBurstNoCrowd(sorted, k, span, start);
        assert !CrowdedFrom(sorted, k, span, start);
      }
    }
  }

  // ---------------------------------------------------------------- velocity

  const DAY_SPAN: int := 24 * HOUR

  function AmountIn(lo: int, hi: int): Repayment -> int {
    (r: Repayment) => if lo <= r.at <= hi then r.amount else 0
  }

  function WindowSum(rows: seq<Repayment>, start: int): Cents {
    Total(rows, AmountIn(start, start + DAY_SPAN))
  }

  /** What the scan computes: some 24 h window that starts at a payment exceeds the limit. */
  predicate FastFromAPayment(rows: seq<Repayment>) {
    exists i :: 0 <= i < |rows| && WindowSum(rows, rows[i].at) > VELOCITY_LIMIT
  }

  ghost predicate FastSomewhere(rows: seq<Repayment>) {
    exists start :: WindowSum(rows, start) > VELOCITY_LIMIT
  }

  ghost predicate AmountsNonNegative(rows: seq<Repayment>) {
    forall r :: r in rows ==> r.amount >= 0
  }

  lemma {:induction false} SumAtMost(rows: seq<Repayment>, f: Repayment -> int, g: Repayment -> int)
    requires forall r :: r in rows ==> f(r) <= g(r)
    ensures Total(rows, f) <= Total(rows, g)
  {
    if rows != [] {
      SumAtMost(rows[1..], f, g);
    }
  }

  lemma {:induction false} PaidIn(rows: seq<Repayment>, lo: int, hi: int) returns (i: nat)
    requires Total(rows, AmountIn(lo, hi)) != 0
    ensures i < |rows| && lo <= rows[i].at <= hi
  {
    if lo <= rows[0].at <= hi {
      i := 0;
    } else {
      i := PaidIn(rows[1..], lo, hi);
      i := i + 1;
    }
  }

  /** Windows that start at a payment are enough: one exceeds the limit exactly when some window anywhere does. */
  lemma VelocityIffSomewhere(rows: seq<Repayment>)
    requires AmountsNonNegative(rows)
    ensures FastFromAPayment(rows) <==> FastSomewhere(rows)
  {
    if FastSomewhere(rows) {
      var start :| WindowSum(rows, start) > VELOCITY_LIMIT;
      var end := start + DAY_SPAN;
      var some := PaidIn(rows, start, end);
      var chosen := set i: nat | i < |rows| && start <= rows[i].at <= end;
      assert some in chosen;
      var m := EarliestOf(TimesOf(rows), chosen);
      var first := rows[m].at;
      forall r | r in rows ensures AmountIn(start, end)(r) <= AmountIn(first, first + DAY_SPAN)(r) {
        var i :| 0 <= i < |rows| && rows[i] == r;
        if start <= r.at <= end {
          assert i in chosen;
          assert TimesOf(rows)[m] <= TimesOf(rows)[i];
        }
      }
      SumAtMost(rows, AmountIn(start, end), AmountIn(first, first + DAY_SPAN));
      assert WindowSum(rows, rows[m].at) > VELOCITY_LIMIT;
    }
  }

  method SumWindow(rows: seq<Repayment>, start: int) returns (sum: Cents)
    ensures sum == WindowSum(rows, start)
  {
    sum := 0;
    for i := 0 to |rows|
      invariant sum == Total(rows[..i], AmountIn(start, start + DAY_SPAN))
    {
      TotalStep(rows, AmountIn(start, start + DAY_SPAN), i);
      if start <= rows[i].at <= start + DAY_SPAN {
        sum := sum + rows[i].amount;
      }
    }
    assert rows[..|rows|] == rows;
  }

  method FindFastWindow(rows: seq<Repayment>) returns (found: bool)
    ensures found <==> FastFromAPayment(rows)
  {
    for i := 0 to |rows|
      invariant forall j :: 0 <= j < i ==> WindowSum(rows, rows[j].at) <= VELOCITY_LIMIT
    {
      var sum := SumWindow(rows, rows[i].at);
      if sum > VELOCITY_LIMIT {
        return true;
      }
    }
    return false;
  }

  // ---------------------------------------------------------------- one loan's group

  predicate AtLe(x: Repayment, y: Repayment) {
    x.at <= y.at
  }

  function Group(rows: seq<Repayment>, loanId: int): seq<Repayment> {
    Filter(rows, (r: Repayment) => r.loanId == loanId)
  }

  predicate SubThreshold(r: Repayment) {
    STRUCT_LO <= r.amount < REPORT_THRESHOLD
  }

  predicate IsSmall(r: Repayment) {
    r.amount < SMALL
  }

  /** What each rule is about, on the group in whatever order it was read. */
  ghost predicate Suspicious(group: seq<Repayment>, kind: FlagType) {
    match kind
    case Structuring => Clustered(TimesOf(Filter(group, SubThreshold)), 3, 48 * HOUR)
    case RapidSmall => Clustered(TimesOf(Filter(group, IsSmall)), 5, 24 * HOUR)
    case Velocity => |group| >= 2 && FastSomewhere(group)
  }

  /** k payments are clustered when all of them lie within the span. */
  lemma ClusteredAll(times: seq<int>, span: int)
    ensures Clustered(times, |times|, span)
       <==> forall i, j :: 0 <= i < |times| && 0 <= j < |times| ==> times[i] - times[j] <= span
  {
    var all := Indices(|times|);
    if Clustered(times, |times|, span) {
      var chosen: set<nat> :| |chosen| == |times| && CloseTogether(times, chosen, span);
      SubsetFull(chosen, all);
    } else {
      assert |all| == |times|;
      assert !CloseTogether(times, all, span);
    }
  }

  function Indices(n: nat): (s: set<nat>)
    ensures |s| == n && forall i: nat :: i in s <==> i < n
  {
    if n == 0 then {} else Indices(n - 1) + {n - 1}
  }

  lemma SubsetFull(a: set<nat>, b: set<nat>)
    requires a <= b && |a| == |b|
    ensures a == b
  {
    if a != b {
      var x :| x in b && x !in a;
      SubsetCard(a, b - {x});
    }
  }

  lemma {:induction false} SubsetCard(a: set<nat>, b: set<nat>)
    requires a <= b
    ensures |a| <= |b|
  {
    if a != {} {
      var x :| x in a;
      SubsetCard(a - {x}, b - {x});
    }
  }

  /** Three payments of one amount: structuring from KES 8,000 to just below 10,000, all within 48 hours. */
  lemma StructuringIs(loanId: int, borrowerId: int, amount: Cents, t1: int, t2: int, t3: int)
    requires t1 <= t2 <= t3
    ensures Suspicious([Repayment(loanId, borrowerId, amount, t1), Repayment(loanId, borrowerId, amount, t2),
                        Repayment(loanId, borrowerId, amount, t3)], Structuring)
       <==> 800_000 <= amount < 1_000_000 && t3 - t1 <= 172_800_000_000
  {
    var group := [Repayment(loanId, borrowerId, amount, t1), Repayment(loanId, borrowerId, amount, t2),
                  Repayment(loanId, borrowerId, amount, t3)];
    var times := [t1, t2, t3];
    if 800_000 <= amount < 1_000_000 {
      FilterAll(group, SubThreshold);
      assert TimesOf(Filter(group, SubThreshold)) == times && |times| == 3;
      ClusteredAll(times, 48 * HOUR);
      assert times[2] - times[0] == t3 - t1;
    } else {
      FilterNone(group, SubThreshold);
      ClusteredShort([], 3, 48 * HOUR);
    }
  }

  /** Five payments of one amount: rapid small repayments below KES 2,000, all within 24 hours. */
  lemma RapidSmallIs(loanId: int, borrowerId: int, amount: Cents, t1: int, t2: int, t3: int, t4: int, t5: int)
    requires t1 <= t2 <= t3 <= t4 <= t5
    ensures Suspicious(Map([t1, t2, t3, t4, t5], t => Repayment(loanId, borrowerId, amount, t)), RapidSmall)
       <==> amount < 200_000 && t5 - t1 <= 86_400_000_000
  {
    var times := [t1, t2, t3, t4, t5];
    var group := Map(times, t => Repayment(loanId, borrowerId, amount, t));
    assert forall r :: r in group ==> r.amount == amount;
    if amount < 200_000 {
      FilterAll(group, IsSmall);
      assert TimesOf(Filter(group, IsSmall)) == times && |times| == 5;
      ClusteredAll(times, 24 * HOUR);
      assert times[4] - times[0] == t5 - t1;
    } else {
      FilterNone(group, IsSmall);
      ClusteredShort([], 5, 24 * HOUR);
    }
  }

  lemma ClusteredShort(times: seq<int>, k: nat, span: int)
    requires |times| < k
    ensures !Clustered(times, k, span)
  {
    var all := Indices(|times|);
    forall chosen: set<nat> | |chosen| == k ensures !CloseTogether(times, chosen, span) {
      if CloseTogether(times, chosen, span) {
        SubsetCard(chosen, all);
      }
    }
  }

  /** Two payments: velocity if they sum to more than KES 100,000 within 24 hours, or one of them alone is more. */
  lemma VelocityIs(loanId: int, borrowerId: int, a: Cents, t1: int, b: Cents, t2: int)
    requires a >= 0 && b >= 0 && t1 <= t2
    ensures Suspicious([Repayment(loanId, borrowerId, a, t1), Repayment(loanId, borrowerId, b, t2)], Velocity)
       <==> a > 10_000_000 || b > 10_000_000 || (a + b > 10_000_000 && t2 - t1 <= 86_400_000_000)
  {
    var group := [Repayment(loanId, borrowerId, a, t1), Repayment(loanId, borrowerId, b, t2)];
    VelocityIffSomewhere(group);
    assert group[1..] == [group[1]];
    forall start
      ensures WindowSum(group, start)
           == AmountIn(start, start + DAY_SPAN)(group[0]) + AmountIn(start, start + DAY_SPAN)(group[1])
    {
      TotalOne(group[1], AmountIn(start, start + DAY_SPAN));
    }
    assert group[0].at == t1 && group[1].at == t2;
  }

  lemma {:induction false} SumPermuted(group: seq<Repayment>, start: int)
    ensures WindowSum(Sort(group, AtLe), start) == WindowSum(group, start)
  {
    TotalSort(group, AtLe, AmountIn(start, start + DAY_SPAN));
  }

  /** Sorting the group first changes neither whether a window starting at a payment is fast nor anything else here. */
  lemma FastSorted(group: seq<Repayment>)
    ensures FastFromAPayment(Sort(group, AtLe)) <==> FastFromAPayment(group)
  {
    var sorted := Sort(group, AtLe);
    forall start ensures WindowSum(sorted, start) == WindowSum(group, start) {
      SumPermuted(group, start);
    }
    forall r ensures r in sorted <==> r in group {
      SortMembers(group, AtLe, r);
    }
    if FastFromAPayment(sorted) {
      var i :| 0 <= i < |sorted| && WindowSum(sorted, sorted[i].at) > VELOCITY_LIMIT;
      assert sorted[i] in group;
      var j :| 0 <= j < |group| && group[j] == sorted[i];
      assert WindowSum(group, group[j].at) > VELOCITY_LIMIT;
    }
    if FastFromAPayment(group) {
      var i :| 0 <= i < |group| && WindowSum(group, group[i].at) > VELOCITY_LIMIT;
      assert group[i] in sorted;
      var j :| 0 <= j < |sorted| && sorted[j] == group[i];
      assert WindowSum(sorted, sorted[j].at) > VELOCITY_LIMIT;
    }
  }

  /** The three checks of the loop body, on the sorted group. */
  method CheckGroup(group: seq<Repayment>) returns (structuring: bool, rapid: bool, velocity: bool)
    requires AmountsNonNegative(group)
    ensures structuring <==> Suspicious(group, Structuring)
    ensures rapid <==> Suspicious(group, RapidSmall)
    ensures velocity <==> Suspicious(group, Velocity)
  {
    structuring, rapid, velocity := false, false, false;
    var sub, small := TimesOf(Filter(group, SubThreshold)), TimesOf(Filter(group, IsSmall));
    BurstIffClustered(sub, 3, 48 * HOUR);
    BurstIffClustered(small, 5, 24 * HOUR);
    if |sub| >= 3 {
      structuring := FindBurst(Sort(sub, TimeLe), 3, 48 * HOUR);
    }
    if |small| >= 5 {
      rapid := FindBurst(Sort(small, TimeLe), 5, 24 * HOUR);
    }
    FastSorted(group);
    VelocityIffSomewhere(group);
    if |group| >= 2 {
      velocity := FindFastWindow(Sort(group, AtLe));
    }
  }

  // ---------------------------------------------------------------- the scan

  /** The loans with repayments, each once, ascending, as groupby yields them. */
  function InsertId(id: int, ids: seq<int>): seq<int> {
    if ids == [] || id < ids[0] then [id] + ids
    else if id == ids[0] then ids
    else [ids[0]] + InsertId(id, ids[1..])
  }

  function LoanIds(rows: seq<Repayment>): seq<int> {
    if rows == [] then [] else InsertId(rows[0].loanId, LoanIds(rows[1..]))
  }

  ghost predicate Ascending(ids: seq<int>) {
    forall i, j :: 0 <= i < j < |ids| ==> ids[i] < ids[j]
  }

  lemma {:induction false} InsertIdKeeps(id: int, ids: seq<int>)
    requires Ascending(ids)
    ensures Ascending(InsertId(id, ids)) && forall x :: x in InsertId(id, ids) <==> x == id || x in ids
  {
    if ids != [] {
      if id > ids[0] {
        InsertIdKeeps(id, ids[1..]);
        assert ids == [ids[0]] + ids[1..];
        forall x | x in ids[1..] ensures x > ids[0] {
        }
      } else if id < ids[0] {
        forall x | x in ids ensures x >= ids[0] {
        }
      }
    }
  }

  lemma {:induction false} LoanIdsSound(rows: seq<Repayment>)
    ensures Ascending(LoanIds(rows))
    ensures forall id :: id in LoanIds(rows) <==> Group(rows, id) != []
  {
    if rows != [] {
      LoanIdsSound(rows[1..]);
      InsertIdKeeps(rows[0].loanId, LoanIds(rows[1..]));
    }
  }

  function SeverityOf(kind: FlagType): Severity {
    if kind == RapidSmall then Medium else High
  }

  predicate HasFlag(flags: seq<Flag>, loanId: int, kind: FlagType) {
    exists f :: f in flags && f.loanId == loanId && f.kind == kind
  }

  /** No loan has two flags of one type. */
  ghost predicate OnePerType(flags: seq<Flag>) {
    forall i, j :: 0 <= i < j < |flags| ==> flags[i].loanId != flags[j].loanId || flags[i].kind != flags[j].kind
  }

  lemma AddedFlag(flags: seq<Flag>, f: Flag)
    ensures forall id, kind :: HasFlag(flags + [f], id, kind)
                               <==> HasFlag(flags, id, kind) || (id == f.loanId && kind == f.kind)
    ensures OnePerType(flags) && !HasFlag(flags, f.loanId, f.kind) ==> OnePerType(flags + [f])
  {
    forall id, kind
      ensures HasFlag(flags + [f], id, kind) <==> HasFlag(flags, id, kind) || (id == f.loanId && kind == f.kind)
    {
      if HasFlag(flags, id, kind) {
        var g :| g in flags && g.loanId == id && g.kind == kind;
        assert g in flags + [f];
      }
      assert f in flags + [f];
    }
    assert forall g :: g in flags ==> !HasFlag(flags, f.loanId, f.kind) ==> g.loanId != f.loanId || g.kind != f.kind;
  }

  /** Every loan with repayments has every flag its group deserves. */
  ghost predicate NothingToAdd(rows: seq<Repayment>, flags: seq<Flag>) {
    forall id, kind :: Group(rows, id) != [] && Suspicious(Group(rows, id), kind) ==> HasFlag(flags, id, kind)
  }

  /** grp["borrower_id"].iloc[0], after the sort. */
  function FirstPayer(group: seq<Repayment>): int
    requires group != []
  {
    Sort(group, AtLe)[0].borrowerId
  }

  /** A flag names the loan's borrower and carries its rule's severity. */
  predicate ProperFlag(f: Flag, rows: seq<Repayment>) {
    var group := Group(rows, f.loanId);
    group != [] && f == Flag(f.loanId, FirstPayer(group), f.kind, SeverityOf(f.kind))
  }

  /** Structuring and velocity are high, rapid small repayments medium; the payer is that of the earliest payment. */
  lemma FlagNames(group: seq<Repayment>)
    requires group != []
    ensures SeverityOf(Structuring) == High && SeverityOf(Velocity) == High && SeverityOf(RapidSmall) == Medium
    ensures exists r :: r in group && r.borrowerId == FirstPayer(group) && forall x :: x in group ==> r.at <= x.at
  {
    var sorted := Sort(group, AtLe);
    SortSorts(group, AtLe);
    forall r ensures r in sorted <==> r in group {
      SortMembers(group, AtLe, r);
    }
    assert sorted[0] in group;
    forall x | x in group ensures sorted[0].at <= x.at {
      var i :| 0 <= i < |sorted| && sorted[i] == x;
      assert i > 0 ==> AtLe(sorted[0], sorted[i]);
    }
  }

  predicate Found(kind: FlagType, structuring: bool, rapid: bool, velocity: bool) {
    match kind
    case Structuring => structuring
    case RapidSmall => rapid
    case Velocity => velocity
  }

  /** Where the scan stands after the loans in ids: the flags before it, and those their groups deserve. */
  ghost predicate Scanned(before: seq<Flag>, flags: seq<Flag>, rows: seq<Repayment>, ids: seq<int>) {
    && before <= flags
    && (OnePerType(before) ==> OnePerType(flags))
    && (forall id, kind :: HasFlag(flags, id, kind)
                           <==> HasFlag(before, id, kind) || (id in ids && Suspicious(Group(rows, id), kind)))
    && (NothingToAdd(rows, before) ==> flags == before)
    && (forall k :: |before| <= k < |flags| ==> ProperFlag(flags[k], rows))
  }

  /**
    * After a whole scan: a flag is there exactly if it was there before or its loan's repayments deserve it, none is
    * doubled, and every new one names the loan's borrower with its rule's severity.
    */
  ghost predicate ScanDone(before: seq<Flag>, flags: seq<Flag>, rows: seq<Repayment>) {
    && before <= flags
    && (OnePerType(before) ==> OnePerType(flags))
    && (forall id, kind :: HasFlag(flags, id, kind)
                           <==> HasFlag(before, id, kind)
                                || (Group(rows, id) != [] && Suspicious(Group(rows, id), kind)))
    && (forall k :: |before| <= k < |flags| ==> ProperFlag(flags[k], rows))
  }

  lemma NothingScanned(flags: seq<Flag>, rows: seq<Repayment>)
    ensures Scanned(flags, flags, rows, [])
  {
  }

  lemma ScannedAll(before: seq<Flag>, flags: seq<Flag>, rows: seq<Repayment>)
    requires Scanned(before, flags, rows, LoanIds(rows))
    ensures ScanDone(before, flags, rows) && (NothingToAdd(rows, before) ==> flags == before)
    ensures NothingToAdd(rows, flags)
  {
    LoanIdsSound(rows);
  }

  /** What scanning one more group does. */
  ghost predicate GroupScanned(was: seq<Flag>, flags: seq<Flag>, group: seq<Repayment>, loanId: int) {
    && was <= flags && (OnePerType(was) ==> OnePerType(flags))
    && (forall id, kind :: HasFlag(flags, id, kind)
                           <==> HasFlag(was, id, kind) || (id == loanId && Suspicious(group, kind)))
    && ((forall kind :: Suspicious(group, kind) ==> HasFlag(was, loanId, kind)) ==> flags == was)
    && (group != [] ==> forall i :: |was| <= i < |flags| ==>
                                      flags[i] == Flag(loanId, FirstPayer(group), flags[i].kind,
                                                       SeverityOf(flags[i].kind)))
  }

  lemma ScannedMore(before: seq<Flag>, was: seq<Flag>, flags: seq<Flag>, rows: seq<Repayment>, ids: seq<int>,
                    loanId: int)
    requires Scanned(before, was, rows, ids) && Group(rows, loanId) != []
    requires GroupScanned(was, flags, Group(rows, loanId), loanId)
    ensures Scanned(before, flags, rows, ids + [loanId])
  {
    if NothingToAdd(rows, before) {
      assert forall kind :: Suspicious(Group(rows, loanId), kind) ==> HasFlag(was, loanId, kind);
    }
  }

  class AmlFlags {
    var flags: seq<Flag>

    /** add_flag, where the rule found something. */
    method AddFlag(deserved: bool, loanId: int, borrowerId: int, kind: FlagType)
      modifies this
      ensures old(flags) <= flags && (OnePerType(old(flags)) ==> OnePerType(flags))
      ensures |flags| == |old(flags)| + if deserved && !HasFlag(old(flags), loanId, kind) then 1 else 0
      ensures |flags| > |old(flags)| ==> flags[|old(flags)|] == Flag(loanId, borrowerId, kind, SeverityOf(kind))
      ensures forall id, k :: HasFlag(flags, id, k)
                              <==> HasFlag(old(flags), id, k) || (deserved && id == loanId && k == kind)
    {
      if deserved && !HasFlag(flags, loanId, kind) {
        AddedFlag(flags, Flag(loanId, borrowerId, kind, SeverityOf(kind)));
        flags := flags + [Flag(loanId, borrowerId, kind, SeverityOf(kind))];
      }
    }

    method AddFlags(structuring: bool, rapid: bool, velocity: bool, loanId: int, borrowerId: int)
      modifies this
      ensures old(flags) <= flags && (OnePerType(old(flags)) ==> OnePerType(flags))
      ensures forall id, kind :: HasFlag(flags, id, kind)
                                 <==> HasFlag(old(flags), id, kind)
                                      || (id == loanId && Found(kind, structuring, rapid, velocity))
      ensures (forall kind :: Found(kind, structuring, rapid, velocity) ==> HasFlag(old(flags), loanId, kind))
              ==> flags == old(flags)
      ensures forall i :: |old(flags)| <= i < |flags| ==>
                            flags[i] == Flag(loanId, borrowerId, flags[i].kind, SeverityOf(flags[i].kind))
    {
      AddFlag(structuring, loanId, borrowerId, Structuring);
      AddFlag(rapid, loanId, borrowerId, RapidSmall);
      AddFlag(velocity, loanId, borrowerId, Velocity);
    }

    method ScanGroup(group: seq<Repayment>, loanId: int)
      requires group != [] && AmountsNonNegative(group)
      modifies this
      ensures GroupScanned(old(flags), flags, group, loanId)
    {
      var borrowerId := FirstPayer(group);
      var structuring, rapid, velocity := CheckGroup(group);
      AddFlags(structuring, rapid, velocity, loanId, borrowerId);
      assert forall kind :: Suspicious(group, kind) <==> Found(kind, structuring, rapid, velocity);
    }

    /** The loop over the loans, in the order groupby gives them. */
    method ScanLoans(rows: seq<Repayment>)
      requires AmountsNonNegative(rows)
      modifies this
      ensures Scanned(old(flags), flags, rows, LoanIds(rows))
    {
      var ids := LoanIds(rows);
      NothingScanned(flags, rows);
      assert ids[..0] == [];
      for i := 0 to |ids|
        invariant Scanned(old(flags), flags, rows, ids[..i])
      {
        GroupOf(rows, i);
        ghost var was := flags;
        ScanGroup(Group(rows, ids[i]), ids[i]);
        ScannedMore(old(flags), was, flags, rows, ids[..i], ids[i]);
        assert ids[..i + 1] == ids[..i] + [ids[i]];
      }
      assert ids[..|ids|] == ids;
    }

    /** run_aml_scan: every flag there is after the scan was there before or is deserved, and none is doubled. */
    method RunAmlScan(rows: seq<Repayment>) returns (created: seq<Flag>)
      requires AmountsNonNegative(rows)
      modifies this
      ensures flags == old(flags) + created && ScanDone(old(flags), flags, rows)
      ensures NothingToAdd(rows, old(flags)) ==> created == []
    {
      var before := |flags|;
      ScanLoans(rows);
      ScannedAll(old(flags), flags, rows);
      created := flags[before..];
    }

    /** A second scan of unchanged data creates no flag. */
    method ScanTwice(rows: seq<Repayment>) returns (created: seq<Flag>, again: seq<Flag>)
      requires AmountsNonNegative(rows)
      modifies this
      ensures flags == old(flags) + created && again == []
    {
      created := RunAmlScan(rows);
      assert NothingToAdd(rows, flags);
      again := RunAmlScan(rows);
    }
  }

  lemma GroupOf(rows: seq<Repayment>, i: nat)
    requires AmountsNonNegative(rows) && i < |LoanIds(rows)|
    ensures Group(rows, LoanIds(rows)[i]) != [] && AmountsNonNegative(Group(rows, LoanIds(rows)[i]))
  {
    var loanId := LoanIds(rows)[i];
    LoanIdsSound(rows);
    forall r | r in Group(rows, loanId) ensures r.amount >= 0 {
      FilterMember(rows, (x: Repayment) => x.loanId == loanId, r);
    }
  }
}
