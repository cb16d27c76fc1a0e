/** Currency arithmetic (backend/app/core/money.py). Amounts are whole cents; a rate is an exact rational. */
module Money {
  import opened Sequences

  type Cents = int

  const SHILLING: Cents := 100

  function Min(a: int, b: int): int {
    if a <= b then a else b
  }

  function Max(a: int, b: int): int {
    if a >= b then a else b
  }

  /** Decimal's ROUND_HALF_UP of num/den: the nearest integer, ties away from zero. */
  function RoundHalfUp(num: int, den: int): (r: int)
    requires den > 0
    ensures num >= 0 ==> -den < 2 * (r * den - num) <= den
    ensures num < 0 ==> -den <= 2 * (r * den - num) < den
  {
    if num >= 0 then (2 * num + den) / (2 * den)
    else -((-2 * num + den) / (2 * den))
  }

  /** Whole multiples of a positive d that differ, differ by at least d. */
  lemma MultiplesApart(a: int, b: int, d: int)
    requires d > 0 && a < b
    ensures a * d + d <= b * d
  {
    assert (b - a - 1) * d >= 0;
    assert (b - a - 1) * d == b * d - a * d - d;
  }

  lemma ScaleUp(a: int, b: int, d: int)
    requires d >= 0 && a <= b
    ensures a * d <= b * d && d * a <= d * b
  {
    assert (b - a) * d >= 0;
    assert (b - a) * d == b * d - a * d;
  }

  /** The bounds of RoundHalfUp's contract determine its value. */
  lemma RoundHalfUpUnique(num: int, den: int, r: int)
    requires den > 0
    requires num >= 0 ==> -den < 2 * (r * den - num) <= den
    requires num < 0 ==> -den <= 2 * (r * den - num) < den
    ensures r == RoundHalfUp(num, den)
  {
    Squeeze(num, den, r, RoundHalfUp(num, den));
  }

  lemma Squeeze(num: int, den: int, q: int, r: int)
    requires den > 0
    requires num >= 0 ==> -den < 2 * (r * den - num) <= den && -den < 2 * (q * den - num) <= den
    requires num < 0 ==> -den <= 2 * (r * den - num) < den && -den <= 2 * (q * den - num) < den
    ensures q == r
  {
    if q < r {
      MultiplesApart(q, r, den);
    } else if r < q {
      MultiplesApart(r, q, den);
    }
  }

  lemma RoundExact(units: int, den: int)
    requires units >= 0 && den > 0
    ensures RoundHalfUp(units * den, den) == units
  {
    ScaleUp(0, units, den);
    RoundHalfUpUnique(units * den, den, units);
  }

  /** Rounding passes over whole units. */
  lemma RoundHalfUpShift(units: int, num: int, den: int)
    requires units >= 0 && num >= 0 && den > 0
    ensures units * den + num >= 0 && RoundHalfUp(units * den + num, den) == units + RoundHalfUp(num, den)
  {
    var r := RoundHalfUp(num, den);
    ScaleUp(0, units, den);
    assert (units + r) * den == units * den + r * den;
    RoundHalfUpUnique(units * den + num, den, units + r);
  }

  /** A share 0 <= num/den <= 1 of a non-negative amount rounds to something within it. */
  lemma RoundedShareWithin(amount: Cents, num: int, den: int)
    requires amount >= 0 && 0 <= num <= den && den > 0
    ensures 0 <= RoundHalfUp(amount * num, den) <= amount
  {
    ProductWithin(amount, num, den);
    NearestWithin(amount, amount * num, den, RoundHalfUp(amount * num, den));
  }

  lemma ProductWithin(amount: int, num: int, den: int)
    requires amount >= 0 && 0 <= num <= den
    ensures 0 <= amount * num <= amount * den
  {
    assert amount * (den - num) >= 0;
    assert amount * (den - num) == amount * den - amount * num;
  }

  lemma NearestWithin(amount: int, num: int, den: int, r: int)
    requires den > 0 && 0 <= num <= amount * den && -den < 2 * (r * den - num) <= den
    ensures 0 <= r <= amount
  {
    if r < 0 {
      MultiplesApart(r, 0, den);
    } else if amount < r {
      MultiplesApart(amount, r, den);
    }
  }

  function Itself(x: int): int {
    x
  }

  function Sum(xs: seq<int>): int {
    Total(xs, Itself)
  }

  ghost predicate NonNegative(xs: seq<int>) {
    forall i :: 0 <= i < |xs| ==> xs[i] >= 0
  }

  lemma SumNonNegative(xs: seq<int>)
    requires NonNegative(xs)
    ensures Sum(xs) >= 0
  {
    if xs != [] {
      SumNonNegative(xs[1..]);
    }
  }

  lemma SumAppend(xs: seq<int>, ys: seq<int>)
    ensures Sum(xs + ys) == Sum(xs) + Sum(ys)
  {
    TotalAppend(xs, ys, Itself);
  }

  lemma SumAdd(xs: seq<int>, x: int)
    ensures Sum(xs + [x]) == Sum(xs) + x
  {
    SumAppend(xs, [x]);
    TotalOne(x, Itself);
  }

  /** Taking one element out of a sequence takes it out of its multiset and out of its sum. */
  lemma TakeOut(ys: seq<int>, k: nat)
    requires k < |ys|
    ensures var rest := ys[..k] + ys[k + 1..];
            multiset(rest) == multiset(ys) - multiset{ys[k]} && Sum(ys) == Sum(rest) + ys[k]
  {
    var before, after := ys[..k], ys[k + 1..];
    assert ys == (before + [ys[k]]) + after;
    SumAppend(before, after);
    SumAdd(before, ys[k]);
    SumAppend(before + [ys[k]], after);
  }

  lemma {:induction false} SumPermutation(xs: seq<int>, ys: seq<int>)
    requires multiset(xs) == multiset(ys)
    ensures Sum(xs) == Sum(ys)
  {
    if xs == [] {
      assert |multiset(ys)| == |ys|;
    } else {
      assert xs == [xs[0]] + xs[1..];
      assert xs[0] in multiset(ys);
      var k :| 0 <= k < |ys| && ys[k] == xs[0];
      TakeOut(ys, k);
      assert multiset(xs[1..]) == multiset(xs) - multiset{xs[0]};
      SumPermutation(xs[1..], ys[..k] + ys[k + 1..]);
    }
  }

  // ---------------------------------------------------------------- interest / principal split

  /** rate is in thousandths of a percent, so rate / (100 + rate) is rate / (100000 + rate). */
  function InterestShare(amount: Cents, rate: int): Cents {
    var denom := 100_000 + rate;
    if denom == 0 then 0
    else if denom > 0 then RoundHalfUp(amount * rate, denom)
    else RoundHalfUp(-(amount * rate), -denom)
  }

  function SplitInterestPrincipal(amount: Cents, rate: int): (Cents, Cents) {
    var interest := InterestShare(amount, rate);
    (interest, amount - interest)
  }

  /** The interest part is the nearest cent to amount * rate / (100 + rate), the principal part the rest. */
  lemma SplitIsNearest(amount: Cents, rate: int)
    requires rate > -100_000
    ensures var (interest, principal) := SplitInterestPrincipal(amount, rate);
            && interest + principal == amount
            && -(100_000 + rate) <= 2 * (interest * (100_000 + rate) - amount * rate) <= 100_000 + rate
  {
  }

  /** With a non-negative rate neither component of a non-negative amount is negative. */
  lemma SplitWithin(amount: Cents, rate: int)
    requires amount >= 0 && rate >= 0
    ensures 0 <= SplitInterestPrincipal(amount, rate).0 <= amount
  {
    RoundedShareWithin(amount, rate, 100_000 + rate);
  }

  // ---------------------------------------------------------------- rounding drift

  /** Each of the amounts times num/den, rounded to the cent. */
  function RoundedShares(amounts: seq<Cents>, num: int, den: int): (r: seq<Cents>)
    requires den > 0
    ensures |r| == |amounts|
  {
    seq(|amounts|, i requires 0 <= i < |amounts| => RoundHalfUp(amounts[i] * num, den))
  }

  /** booked is within n half-cents of num/den of total. */
  ghost predicate WithinHalfCents(booked: Cents, total: Cents, n: nat, num: int, den: int) {
    -(n * den) <= 2 * (booked * den - total * num) <= n * den
  }

  /** n rounded shares are together within n half-cents of the exact share of the total. */
  lemma {:induction false} RoundedSharesDrift(amounts: seq<Cents>, num: int, den: int)
    requires den > 0
    ensures WithinHalfCents(Sum(RoundedShares(amounts, num, den)), Sum(amounts), |amounts|, num, den)
  {
    if amounts != [] {
      var rounded := RoundedShares(amounts, num, den);
      var rest := amounts[1..];
      assert rounded[1..] == RoundedShares(rest, num, den);
      RoundedSharesDrift(rest, num, den);
      DriftStep(rounded[0], amounts[0] * num, Sum(rounded[1..]), Sum(rest), |rest|, amounts[0], num, den);
    }
  }

  lemma DriftStep(r: int, product: int, tail: int, restSum: int, n: nat, first: int, num: int, den: int)
    requires product == first * num && -den <= 2 * (r * den - product) <= den
    requires WithinHalfCents(tail, restSum, n, num, den)
    ensures WithinHalfCents(r + tail, first + restSum, n + 1, num, den)
  {
    assert (r + tail) * den == r * den + tail * den;
    assert (first + restSum) * num == first * num + restSum * num;
    assert (n + 1) * den == n * den + den;
  }

  function Interests(amounts: seq<Cents>, rate: int): (r: seq<Cents>)
    ensures |r| == |amounts|
  {
    seq(|amounts|, i requires 0 <= i < |amounts| => SplitInterestPrincipal(amounts[i], rate).0)
  }

  function Principals(amounts: seq<Cents>, rate: int): (r: seq<Cents>)
    ensures |r| == |amounts|
  {
    seq(|amounts|, i requires 0 <= i < |amounts| => SplitInterestPrincipal(amounts[i], rate).1)
  }

  lemma {:induction false} SplitsSumToTotal(amounts: seq<Cents>, rate: int)
    ensures Sum(Interests(amounts, rate)) + Sum(Principals(amounts, rate)) == Sum(amounts)
  {
    if amounts != [] {
      assert Interests(amounts, rate)[1..] == Interests(amounts[1..], rate);
      assert Principals(amounts, rate)[1..] == Principals(amounts[1..], rate);
      SplitsSumToTotal(amounts[1..], rate);
    }
  }

  /** From exact drift apart - total <= n/2 and one rounding of the total, to the two booked figures. */
  lemma CombineDrift(apart: int, together: int, n: nat, exact: int, den: int)
    requires den > 0
    requires -(n * den) <= 2 * (apart * den - exact) <= n * den
    requires -den <= 2 * (together * den - exact) <= den
    ensures -(n + 1) <= 2 * (apart - together) <= n + 1
  {
    var difference := 2 * (apart - together);
    assert difference * den == 2 * (apart * den) - 2 * (together * den);
    assert (n + 1) * den == n * den + den;
    CancelScale(difference, n + 1, den);
    assert -(n + 1) * den == -((n + 1) * den);
    CancelScale(-(n + 1), difference, den);
  }

  lemma CancelScale(a: int, b: int, d: int)
    requires d > 0 && a * d <= b * d
    ensures a <= b
  {
    if b < a {
      MultiplesApart(b, a, d);
    }
  }

  ghost predicate RatioOf(rate: int, num: int, den: int) {
    den > 0 && ((num == rate && den == 100_000 + rate) || (num == -rate && den == -100_000 - rate))
  }

  lemma ShareAsRatio(amount: Cents, rate: int, num: int, den: int)
    requires RatioOf(rate, num, den)
    ensures InterestShare(amount, rate) == RoundHalfUp(amount * num, den)
  {
    assert amount * (-rate) == -(amount * rate);
  }

  lemma InterestsAreShares(amounts: seq<Cents>, rate: int, num: int, den: int)
    requires RatioOf(rate, num, den)
    ensures Interests(amounts, rate) == RoundedShares(amounts, num, den)
  {
    forall i | 0 <= i < |amounts| ensures Interests(amounts, rate)[i] == RoundedShares(amounts, num, den)[i] {
      ShareAsRatio(amounts[i], rate, num, den);
    }
  }

  lemma SharesApartAndTogether(amounts: seq<Cents>, num: int, den: int)
    requires den > 0
    ensures -(|amounts| + 1)
         <= 2 * (Sum(RoundedShares(amounts, num, den)) - RoundHalfUp(Sum(amounts) * num, den))
         <= |amounts| + 1
  {
    RoundedSharesDrift(amounts, num, den);
    var total := Sum(amounts) * num;
    CombineDrift(Sum(RoundedShares(amounts, num, den)), RoundHalfUp(total, den), |amounts|, total, den);
  }

  /** n separate splits book interest within (n+1)/2 cents of the split of the total, and lose no cent of it. */
  lemma InterestSplitDrift(amounts: seq<Cents>, rate: int)
    ensures var together := SplitInterestPrincipal(Sum(amounts), rate).0;
            -(|amounts| + 1) <= 2 * (Sum(Interests(amounts, rate)) - together) <= |amounts| + 1
    ensures Sum(Interests(amounts, rate)) + Sum(Principals(amounts, rate)) == Sum(amounts)
  {
    SplitsSumToTotal(amounts, rate);
    var denom := 100_000 + rate;
    if denom == 0 {
      ZeroInterests(amounts);
    } else {
      var num, den := if denom > 0 then rate else -rate, if denom > 0 then denom else -denom;
      InterestsAreShares(amounts, rate, num, den);
      ShareAsRatio(Sum(amounts), rate, num, den);
      SharesApartAndTogether(amounts, num, den);
    }
  }

  lemma {:induction false} ZeroInterests(amounts: seq<Cents>)
    ensures Sum(Interests(amounts, -100_000)) == 0
  {
    if amounts != [] {
      assert Interests(amounts, -100_000)[1..] == Interests(amounts[1..], -100_000);
      ZeroInterests(amounts[1..]);
    }
  }

  // ---------------------------------------------------------------- balances and the in duplum cap

  function ReduceBalance(outstanding: Cents, amount: Cents): Cents {
    var balance := outstanding - amount;
    if balance < 0 then 0 else balance
  }

  function ApplyInDuplum(principal: Cents, totalCharges: Cents): Cents {
    if totalCharges <= principal then totalCharges else principal
  }

  /** How much of newCharge may still be added to the charges already accrued. */
  function InDuplumCap(principal: Cents, accrued: Cents, newCharge: Cents): Cents {
    var headroom := principal - accrued;
    if headroom <= 0 then 0
    else if newCharge <= headroom then newCharge else headroom
  }

  /**
    * The cap allows the largest part of a charge that keeps the accrued total within principal, and none if there is no
    * room.
    */
  lemma CapIsLargest(principal: Cents, accrued: Cents, newCharge: Cents, x: Cents)
    requires newCharge >= 0
    ensures 0 <= InDuplumCap(principal, accrued, newCharge) <= newCharge
    ensures accrued <= principal ==> accrued + InDuplumCap(principal, accrued, newCharge) <= principal
    ensures 0 <= x <= newCharge && accrued + x <= principal ==> x <= InDuplumCap(principal, accrued, newCharge)
  {
  }

  function FoldCharges(principal: Cents, accrued: Cents, charges: seq<Cents>): Cents
    decreases |charges|
  {
    if charges == [] then accrued
    else FoldCharges(principal, accrued + InDuplumCap(principal, accrued, charges[0]), charges[1..])
  }

  function FoldPayments(balance: Cents, payments: seq<Cents>): Cents
    decreases |payments|
  {
    if payments == [] then balance
    else FoldPayments(ReduceBalance(balance, payments[0]), payments[1..])
  }

  /** Charging bit by bit equals capping the whole sum once, exactly when the accrued total starts within principal. */
  lemma {:induction false} FoldChargesIsOneCap(principal: Cents, accrued: Cents, charges: seq<Cents>)
    requires NonNegative(charges)
    ensures FoldCharges(principal, accrued, charges) == ApplyInDuplum(principal, accrued + Sum(charges))
       <==> accrued <= principal
    ensures accrued > principal ==> FoldCharges(principal, accrued, charges) == accrued
    decreases |charges|
  {
    SumNonNegative(charges);
    if charges != [] {
      SumNonNegative(charges[1..]);
      FoldChargesIsOneCap(principal, accrued + InDuplumCap(principal, accrued, charges[0]), charges[1..]);
    }
  }

  /** Neither the order nor the grouping of the charges matters. */
  lemma ChargeOrderIrrelevant(principal: Cents, accrued: Cents, xs: seq<Cents>, ys: seq<Cents>)
    requires accrued <= principal && NonNegative(xs) && NonNegative(ys)
    requires multiset(xs) == multiset(ys) || Sum(xs) == Sum(ys)
    ensures FoldCharges(principal, accrued, xs) == FoldCharges(principal, accrued, ys)
  {
    if multiset(xs) == multiset(ys) {
      SumPermutation(xs, ys);
    }
    FoldChargesIsOneCap(principal, accrued, xs);
    FoldChargesIsOneCap(principal, accrued, ys);
  }

  /** Paying bit by bit equals paying the sum at once; only an untouched negative balance is left negative. */
  lemma {:induction false} FoldPaymentsIsOneReduction(balance: Cents, payments: seq<Cents>)
    requires NonNegative(payments)
    ensures FoldPayments(balance, payments) == Max(0, balance - Sum(payments)) <==> balance >= 0 || payments != []
    decreases |payments|
  {
    SumNonNegative(payments);
    if payments != [] {
      SumNonNegative(payments[1..]);
      FoldPaymentsIsOneReduction(ReduceBalance(balance, payments[0]), payments[1..]);
    }
  }
}
