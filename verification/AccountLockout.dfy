/** The account lockout (backend/app/routers/auth.py:35-36, 80-90, 101-135). Times are microseconds. */
module AccountLockout {
  import opened Wrappers
  import opened Sequences

  const MAX_FAILED_ATTEMPTS: nat := 5
  const LOCKOUT: int := 15 * 60 * 1_000_000

  datatype AccountState = AccountState(failed: nat, lockedUntil: Option<int>, adminLocked: bool, active: bool)

  datatype Outcome = LockedOut | InvalidPassword | AccountDisabled | LoggedIn

  datatype Attempt = Attempt(rightPassword: bool, at: int)

  predicate IsLocked(s: AccountState, now: int) {
    s.adminLocked || (s.lockedUntil.Some? && s.lockedUntil.value > now)
  }

  function Login(s: AccountState, a: Attempt): (AccountState, Outcome) {
    if IsLocked(s, a.at) then (s, LockedOut)
    else if !a.rightPassword then
      var failed := s.failed + 1;
      var lockedUntil := if failed >= MAX_FAILED_ATTEMPTS then Some(a.at + LOCKOUT) else s.lockedUntil;
      (s.(failed := failed, lockedUntil := lockedUntil), InvalidPassword)
    else if !s.active then (s, AccountDisabled)
    else (s.(failed := 0, lockedUntil := None), LoggedIn)
  }

  class Account {
    var failedLoginAttempts: nat
    var lockedUntil: Option<int>
    var isLocked: bool
    var active: bool

    function View(): AccountState
      reads this
    {
      AccountState(failedLoginAttempts, lockedUntil, isLocked, active)
    }

    method TryLogin(rightPassword: bool, now: int) returns (outcome: Outcome)
      modifies this
      ensures (View(), outcome) == Login(old(View()), Attempt(rightPassword, now))
    {
      if isLocked || (lockedUntil.Some? && lockedUntil.value > now) {
        return LockedOut;
      }
      if !rightPassword {
        failedLoginAttempts := failedLoginAttempts + 1;
        if failedLoginAttempts >= MAX_FAILED_ATTEMPTS {
          lockedUntil := Some(now + LOCKOUT);
        }
        return InvalidPassword;
      }
      if !active {
        return AccountDisabled;
      }
      failedLoginAttempts := 0;
      lockedUntil := None;
      return LoggedIn;
    }
  }

  /**
    * A locked account is not even checked; a wrong password counts, and from the fifth on locks for 15 minutes; the
    * right one lets an active account in and clears counter and lock, and tells a disabled one so, clearing nothing.
    */
  lemma LoginIs(s: AccountState, a: Attempt)
    ensures var (after, outcome) := Login(s, a);
            var locked := s.adminLocked || (s.lockedUntil.Some? && a.at < s.lockedUntil.value);
            && (outcome == LockedOut <==> locked)
            && (outcome == InvalidPassword <==> !locked && !a.rightPassword)
            && (outcome == LoggedIn <==> !locked && a.rightPassword && s.active)
            && (outcome == LockedOut || outcome == AccountDisabled ==> after == s)
            && (outcome == LoggedIn ==> after == s.(failed := 0, lockedUntil := None))
            && (outcome == InvalidPassword ==>
                  after == s.(failed := s.failed + 1,
                  lockedUntil := if s.failed >= 4 then Some(a.at + 900_000_000) else s.lockedUntil))
  {
  }

  /** After a success it takes five wrong passwords to lock the account again, and the fifth does, for 15 minutes. */
  lemma FiveLock(s: AccountState, at: int, t1: int, t2: int, t3: int, t4: int, t5: int, later: int)
    requires Login(s, Attempt(true, at)).1 == LoggedIn
    ensures var s0 := Login(s, Attempt(true, at)).0;
            var s4 := Login(Login(Login(Login(s0, Attempt(false, t1)).0, Attempt(false, t2)).0, Attempt(false, t3)).0,
                            Attempt(false, t4)).0;
            var s5 := Login(s4, Attempt(false, t5)).0;
            && s4.lockedUntil == None && Login(s4, Attempt(true, later)).1 == LoggedIn
            && (Login(s5, Attempt(true, later)).1 == LockedOut <==> later < t5 + 900_000_000)
  {
  }

  // ---------------------------------------------------------------- runs of attempts

  ghost predicate InOrder(attempts: seq<Attempt>) {
    forall i, j :: 0 <= i < j < |attempts| ==> attempts[i].at <= attempts[j].at
  }

  predicate NoSuccess(s: AccountState, attempts: seq<Attempt>)
    decreases |attempts|
  {
    attempts == [] || (Login(s, attempts[0]).1 != LoggedIn && NoSuccess(Login(s, attempts[0]).0, attempts[1..]))
  }

  /** The times at which a wrong password was actually checked. */
  function VerifiedWrong(s: AccountState, attempts: seq<Attempt>): seq<int>
    decreases |attempts|
  {
    if attempts == [] then []
    else
      var (next, outcome) := Login(s, attempts[0]);
      (if outcome == InvalidPassword then [attempts[0].at] else []) + VerifiedWrong(next, attempts[1..])
  }

  lemma LaterAttempts(attempts: seq<Attempt>)
    requires InOrder(attempts) && attempts != []
    ensures InOrder(attempts[1..])
    ensures forall a :: a in attempts[1..] ==> a in attempts && a.at >= attempts[0].at
  {
    forall a | a in attempts[1..] ensures a in attempts && a.at >= attempts[0].at {
      var j :| 0 <= j < |attempts[1..]| && attempts[1..][j] == a;
      assert attempts[j + 1] == a;
    }
  }

  /** Checked failures come no earlier than the first attempt, nor before a lock in force has run out. */
  lemma {:induction false} VerifiedAfter(s: AccountState, attempts: seq<Attempt>, start: int)
    requires InOrder(attempts) && NoSuccess(s, attempts)
    requires forall a :: a in attempts ==> a.at >= start
    ensures forall i :: 0 <= i < |VerifiedWrong(s, attempts)| ==>
                          && VerifiedWrong(s, attempts)[i] >= start
                          && (s.lockedUntil.Some? ==> VerifiedWrong(s, attempts)[i] >= s.lockedUntil.value)
    decreases |attempts|
  {
    if attempts != [] {
      var (next, outcome) := Login(s, attempts[0]);
      LaterAttempts(attempts);
      VerifiedAfter(next, attempts[1..], attempts[0].at);
      assert attempts[0].at >= start;
    }
  }

  /** How many of the failures so far can have come without waiting out a lock. */
  function Free(failed: nat): int {
    if failed + 1 >= MAX_FAILED_ATTEMPTS then 1 else MAX_FAILED_ATTEMPTS - failed
  }

  /** From the failure that locks the account on, each further one waits out a whole lockout. */
  lemma {:induction false} FailuresSpaced(s: AccountState, attempts: seq<Attempt>, i: nat)
    requires InOrder(attempts) && NoSuccess(s, attempts) && i < |VerifiedWrong(s, attempts)|
    ensures VerifiedWrong(s, attempts)[i] - VerifiedWrong(s, attempts)[0] >= LOCKOUT * (i + 1 - Free(s.failed))
    ensures VerifiedWrong(s, attempts)[i] >= VerifiedWrong(s, attempts)[0]
    decreases |attempts|
  {
    var (next, outcome) := Login(s, attempts[0]);
    var v, rest, first := VerifiedWrong(s, attempts), VerifiedWrong(next, attempts[1..]), attempts[0].at;
    LaterAttempts(attempts);
    if outcome != InvalidPassword {
      FailuresSpaced(next, attempts[1..], i);
    } else if i > 0 {
      assert v == [first] + rest;
      FailuresSpaced(next, attempts[1..], i - 1);
      assert rest[0] >= first + if next.failed >= MAX_FAILED_ATTEMPTS then LOCKOUT else 0 by {
        VerifiedAfter(next, attempts[1..], first);
      }
      assert v[i] == rest[i - 1] && v[0] == first;
    }
  }

  lemma {:induction false} FilterPrefix(v: seq<int>, p: int -> bool, n: nat)
    requires forall i :: n <= i < |v| ==> !p(v[i])
    ensures |Filter(v, p)| <= n
  {
    if v != [] {
      FilterPrefix(v[1..], p, if n == 0 then 0 else n - 1);
    }
  }

  /**
    * With no successful login in between, the wrong passwords checked within `span` of the first number at most
    * 5 + span / 15 min: the counter survives the lock's expiry and each later failure locks again.
    */
  lemma WrongPasswordsBounded(s: AccountState, attempts: seq<Attempt>, span: int)
    requires InOrder(attempts) && NoSuccess(s, attempts) && span >= 0 && VerifiedWrong(s, attempts) != []
    ensures var v := VerifiedWrong(s, attempts);
            |Filter(v, (t: int) => t - v[0] <= span)| <= 5 + span / 900_000_000
  {
    var v := VerifiedWrong(s, attempts);
    var n := MAX_FAILED_ATTEMPTS + span / LOCKOUT;
    forall i | n <= i < |v| ensures v[i] - v[0] > span {
      FailuresSpaced(s, attempts, i);
    }
    FilterPrefix(v, (t: int) => t - v[0] <= span, n);
  }

  /** Wrong passwords at the lock's expiry, again and again. */
  function EveryLockout(start: int, n: nat): seq<Attempt>
    decreases n
  {
    if n == 0 then [] else [Attempt(false, start)] + EveryLockout(start + LOCKOUT, n - 1)
  }

  lemma {:induction false} EveryLockoutVerified(s: AccountState, start: int, n: nat)
    requires s.failed + 1 >= MAX_FAILED_ATTEMPTS && !IsLocked(s, start)
    ensures |VerifiedWrong(s, EveryLockout(start, n))| == n
    ensures forall i :: 0 <= i < n ==> VerifiedWrong(s, EveryLockout(start, n))[i] == start + LOCKOUT * i
    decreases n
  {
    if n > 0 {
      var attempts := EveryLockout(start, n);
      var next := Login(s, attempts[0]).0;
      assert attempts[1..] == EveryLockout(start + LOCKOUT, n - 1);
      EveryLockoutVerified(next, start + LOCKOUT, n - 1);
      var rest := VerifiedWrong(next, attempts[1..]);
      assert VerifiedWrong(s, attempts) == [start] + rest;
      forall i | 0 <= i < n ensures VerifiedWrong(s, attempts)[i] == start + LOCKOUT * i {
        assert i > 0 ==> VerifiedWrong(s, attempts)[i] == rest[i - 1];
      }
    }
  }

  /** The bound is reached: five wrong passwords at once, then one as each lock runs out. */
  lemma BoundReached(n: nat)
    ensures var wrong := Attempt(false, 0);
            var v := VerifiedWrong(AccountState(0, None, false, true),
                                   [wrong, wrong, wrong, wrong] + EveryLockout(0, n + 1));
            |v| == MAX_FAILED_ATTEMPTS + n && v[0] == 0 && v[|v| - 1] == LOCKOUT * n
  {
    var wrong, later := Attempt(false, 0), EveryLockout(0, n + 1);
    var fourth := AccountState(4, None, false, true);
    EveryLockoutVerified(fourth, 0, n + 1);
    var v := VerifiedWrong(fourth, later);
    OneMore(AccountState(3, None, false, true), later);
    OneMore(AccountState(2, None, false, true), [wrong] + later);
    OneMore(AccountState(1, None, false, true), [wrong] + ([wrong] + later));
    OneMore(AccountState(0, None, false, true), [wrong] + ([wrong] + ([wrong] + later)));
    assert [wrong, wrong, wrong, wrong] + later == [wrong] + ([wrong] + ([wrong] + ([wrong] + later)));
  }

  lemma OneMore(s: AccountState, attempts: seq<Attempt>)
    requires s.failed < 4 && s.lockedUntil == None && !s.adminLocked
    ensures VerifiedWrong(s, [Attempt(false, 0)] + attempts)
         == [0] + VerifiedWrong(s.(failed := s.failed + 1), attempts)
  {
    assert ([Attempt(false, 0)] + attempts)[1..] == attempts;
  }
}
