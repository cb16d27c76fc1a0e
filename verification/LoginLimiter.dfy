/** The per-IP login limiter (backend/app/routers/auth.py:37-38, 45, 57-73). Times are seconds on a monotonic clock. */
module LoginLimiter {
  import opened Sequences

  const RATE_LIMIT_MAX: nat := 10
  const RATE_LIMIT_WINDOW: real := 60.0

  function Since(cutoff: real): real -> int {
    (t: real) => if t >= cutoff then 1 else 0
  }

  /** How many hits of a history are at or after the cutoff. */
  function CountSince(history: seq<real>, cutoff: real): int {
    Total(history, Since(cutoff))
  }

  ghost predicate NonDecreasing(s: seq<real>) {
    forall i, j :: 0 <= i < j < |s| ==> s[i] <= s[j]
  }

  lemma {:induction false} CountAllOrNone(s: seq<real>, cutoff: real)
    ensures (forall i :: 0 <= i < |s| ==> s[i] >= cutoff) ==> CountSince(s, cutoff) == |s|
    ensures (forall i :: 0 <= i < |s| ==> s[i] < cutoff) ==> CountSince(s, cutoff) == 0
    ensures 0 <= CountSince(s, cutoff) <= |s|
  {
    if s != [] {
      CountAllOrNone(s[1..], cutoff);
    }
  }

  /** In time order, fewer than k hits are recent exactly when the k-th last one is not. */
  lemma CountByPosition(s: seq<real>, cutoff: real, k: nat)
    requires NonDecreasing(s) && k > 0
    ensures CountSince(s, cutoff) < k <==> |s| < k || s[|s| - k] < cutoff
  {
    CountAllOrNone(s, cutoff);
    if |s| >= k {
      var m := if s[|s| - k] >= cutoff then |s| - k else |s| - k + 1;
      CountSplit(s, cutoff, m);
      if s[|s| - k] >= cutoff {
        CountAllOrNone(s[m..], cutoff);
      } else {
        CountAllOrNone(s[..m], cutoff);
      }
    }
  }

  lemma CountSplit(s: seq<real>, cutoff: real, m: nat)
    requires m <= |s|
    ensures CountSince(s, cutoff) == CountSince(s[..m], cutoff) + CountSince(s[m..], cutoff)
    ensures 0 <= CountSince(s[..m], cutoff) && 0 <= CountSince(s[m..], cutoff) <= |s| - m
  {
    assert s == s[..m] + s[m..];
    TotalAppend(s[..m], s[m..], Since(cutoff));
    CountAllOrNone(s[..m], cutoff);
    CountAllOrNone(s[m..], cutoff);
  }

  /** Whether an attempt at the given time is accepted after the history. */
  ghost predicate Accepts(history: seq<real>, at: real) {
    CountSince(history, at - RATE_LIMIT_WINDOW) < RATE_LIMIT_MAX
  }

  ghost predicate AcceptsAfterWait(history: seq<real>, now: real, seconds: int) {
    Accepts(history, now + seconds as real)
  }

  /** The j-th hit was rightly accepted after the ones before it. */
  ghost predicate AcceptedAt(history: seq<real>, j: nat)
    requires j < |history|
  {
    Accepts(history[..j], history[j])
  }

  /** A history the rule "fewer than ten accepted hits in the closed last 60 s" could have accepted hit by hit. */
  ghost predicate Admissible(history: seq<real>) {
    && NonDecreasing(history)
    && forall j :: 0 <= j < |history| ==> AcceptedAt(history, j)
  }

  /** Those are exactly the histories whose (i + 10)-th accepted hit is always more than 60 s after the i-th. */
  lemma AdmissibleIffSpaced(history: seq<real>)
    requires NonDecreasing(history)
    ensures Admissible(history)
       <==> forall i :: 0 <= i < |history| - 10 ==> history[i + 10] - history[i] > 60.0
  {
    forall j | 0 <= j < |history|
      ensures AcceptedAt(history, j)
         <==> (j < RATE_LIMIT_MAX || history[j] - history[j - RATE_LIMIT_MAX] > RATE_LIMIT_WINDOW)
    {
      CountByPosition(history[..j], history[j] - RATE_LIMIT_WINDOW, RATE_LIMIT_MAX);
    }
    if Admissible(history) {
      forall i | 0 <= i < |history| - RATE_LIMIT_MAX
        ensures history[i + RATE_LIMIT_MAX] - history[i] > RATE_LIMIT_WINDOW
      {
        assert AcceptedAt(history, i + RATE_LIMIT_MAX);
      }
    } else {
      var j :| 0 <= j < |history| && !AcceptedAt(history, j);
      assert history[j - RATE_LIMIT_MAX + RATE_LIMIT_MAX] - history[j - RATE_LIMIT_MAX] <= RATE_LIMIT_WINDOW;
    }
  }

  datatype Verdict = Accepted | Rejected(retryAfter: int)

  /** A deque that is the end of a history whose earlier hits are all before the cutoff. */
  ghost predicate EndOf(recent: seq<real>, h: seq<real>, cutoff: real) {
    && |recent| <= |h| && h[|h| - |recent|..] == recent
    && (forall i :: 0 <= i < |h| - |recent| ==> h[i] < cutoff)
  }

  lemma RecentCount(h: seq<real>, recent: seq<real>, cutoff: real)
    requires EndOf(recent, h, cutoff) && NonDecreasing(h)
    requires recent != [] ==> recent[0] >= cutoff
    ensures CountSince(h, cutoff) == |recent|
  {
    var m := |h| - |recent|;
    CountSplit(h, cutoff, m);
    CountAllOrNone(h[..m], cutoff);
    forall i | 0 <= i < |recent| ensures recent[i] >= cutoff {
      assert recent[i] == h[m + i] && recent[0] == h[m];
    }
    CountAllOrNone(recent, cutoff);
  }

  /** With the window full, waiting is enough exactly once the oldest hit in it has left. */
  lemma RetryAfterExact(h: seq<real>, recent: seq<real>, now: real, w: int)
    requires EndOf(recent, h, now - RATE_LIMIT_WINDOW) && NonDecreasing(h) && |recent| == RATE_LIMIT_MAX && w >= 0
    requires now - RATE_LIMIT_WINDOW <= recent[0]
    ensures AcceptsAfterWait(h, now, w) <==> w >= (RATE_LIMIT_WINDOW - (now - recent[0])).Floor + 1
  {
    assert recent[0] == h[|h| - RATE_LIMIT_MAX];
    CountByPosition(h, now + w as real - RATE_LIMIT_WINDOW, RATE_LIMIT_MAX);
  }

  lemma AcceptedStaysAdmissible(h: seq<real>, now: real)
    requires Admissible(h) && (forall i :: 0 <= i < |h| ==> h[i] <= now) && Accepts(h, now)
    ensures Admissible(h + [now])
  {
    var longer := h + [now];
    forall j | 0 <= j < |longer| ensures AcceptedAt(longer, j) {
      assert j < |h| ==> AcceptedAt(h, j);
      assert longer[..j] == if j < |h| then h[..j] else h;
    }
  }

  /** The deque against the full history: its end, at most ten long, the rest more than a window before the clock. */
  ghost predicate Tracked(recent: seq<real>, h: seq<real>, clock: real) {
    && EndOf(recent, h, clock - RATE_LIMIT_WINDOW) && |recent| <= RATE_LIMIT_MAX
    && (forall i :: 0 <= i < |h| ==> h[i] <= clock)
    && Admissible(h)
  }

  lemma TrackedLater(recent: seq<real>, h: seq<real>, clock: real, now: real)
    requires Tracked(recent, h, clock) && clock <= now
    ensures Tracked(recent, h, now)
  {
  }

  lemma TrackedAccepted(recent: seq<real>, h: seq<real>, now: real)
    requires Tracked(recent, h, now) && |recent| < RATE_LIMIT_MAX && Accepts(h, now)
    ensures Tracked(recent + [now], h + [now], now)
  {
    AcceptedStaysAdmissible(h, now);
    assert (h + [now])[|h| - |recent|..] == h[|h| - |recent|..] + [now];
  }

  /** The deque once the hits before the window are popped off its front. */
  method Prune(hits: seq<real>, ghost h: seq<real>, now: real) returns (recent: seq<real>)
    requires Tracked(hits, h, now)
    ensures Tracked(recent, h, now) && (recent != [] ==> recent[0] >= now - RATE_LIMIT_WINDOW)
  {
    recent := hits;
    while recent != [] && recent[0] < now - RATE_LIMIT_WINDOW
      invariant Tracked(recent, h, now)
      decreases |recent|
    {
      PoppedTracked(recent, h, now);
      recent := recent[1..];
    }
  }

  lemma PoppedTracked(recent: seq<real>, h: seq<real>, now: real)
    requires Tracked(recent, h, now) && recent != [] && recent[0] < now - RATE_LIMIT_WINDOW
    ensures Tracked(recent[1..], h, now)
  {
    var m := |h| - |recent|;
    assert recent[0] == h[m];
    assert h[m + 1..] == h[m..][1..];
  }

  /** defaultdict(deque): an address not seen yet has no hits. */
  function Look<Ip>(m: map<Ip, seq<real>>, ip: Ip): seq<real> {
    if ip in m then m[ip] else []
  }

  ghost predicate TrackedAt<Ip>(hits: map<Ip, seq<real>>, history: map<Ip, seq<real>>, clock: real, ip: Ip) {
    Tracked(Look(hits, ip), Look(history, ip), clock)
  }

  ghost predicate AllTracked<Ip(!new)>(hits: map<Ip, seq<real>>, history: map<Ip, seq<real>>, clock: real) {
    forall ip :: TrackedAt(hits, history, clock, ip)
  }

  lemma PutTracked<Ip(!new)>(hits: map<Ip, seq<real>>, history: map<Ip, seq<real>>, clock: real, now: real,
                             ip: Ip, recent: seq<real>, h: seq<real>)
    requires AllTracked(hits, history, clock) && clock <= now && Tracked(recent, h, now)
    ensures AllTracked(hits[ip := recent], history[ip := h], now)
  {
    var hits', history' := hits[ip := recent], history[ip := h];
    forall other ensures TrackedAt(hits', history', now, other) {
      if other != ip {
        assert TrackedAt(hits, history, clock, other);
        TrackedLater(Look(hits, other), Look(history, other), clock, now);
      }
    }
  }

  /**
    * Accepted exactly when fewer than ten accepted hits of the whole history are in the closed last 60 s; after a
    * rejection, an attempt w whole seconds later with none in between is accepted exactly from retryAfter on.
    */
  ghost predicate DecidesRight(h: seq<real>, now: real, v: Verdict) {
    && (v == Accepted <==> Accepts(h, now))
    && (v.Rejected? ==> v.retryAfter >= 1
                        && forall w: int :: w >= 0 ==> (AcceptsAfterWait(h, now, w) <==> w >= v.retryAfter))
  }

  /** Only an accepted hit is added to the history. */
  function After(h: seq<real>, now: real, v: Verdict): seq<real> {
    if v == Accepted then h + [now] else h
  }

  class RateLimiter<Ip(==, !new)> {
    var hits: map<Ip, seq<real>>
    /** Every hit accepted from each address, from the start. */
    ghost var history: map<Ip, seq<real>>
    ghost var clock: real

    ghost predicate Valid()
      reads this
    {
      AllTracked(hits, history, clock)
    }

    ghost function History(ip: Ip): seq<real>
      reads this
    {
      Look(history, ip)
    }

    constructor (now: real)
      ensures Valid() && clock == now && history == map[]
    {
      hits, history, clock := map[], map[], now;
    }

    /** rate_limit_login */
    method RateLimitLogin(ip: Ip, now: real) returns (v: Verdict)
      requires Valid() && clock <= now
      modifies this
      ensures Valid() && clock == now
      ensures DecidesRight(old(History(ip)), now, v)
      ensures history == old(history)[ip := After(old(History(ip)), now, v)]
    {
      var hits';
      ghost var history';
      v, hits', history' := Admit(hits, history, clock, ip, now);
      hits, history, clock := hits', history', now;
    }
  }

  method Admit<Ip(==, !new)>(hits: map<Ip, seq<real>>, ghost history: map<Ip, seq<real>>, ghost clock: real, ip: Ip,
                             now: real)
    returns (v: Verdict, hits': map<Ip, seq<real>>, ghost history': map<Ip, seq<real>>)
    requires AllTracked(hits, history, clock) && clock <= now
    ensures AllTracked(hits', history', now) && DecidesRight(Look(history, ip), now, v)
    ensures history' == history[ip := After(Look(history, ip), now, v)]
  {
    AtAddress(hits, history, clock, ip);
    var recent;
    recent, v := Decide(Look(hits, ip), Look(history, ip), clock, now);
    history' := history[ip := After(Look(history, ip), now, v)];
    hits' := hits[ip := recent];
    PutTracked(hits, history, clock, now, ip, recent, After(Look(history, ip), now, v));
  }

  lemma AtAddress<Ip(!new)>(hits: map<Ip, seq<real>>, history: map<Ip, seq<real>>, clock: real, ip: Ip)
    requires AllTracked(hits, history, clock)
    ensures Tracked(Look(hits, ip), Look(history, ip), clock)
  {
    assert TrackedAt(hits, history, clock, ip);
  }

  /** The body of the lock: prune, count, and append or reject. */
  method Decide(hits: seq<real>, ghost h: seq<real>, ghost clock: real, now: real) returns (recent: seq<real>,
                                                                                            v: Verdict)
    requires Tracked(hits, h, clock) && clock <= now
    ensures DecidesRight(h, now, v) && Tracked(recent, After(h, now, v), now)
  {
    TrackedLater(hits, h, clock, now);
    recent := Prune(hits, h, now);
    RecentCount(h, recent, now - RATE_LIMIT_WINDOW);
    if |recent| >= RATE_LIMIT_MAX {
      var retry := RetryAfter(h, recent, now);
      return recent, Rejected(retry);
    }
    TrackedAccepted(recent, h, now);
    return recent + [now], Accepted;
  }

  method RetryAfter(ghost h: seq<real>, recent: seq<real>, now: real) returns (retry: int)
    requires EndOf(recent, h, now - RATE_LIMIT_WINDOW) && NonDecreasing(h) && |recent| == RATE_LIMIT_MAX
    requires now - RATE_LIMIT_WINDOW <= recent[0]
    ensures retry >= 1 && forall w: int :: w >= 0 ==> (AcceptsAfterWait(h, now, w) <==> w >= retry)
  {
    retry := (RATE_LIMIT_WINDOW - (now - recent[0])).Floor + 1;
    forall w: int | w >= 0 ensures AcceptsAfterWait(h, now, w) <==> w >= retry {
      RetryAfterExact(h, recent, now, w);
    }
    if retry < 1 {
      retry := 1;
    }
  }
}
