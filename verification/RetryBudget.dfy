/**
 How long one flush may retry: the backoff curve, the server's `Retry-After` floor, the bound checked
 at startup and the wall-clock deadline checked before every sleep. Seconds are reals.
 */
module RetryBudget {
  import opened Wrappers

  const LIVENESS := 480.0
  const MARGIN := 30.0
  const CAP := 30.0
  const JITTER := 0.25
  const PREPARE := 20.0

  function Min(a: real, b: real): real { if a <= b then a else b }
  function Max(a: real, b: real): real { if a >= b then a else b }

  /** Base one second, doubling. */
  function Doubling(attempt: nat): (r: real)
    ensures r >= 1.0
  {
    if attempt == 0 then 1.0 else 2.0 * Doubling(attempt - 1)
  }

  /** The curve: 1, 2, 4, 8, 16 seconds, and then the cap. */
  lemma CurveIs(attempt: nat)
    ensures Min(Doubling(attempt), CAP)
            == if attempt == 0 then 1.0 else if attempt == 1 then 2.0 else if attempt == 2 then 4.0
               else if attempt == 3 then 8.0 else if attempt == 4 then 16.0 else 30.0
  {
    assert Doubling(1) == 2.0 && Doubling(2) == 4.0 && Doubling(3) == 8.0 && Doubling(4) == 16.0;
    assert Doubling(5) == 32.0;
    if attempt > 5 { DoublingGrows(5, attempt); }
  }

  lemma {:induction false} DoublingGrows(m: nat, n: nat)
    requires m <= n
    ensures Doubling(m) <= Doubling(n)
    decreases n
  {
    if m < n { DoublingGrows(m, n - 1); }
  }

  function Scaled(x: real, fraction: real): real { x * fraction }

  lemma ScaledDown(x: real, fraction: real)
    requires x >= 0.0 && 0.0 <= fraction <= 1.0
    ensures 0.0 <= Scaled(x, fraction) <= x
  {
    assert x * fraction <= x * 1.0;
  }

  /** The pause after failed attempt number `attempt`: the curve, floored by the server's hint, spread
      upward by `spread` in [0, 1] of the jitter. */
  function RetryDelay(attempt: nat, hint: Option<real>, spread: real): real {
    var curve := Min(Doubling(attempt), CAP);
    var delay := match hint case None => curve case Some(seconds) => Max(curve, Min(seconds, CAP));
    Min(delay + Scaled(delay * JITTER, spread), CAP)
  }

  /** Never before the server asked to be asked again, never longer than the cap, and never shorter than
      the curve; without a hint, no longer than the startup model charges for it. */
  lemma DelayBounds(attempt: nat, hint: Option<real>, spread: real)
    requires 0.0 <= spread <= 1.0
    ensures 1.0 <= Min(Doubling(attempt), CAP) <= RetryDelay(attempt, hint, spread) <= CAP
    ensures hint.Some? ==> RetryDelay(attempt, hint, spread) >= Min(hint.value, CAP)
    ensures hint.None? ==> RetryDelay(attempt, hint, spread) <= Min(Doubling(attempt), CAP) * (1.0 + JITTER)
  {
    var curve := Min(Doubling(attempt), CAP);
    var delay := match hint case None => curve case Some(seconds) => Max(curve, Min(seconds, CAP));
    ScaledDown(delay * JITTER, spread);
  }

  /** Two pods refused at once do not wake at once: the one that draws more waits longer, unless both wait the cap. */
  lemma JitterSpreads(attempt: nat, hint: Option<real>, less: real, more: real)
    requires 0.0 <= less < more <= 1.0
    ensures RetryDelay(attempt, hint, less) < RetryDelay(attempt, hint, more) || RetryDelay(attempt, hint, less) == CAP
  {
    var curve := Min(Doubling(attempt), CAP);
    var delay := match hint case None => curve case Some(seconds) => Max(curve, Min(seconds, CAP));
    assert delay >= 1.0;
    ScaledGrows(delay * JITTER, less, more);
  }

  lemma ScaledGrows(x: real, less: real, more: real)
    requires x > 0.0 && less < more
    ensures Scaled(x, less) < Scaled(x, more)
  {
    assert x * (more - less) > 0.0;
  }

  /** The curve, summed over the pauses between `attempts` attempts. */
  function Ladder(attempts: nat): real {
    if attempts <= 1 then 0.0 else Ladder(attempts - 1) + Min(Doubling(attempts - 2), CAP)
  }

  /** What one attempt is expected to cost at most. */
  function Reserve(timeout: real): real { timeout + PREPARE }

  function Times(n: nat, x: real): real { (n as real) * x }

  lemma TimesNext(n: nat, x: real)
    ensures Times(n + 1, x) == Times(n, x) + x
  {
  }

  lemma {:induction false} TimesGrows(m: nat, n: nat, x: real)
    requires m <= n && x >= 0.0
    ensures Times(m, x) <= Times(n, x)
    decreases n
  {
    if m < n {
      TimesGrows(m, n - 1, x);
      TimesNext(n - 1, x);
    }
  }

  function WorstCase(attempts: nat, timeout: real): real {
    Times(attempts, Reserve(timeout)) + Ladder(attempts) * (1.0 + JITTER)
  }

  /** The startup check. */
  predicate Accepted(attempts: nat, timeout: real) {
    attempts > 0 && timeout > 0.0 && WorstCase(attempts, timeout) <= LIVENESS
  }

  function Deadline(): real { LIVENESS - MARGIN }

  /** One ladder so far: time spent, its slowest attempt, and whether a hint ever moved a pause. */
  datatype Timing = Timing(elapsed: real, slowest: real, hinted: bool)

  function Attempted(t: Timing, cost: real): Timing {
    Timing(t.elapsed + cost, Max(t.slowest, cost), t.hinted)
  }

  function Paused(t: Timing, delay: real, hint: Option<real>): Timing {
    Timing(t.elapsed + delay, t.slowest, t.hinted || hint.Some?)
  }

  predicate NoRoom(t: Timing, delay: real, timeout: real) {
    t.elapsed + delay + Reserve(timeout) > Deadline()
  }

  /** Where a ladder whose attempts have kept to the reserve stands before attempt number `attempt`. */
  predicate OnTime(t: Timing, attempt: nat, timeout: real) {
    t.slowest <= Reserve(timeout) ==>
      && (if attempt == 0 then t.elapsed == 0.0 else t.elapsed + Reserve(timeout) <= Deadline())
      && (!t.hinted ==> t.elapsed <= Times(attempt, Reserve(timeout)) + Ladder(attempt + 1) * (1.0 + JITTER))
  }

  /** The bounds after attempt number `attempt` returned or raised. */
  predicate InBudget(t: Timing, attempt: nat, timeout: real) {
    t.slowest <= Reserve(timeout) ==>
      && t.elapsed <= Max(Deadline(), Reserve(timeout))
      && (!t.hinted ==> t.elapsed <= Times(attempt + 1, Reserve(timeout)) + Ladder(attempt + 1) * (1.0 + JITTER))
  }

  lemma BeginsOnTime(timeout: real)
    ensures OnTime(Timing(0.0, 0.0, false), 0, timeout)
  {
  }

  lemma AttemptInBudget(t: Timing, attempt: nat, timeout: real, cost: real)
    requires OnTime(t, attempt, timeout) && cost >= 0.0
    ensures InBudget(Attempted(t, cost), attempt, timeout)
  {
    TimesNext(attempt, Reserve(timeout));
  }

  /** A pause the deadline check lets through leaves room for the attempt it leads to. */
  lemma PauseOnTime(t: Timing, attempt: nat, timeout: real, hint: Option<real>, spread: real)
    requires InBudget(t, attempt, timeout) && 0.0 <= spread <= 1.0
    requires !NoRoom(t, RetryDelay(attempt, hint, spread), timeout)
    ensures OnTime(Paused(t, RetryDelay(attempt, hint, spread), hint), attempt + 1, timeout)
  {
    DelayBounds(attempt, hint, spread);
    var curve := Min(Doubling(attempt), CAP);
    assert Ladder(attempt + 2) == Ladder(attempt + 1) + curve;
    assert Ladder(attempt + 2) * (1.0 + JITTER) == Ladder(attempt + 1) * (1.0 + JITTER) + curve * (1.0 + JITTER);
  }

  /** A ladder that ends after attempt number `last` of an accepted configuration ends within the liveness
      budget, and, if no hint moved a pause, within the worst case the startup check computed. */
  lemma {:induction false} EndsInTime(t: Timing, last: nat, attempts: nat, timeout: real)
    requires InBudget(t, last, timeout) && last < attempts && Accepted(attempts, timeout)
    requires t.slowest <= Reserve(timeout)
    ensures t.elapsed <= LIVENESS
    ensures !t.hinted ==> t.elapsed <= WorstCase(attempts, timeout)
  {
    LadderGrows(last + 1, attempts);
    TimesGrows(last + 1, attempts, Reserve(timeout));
    TimesGrows(1, attempts, Reserve(timeout));
    assert Times(1, Reserve(timeout)) == Reserve(timeout);
    assert Ladder(attempts) >= 0.0;
  }

  lemma {:induction false} LadderGrows(m: nat, n: nat)
    requires m <= n
    ensures 0.0 <= Ladder(m) <= Ladder(n)
    decreases n
  {
    if n > 1 && m < n {
      LadderGrows(m, n - 1);
    } else if n > 1 {
      LadderGrows(n - 1, n - 1);
    }
  }

  /** The deadline cuts no ladder without hints that is priced below it, 450 seconds. */
  lemma NeverCut(t: Timing, attempt: nat, attempts: nat, timeout: real, spread: real)
    requires attempt + 1 < attempts && timeout > 0.0 && 0.0 <= spread <= 1.0 && InBudget(t, attempt, timeout)
    requires t.slowest <= Reserve(timeout) && !t.hinted && WorstCase(attempts, timeout) <= 450.0
    ensures !NoRoom(t, RetryDelay(attempt, None, spread), timeout)
  {
    DelayBounds(attempt, None, spread);
    var curve := Min(Doubling(attempt), CAP);
    assert Ladder(attempt + 2) == Ladder(attempt + 1) + curve;
    assert Ladder(attempt + 2) * (1.0 + JITTER) == Ladder(attempt + 1) * (1.0 + JITTER) + curve * (1.0 + JITTER);
    LadderGrows(attempt + 2, attempts);
    TimesNext(attempt + 1, Reserve(timeout));
    TimesGrows(attempt + 2, attempts, Reserve(timeout));
  }

  /** A ladder whose attempts all take their whole reserve and whose pauses are drawn as long as can be. */
  function Slowest(attempts: nat, timeout: real): real {
    if attempts == 0 then 0.0
    else if attempts == 1 then timeout + 20.0
    else Slowest(attempts - 1, timeout) + RetryDelay(attempts - 2, None, 1.0) + (timeout + 20.0)
  }

  /** Up to six attempts, where no pause is capped, the price of a ladder is the time of its slowest run. */
  lemma PriceIsReached(attempts: nat, timeout: real)
    requires 0 < attempts <= 6
    ensures Slowest(attempts, timeout) == WorstCase(attempts, timeout)
  {
    TimesNext(attempts - 1, Reserve(timeout));
    if attempts > 1 {
      PriceIsReached(attempts - 1, timeout);
      CurveIs(attempts - 2);
      var curve := Min(Doubling(attempts - 2), CAP);
      assert Scaled(curve * JITTER, 1.0) == curve * JITTER;
      assert Ladder(attempts) * (1.0 + JITTER) == Ladder(attempts - 1) * (1.0 + JITTER) + curve * (1.0 + JITTER);
    }
  }

  /** A configuration of up to six attempts is accepted exactly if its slowest run keeps within 480 seconds. */
  lemma AcceptedExactly(attempts: nat, timeout: real)
    requires 0 < attempts <= 6 && timeout > 0.0
    ensures Accepted(attempts, timeout) <==> Slowest(attempts, timeout) <= 480.0
  {
    PriceIsReached(attempts, timeout);
  }

  /** Why the deadline is needed: the default configuration is accepted, and six attempts within the
      reserve with five pauses at a server's hint would outlive the liveness budget. */
  lemma HintsOverrunTheModel()
    ensures Accepted(6, 45.0)
    ensures Times(6, Reserve(45.0)) + Times(5, RetryDelay(0, Some(30.0), 0.0)) > LIVENESS
  {
    assert Doubling(0) == 1.0 && Doubling(1) == 2.0 && Doubling(2) == 4.0 && Doubling(3) == 8.0 && Doubling(4) == 16.0;
    assert Ladder(2) == 1.0 && Ladder(3) == 3.0 && Ladder(4) == 7.0 && Ladder(5) == 15.0 && Ladder(6) == 31.0;
  }
}
