/** The reconnect loop: its backoff arithmetic on 64-bit durations, and how fast a whole run can retry. */
module Reconnect {
  import opened Text
  import opened Config

  const AUTH_COOLDOWN := 5 * MINUTE
  const PENDING_AUTH_DELAY := 3 * SECOND
  const MIN_BACKOFF_DELAY := 100 * MS
  const STABLE_SESSION := 20 * SECOND

  // ---------------------------------------------------------------- the doubling loop

  /** The rest of the doubling loop with `n` steps to go. */
  function Doubled(delay: int, max: int, n: nat): int
    decreases n
  {
    if n == 0 || delay >= max then delay
    else
      var twice := Wrap(delay * 2);
      Doubled(if twice > max then max else twice, max, n - 1)
  }

  /** base * 2^n. */
  function Grown(base: int, n: nat): int { if n == 0 then base else 2 * Grown(base, n - 1) }

  function Min(a: int, b: int): int { if a < b then a else b }

  lemma {:induction false} DoubleFirst(d: int, n: nat)
    requires n > 0
    ensures Grown(d, n) == Grown(2 * d, n - 1)
  {
    if n > 1 { DoubleFirst(d, n - 1); }
  }

  lemma {:induction false} GrownBound(d: int, n: nat)
    requires d > 0
    ensures Grown(d, n) >= d
  {
    if n > 0 { GrownBound(d, n - 1); }
  }

  /** No delay the loop doubles is 2^62 or more. */
  ghost predicate NeverOverflows(base: int, max: int) {
    forall i: nat :: Grown(base, i) < max ==> Grown(base, i) < TWO_62
  }

  lemma NeverOverflowsNext(d: int, max: int)
    requires 0 < d && NeverOverflows(d, max)
    ensures d < max ==> d < TWO_62
    ensures NeverOverflows(2 * d, max)
  {
    assert Grown(d, 0) == d;
    forall i: nat | Grown(2 * d, i) < max ensures Grown(2 * d, i) < TWO_62 { DoubleFirst(d, i + 1); }
  }

  lemma {:induction false} DoubledIsClosed(d: int, max: int, n: nat)
    requires 0 < d <= max <= INT64_MAX && NeverOverflows(d, max)
    ensures Doubled(d, max, n) == Min(Grown(d, n), max)
    decreases n
  {
    if n == 0 {
    } else if d >= max {
      GrownBound(d, n);
    } else {
      NeverOverflowsNext(d, max);
      WrapFits(d * 2);
      DoubleFirst(d, n);
      if 2 * d > max {
        GrownBound(2 * d, n - 1);
        assert Doubled(max, max, n - 1) == max;
      } else {
        DoubledIsClosed(2 * d, max, n - 1);
      }
    }
  }

  /** The first doubling that overflows leaves a negative delay. */
  lemma {:induction false} OverflowShows(d: int, max: int, i: nat) returns (n: nat)
    requires 0 < d <= max <= INT64_MAX && TWO_62 <= Grown(d, i) < max
    ensures Doubled(d, max, n) < 0
    decreases i
  {
    WrapFits(d * 2);
    if i == 0 || d >= TWO_62 {
      GrownBound(d, i);
      n := 1;
      assert Doubled(d, max, 1) == Doubled(Wrap(d * 2), max, 0);
    } else {
      DoubleFirst(d, i);
      GrownBound(2 * d, i - 1);
      n := OverflowShows(2 * d, max, i - 1);
      n := n + 1;
    }
  }

  /** The loop computes min(base * 2^step, max) for every step, if and only if no doubling of the base lands
      between 2^62 and the cap. */
  lemma ClosedFormIff(base: int, max: int)
    requires 0 < base <= max <= INT64_MAX
    ensures (forall n: nat :: Doubled(base, max, n) == Min(Grown(base, n), max)) <==> NeverOverflows(base, max)
  {
    if NeverOverflows(base, max) {
      forall n: nat ensures Doubled(base, max, n) == Min(Grown(base, n), max) { DoubledIsClosed(base, max, n); }
    } else {
      var i: nat :| Grown(base, i) < max && Grown(base, i) >= TWO_62;
      var n := OverflowShows(base, max, i);
      GrownBound(base, n);
    }
  }

  // ---------------------------------------------------------------- jitter

  /** Go's division truncates. */
  function TruncDiv(a: int, b: int): int
    requires b > 0
  {
    if a >= 0 then a / b else -((-a) / b)
  }

  function JitterMax(delay: int, pct: int): int { TruncDiv(Wrap(delay * pct), 100) }

  function Clamp(adjusted: int, max: int): int {
    if adjusted < MIN_BACKOFF_DELAY then MIN_BACKOFF_DELAY else if adjusted > max then max else adjusted
  }

  /** `wait` is a possible spread of `delay`. */
  ghost predicate Spreads(delay: int, max: int, pct: int, wait: int) {
    var j := JitterMax(delay, pct);
    if pct <= 0 || j <= 0 then wait == delay
    else wait == delay || exists offset :: 0 <= offset <= 2 * j && wait == Adjusted(delay, offset, j, max)
  }

  function Adjusted(delay: int, offset: int, j: int, max: int): int { Clamp(Wrap(Wrap(delay + offset) - j), max) }

  function OrSecond(base: int): int { if base <= 0 then SECOND else base }

  /** `wait` is a possible result of the backoff for these arguments. */
  ghost predicate Backs(base: int, max: int, step: int, pct: int, wait: int) {
    var b := OrSecond(base);
    var m := if max < b then b else max;
    Spreads(Doubled(b, m, if step < 0 then 0 else step), m, pct, wait)
  }

  /** `jitteredBackoff`; `draws` is false when the random source fails. */
  method JitteredBackoff(base: int, max: int, step: int, pct: int, draws: bool) returns (wait: int)
    requires Int64(base) && Int64(max)
    ensures Backs(base, max, step, pct, wait)
  {
    var base', max', step' := base, max, step;
    if base' <= 0 { base' := SECOND; }
    if max' < base' { max' := base'; }
    if step' < 0 { step' := 0; }
    var delay := base';
    var i := 0;
    while i < step' && delay < max'
      invariant 0 <= i <= step'
      invariant Doubled(delay, max', step' - i) == Doubled(base', max', step')
    {
      delay := Wrap(delay * 2);
      if delay > max' { delay := max'; }
      i := i + 1;
    }
    wait := Spread(delay, max', pct, draws);
  }

  /** Its second half. */
  method Spread(delay: int, max: int, pct: int, draws: bool) returns (wait: int)
    ensures Spreads(delay, max, pct, wait)
  {
    if pct <= 0 { return delay; }
    var jitterMax := TruncDiv(Wrap(delay * pct), 100);
    if jitterMax <= 0 || !draws { return delay; }
    var offset: int :| 0 <= offset <= 2 * jitterMax;
    var adjusted := Wrap(Wrap(delay + offset) - jitterMax);
    if adjusted < MIN_BACKOFF_DELAY {
      wait := MIN_BACKOFF_DELAY;
    } else if adjusted > max {
      wait := max;
    } else {
      wait := adjusted;
    }
    assert wait == Adjusted(delay, offset, jitterMax, max);
  }

  /** The jitter that takes effect. */
  function Width(delay: int, pct: int): (w: int)
    ensures w >= 0
  {
    if pct <= 0 || JitterMax(delay, pct) <= 0 then 0 else JitterMax(delay, pct)
  }

  /** Settings for which no delay overflows: not in the doubling, and not when the jitter is added to the cap. */
  ghost predicate Sound(c: Intervals) {
    Bounded(c) && NeverOverflows(c.base, c.max) && c.max + Width(c.max, c.jitterPct) <= INT64_MAX
  }

  /** The delay after `failures` earlier failures, before jitter. */
  function Delay(c: Intervals, failures: nat): int { Min(Grown(c.base, failures), c.max) }

  function Jitter(c: Intervals, failures: nat): int { Width(Delay(c, failures), c.jitterPct) }

  lemma PlainJitter(p: int)
    requires 0 <= p <= INT64_MAX
    ensures TruncDiv(Wrap(p), 100) == p / 100
  {
    WrapFits(p);
  }

  lemma ProductBound(d: int, pct: int)
    requires 0 < d && 0 <= pct <= 50
    ensures 0 <= d * pct <= 50 * d
  {
    Times(d, pct);
    Times(d, 50 - pct);
    assert d * pct + d * (50 - pct) == 50 * d;
  }

  lemma Times(a: int, b: int)
    requires a >= 0 && b >= 0
    ensures a * b >= 0
  {
  }

  lemma HalfOfProduct(d: int, p: int)
    requires 0 <= p <= 50 * d
    ensures 2 * (p / 100) <= d
  {
  }

  lemma WrappedHalf(d: int, p: int)
    requires INT64_MAX < p <= 50 * d
    ensures 2 * TruncDiv(Wrap(p), 100) <= d
  {
    WrapFits(p);
    TruncBound(Wrap(p));
  }

  lemma TruncBound(a: int)
    requires a <= INT64_MAX
    ensures 100 * TruncDiv(a, 100) <= INT64_MAX
  {
  }

  /** The jitter is at most half the delay, even if its product wraps around; if that does not, it is
      floor(delay * pct / 100). */
  lemma WidthBound(d: int, pct: int)
    requires 0 < d <= INT64_MAX && 0 <= pct <= 50
    ensures 2 * Width(d, pct) <= d
    ensures d * pct <= INT64_MAX ==> Width(d, pct) == d * pct / 100
  {
    ProductBound(d, pct);
    if d * pct <= INT64_MAX {
      PlainJitter(d * pct);
      HalfOfProduct(d, d * pct);
    } else {
      WrappedHalf(d, d * pct);
    }
  }

  lemma DelayBounds(c: Intervals, n: nat)
    requires Sound(c)
    ensures c.base <= Delay(c, n) <= c.max
    ensures Doubled(c.base, c.max, n) == Delay(c, n)
    ensures 0 <= 2 * Jitter(c, n) <= Delay(c, n) && Delay(c, n) + Jitter(c, n) <= INT64_MAX
  {
    DoubledIsClosed(c.base, c.max, n);
    GrownBound(c.base, n);
    WidthBound(Delay(c, n), c.jitterPct);
    assert Delay(c, n) < c.max ==> Grown(c.base, n) < TWO_62;
  }

  /** Adding before subtracting may wrap, but then the subtraction wraps back. */
  lemma WrapsBack(d: int, offset: int, j: int)
    requires 0 < d <= INT64_MAX && 0 <= offset <= 2 * j <= d && d + j <= INT64_MAX
    ensures Wrap(Wrap(d + offset) - j) == d + offset - j
  {
    WrapFits(d + offset);
    WrapFits(Wrap(d + offset) - j);
  }

  /** With sound settings the 100 ms clamp is out of reach. */
  lemma AdjustedIs(d: int, offset: int, j: int, max: int)
    requires 250 * MS <= d <= max <= INT64_MAX && 0 <= offset <= 2 * j <= d && d + j <= INT64_MAX
    ensures Adjusted(d, offset, j, max) == Min(d + offset - j, max)
  {
    WrapsBack(d, offset, j);
  }

  /** The spread of a delay with jitter `j` is everything within `j` of it, cut off at the cap. */
  lemma SpreadRange(d: int, max: int, pct: int, wait: int)
    requires 250 * MS <= d <= max <= INT64_MAX && 2 * Width(d, pct) <= d && d + Width(d, pct) <= INT64_MAX
    ensures Spreads(d, max, pct, wait) <==> d - Width(d, pct) <= wait <= Min(max, d + Width(d, pct))
  {
    var j := Width(d, pct);
    if Spreads(d, max, pct, wait) && wait != d {
      var offset :| 0 <= offset <= 2 * j && wait == Adjusted(d, offset, j, max);
      AdjustedIs(d, offset, j, max);
    }
    if d - j <= wait <= Min(max, d + j) && wait != d {
      AdjustedIs(d, wait - d + j, j, max);
      assert wait == Adjusted(d, wait - d + j, j, max);
    }
  }

  /** The backoff characterised: the possible waits after `n` failures are exactly those within the jitter of
      min(base * 2^n, max), cut off at the cap. */
  lemma BackoffRange(c: Intervals, n: nat, wait: int)
    requires Sound(c)
    ensures Backs(c.base, c.max, n, c.jitterPct, wait) <==>
            Delay(c, n) - Jitter(c, n) <= wait <= Min(c.max, Delay(c, n) + Jitter(c, n))
  {
    DelayBounds(c, n);
    SpreadRange(Delay(c, n), c.max, c.jitterPct, wait);
  }

  /** For any arguments at all: a base that is not positive stands for a second, a cap below the base for the base, and
      a negative number of failures for none. */
  lemma BackoffOfAny(base: int, max: int, step: int, pct: int, wait: int)
    requires var b := if base <= 0 then 1_000_000_000 else base;
             Sound(Intervals(0, 0, b, if max < b then b else max, pct))
    ensures var b := if base <= 0 then 1_000_000_000 else base;
            var c, n := Intervals(0, 0, b, if max < b then b else max, pct), if step < 0 then 0 else step;
            Backs(base, max, step, pct, wait) <==>
            Delay(c, n) - Jitter(c, n) <= wait <= Min(c.max, Delay(c, n) + Jitter(c, n))
  {
    var b := if base <= 0 then 1_000_000_000 else base;
    BackoffRange(Intervals(0, 0, b, if max < b then b else max, pct), if step < 0 then 0 else step, wait);
  }

  /** The shortest gap between attempts that the settings are meant to allow. */
  const FLOOR := 125_000_000

  lemma BackoffFloor(c: Intervals, n: nat, wait: int)
    requires Sound(c) && Backs(c.base, c.max, n, c.jitterPct, wait)
    ensures wait >= FLOOR
  {
    BackoffRange(c, n, wait);
    DelayBounds(c, n);
  }

  ghost predicate NeverShort(c: Intervals) {
    forall n: nat, wait :: Backs(c.base, c.max, n, c.jitterPct, wait) ==> wait >= FLOOR
  }

  lemma {:induction false} GrowsPast(d: int, n: nat)
    requires d > 0
    ensures Grown(d, n) >= n
  {
    if n > 0 {
      GrowsPast(d, n - 1);
      GrownBound(d, n - 1);
    }
  }

  /** If the jitter on top of the cap overflows, the wait collapses to the 100 ms clamp. */
  lemma CapOverflows(c: Intervals) returns (n: nat, wait: int)
    requires Bounded(c) && NeverOverflows(c.base, c.max) && c.max + Width(c.max, c.jitterPct) > INT64_MAX
    ensures Backs(c.base, c.max, n, c.jitterPct, wait) && wait == 100_000_000
  {
    n := c.max;
    GrowsPast(c.base, n);
    DoubledIsClosed(c.base, c.max, n);
    var j := JitterMax(c.max, c.jitterPct);
    WidthBound(c.max, c.jitterPct);
    CapCollapses(c.max, j);
    wait := Adjusted(c.max, 2 * j, j, c.max);
  }

  lemma CapCollapses(max: int, j: int)
    requires 0 < 2 * j <= max <= INT64_MAX < max + j
    ensures Adjusted(max, 2 * j, j, max) == MIN_BACKOFF_DELAY
  {
    WrapFits(max + 2 * j);
    WrapFits(Wrap(max + 2 * j) - j);
  }

  /** No wait is ever below 125 ms, if and only if the settings are sound. */
  lemma NeverShortIff(c: Intervals)
    requires Bounded(c)
    ensures NeverShort(c) <==> Sound(c)
  {
    if Sound(c) {
      forall n: nat, wait | Backs(c.base, c.max, n, c.jitterPct, wait) ensures wait >= FLOOR {
        BackoffFloor(c, n, wait);
      }
    } else if NeverOverflows(c.base, c.max) {
      var n, wait := CapOverflows(c);
    } else {
      var i: nat :| Grown(c.base, i) < c.max && Grown(c.base, i) >= TWO_62;
      var n := OverflowShows(c.base, c.max, i);
      assert Backs(c.base, c.max, n, c.jitterPct, Doubled(c.base, c.max, n));
    }
  }

  /** Every cap up to 146 years is sound. */
  lemma ShortCapIsSound(c: Intervals)
    requires Bounded(c) && c.max <= TWO_62
    ensures Sound(c)
  {
    WidthBound(c.max, c.jitterPct);
  }

  /** Settings the configuration accepts but the arithmetic does not survive: from the third failure on there is
      no delay at all, whatever the jitter. */
  lemma OverflowStopsBackingOff(e: Env, n: nat, wait: int)
    requires ParsedEnv(e) && e.base == Some(TWO_62) && e.max == Some(INT64_MAX) && n >= 2
    requires Backs(Load(e).base, Load(e).max, n, Load(e).jitterPct, wait)
    ensures wait == 0
  {
    WrapFits(TWO_62 * 2);
    assert Wrap(-TWO_63 * 2) == 0 by { WrapFits(-TWO_63 * 2); }
    assert Doubled(TWO_62, INT64_MAX, n) == Doubled(-TWO_63, INT64_MAX, n - 1) == Doubled(0, INT64_MAX, n - 2);
    ZeroStaysZero(INT64_MAX, n - 2);
    WrapFits(0);
  }

  lemma {:induction false} ZeroStaysZero(max: int, n: nat)
    requires max > 0
    ensures Doubled(0, max, n) == 0
  {
    WrapFits(0);
    if n > 0 { ZeroStaysZero(max, n - 1); }
  }

  // ---------------------------------------------------------------- sessions

  /** How an error is marked. */
  datatype Failure = Failure(duplicate: bool, nonRetriable: bool, pendingAuth: bool)

  /** One connection attempt. `took` is how long it lasted, from dialling to its end; `lived` is the part since
      the socket was open. */
  datatype Session =
    | Undialled(failure: Failure, took: nat)
    | Unannounced(failure: Failure, took: nat, lived: nat)
    | Served(failure: Failure, took: nat, lived: nat)

  predicate Real(s: Session) { s.Undialled? || s.lived <= s.took }

  /** `connectAndServe`: was the session stable? Every attempt ends in an error. */
  function Stable(s: Session): bool {
    match s
    case Undialled(_, _) => false
    case Unannounced(_, _, lived) => lived >= STABLE_SESSION
    case Served(f, _, lived) => !(f.pendingAuth || f.nonRetriable || f.duplicate) && lived >= STABLE_SESSION
  }

  predicate CoolsDown(s: Session) { s.failure.duplicate || s.failure.nonRetriable }

  /** Does the attempt end the streak of failures? */
  predicate Resets(s: Session) { CoolsDown(s) || Stable(s) || s.failure.pendingAuth }

  /** What one turn of the loop can wait, `streak` failures in a row before it. */
  ghost predicate Waits(c: Intervals, streak: nat, s: Session, wait: int) {
    if CoolsDown(s) then wait == AUTH_COOLDOWN
    else if Stable(s) then wait == 0
    else if s.failure.pendingAuth then wait == PENDING_AUTH_DELAY
    else Backs(c.base, c.max, streak, c.jitterPct, wait)
  }

  /** The failures in a row at the end of a run. */
  function Streak(sessions: seq<Session>): nat {
    if sessions == [] || Resets(sessions[|sessions| - 1]) then 0 else Streak(sessions[..|sessions| - 1]) + 1
  }

  /** How long `sleepUntil` takes at least: a negative delay returns at once. */
  function Slept(wait: int): nat { if wait < 0 then 0 else wait }

  /** `starts[i]` is when attempt `i` begins: after the one before it, its wait, and the time `late[i]` by which the
      turn resumed later than asked. */
  ghost predicate Timed(c: Intervals, sessions: seq<Session>, late: seq<nat>, starts: seq<int>) {
    && |starts| == |sessions| == |late|
    && forall i :: 0 <= i < |starts| - 1 ==>
         GapOf(c, sessions[..i], sessions[i], late[i], starts[i + 1] - starts[i])
  }

  ghost predicate GapOf(c: Intervals, earlier: seq<Session>, s: Session, late: nat, gap: int) {
    exists wait :: Waits(c, Streak(earlier), s, wait) && gap == s.took + Slept(wait) + late
  }

  /** `Run` over the attempts of one process life. `late[i]` is how much later than asked turn `i` resumes. */
  method Run(c: Intervals, token: string, serverId: string, sessions: seq<Session>, late: seq<nat>, draws: seq<bool>,
             now: int) returns (starts: seq<int>)
    requires Int64(c.base) && Int64(c.max) && |late| == |draws| == |sessions|
    ensures Blank(token) || Blank(serverId) ==> starts == []
    ensures !Blank(token) && !Blank(serverId) ==> Timed(c, sessions, late, starts)
  {
    starts := [];
    if TrimSpace(token) == "" || TrimSpace(serverId) == "" { return; }
    var consecutiveFailures := 0;
    var clock := now;
    for k := 0 to |sessions|
      invariant |starts| == k && consecutiveFailures == Streak(sessions[..k])
      invariant forall i :: 0 <= i < k - 1 ==>
                  GapOf(c, sessions[..i], sessions[i], late[i], starts[i + 1] - starts[i])
      invariant k > 0 ==> GapOf(c, sessions[..k - 1], sessions[k - 1], late[k - 1], clock - starts[k - 1])
    {
      starts := starts + [clock];
      var wait;
      wait, consecutiveFailures := AfterSession(c, sessions[k], consecutiveFailures, draws[k]);
      clock := clock + sessions[k].took + Slept(wait) + late[k];
      assert sessions[..k + 1][..k] == sessions[..k];
      WaitIsGap(c, sessions[..k], sessions[k], late[k], wait);
    }
  }

  lemma WaitIsGap(c: Intervals, earlier: seq<Session>, s: Session, late: nat, wait: int)
    requires Waits(c, Streak(earlier), s, wait)
    ensures GapOf(c, earlier, s, late, s.took + Slept(wait) + late)
  {
  }

  /** What the loop does with the end of a session: how long to wait, and the failures in a row from here. */
  method AfterSession(c: Intervals, s: Session, failures: nat, draws: bool) returns (wait: int, failures': nat)
    requires Int64(c.base) && Int64(c.max)
    ensures Waits(c, failures, s, wait) && failures' == if Resets(s) then 0 else failures + 1
  {
    if s.failure.duplicate || s.failure.nonRetriable { return AUTH_COOLDOWN, 0; }
    if Stable(s) { return 0, 0; }
    failures' := failures + 1;
    wait := JitteredBackoff(c.base, c.max, failures' - 1, c.jitterPct, draws);
    if s.failure.pendingAuth {
      wait := PENDING_AUTH_DELAY;
      failures' := 0;
    }
  }

  /** How long from one attempt to the next, at least. */
  function Pace(c: Intervals, earlier: seq<Session>, s: Session): int {
    if CoolsDown(s) then AUTH_COOLDOWN
    else if Stable(s) then STABLE_SESSION
    else if s.failure.pendingAuth then PENDING_AUTH_DELAY
    else Delay(c, Streak(earlier)) - Jitter(c, Streak(earlier))
  }

  /** Every gap of every run: a five-minute cooldown, a session of 20 s or more, 3 s for a pending pairing, or
      the backoff for the failures in a row so far; never less than 125 ms. */
  lemma PaceIsKept(c: Intervals, sessions: seq<Session>, late: seq<nat>, starts: seq<int>, i: nat)
    requires Sound(c) && Timed(c, sessions, late, starts) && i + 1 < |starts|
    requires Real(sessions[i])
    ensures starts[i + 1] - starts[i] >= Pace(c, sessions[..i], sessions[i]) >= FLOOR
  {
    assert GapOf(c, sessions[..i], sessions[i], late[i], starts[i + 1] - starts[i]);
    GapKeepsPace(c, sessions[..i], sessions[i], late[i], starts[i + 1] - starts[i]);
  }

  lemma GapKeepsPace(c: Intervals, earlier: seq<Session>, s: Session, late: nat, gap: int)
    requires Sound(c) && GapOf(c, earlier, s, late, gap) && Real(s)
    ensures gap >= Pace(c, earlier, s) >= FLOOR
  {
    var wait :| Waits(c, Streak(earlier), s, wait) && gap == s.took + Slept(wait) + late;
    DelayBounds(c, Streak(earlier));
    if !Resets(s) { BackoffRange(c, Streak(earlier), wait); }
  }

  /** A session of 20 s or more on an open socket; once announced, it must not end in an error of its own kind. */
  predicate HeldOut(s: Session) {
    && !s.Undialled? && s.lived >= 20_000_000_000
    && (s.Served? ==> !s.failure.duplicate && !s.failure.nonRetriable && !s.failure.pendingAuth)
  }

  /** What an attempt that is over asks for, `streak` failures in a row before it: five minutes after a refusal, no
      wait after a stable session, 3 s while a pairing is pending, and else the delay of the streak within its
      jitter, cut off at the cap. */
  predicate Asks(c: Intervals, streak: nat, s: Session, rest: int) {
    if s.failure.duplicate || s.failure.nonRetriable then rest == 300_000_000_000
    else if HeldOut(s) then rest == 0
    else if s.failure.pendingAuth then rest == 3_000_000_000
    else Delay(c, streak) - Jitter(c, streak) <= rest <= Min(c.max, Delay(c, streak) + Jitter(c, streak))
  }

  /** Nothing is slept beyond that: between two attempts lie the first of them, what it asks for, and the delay of the
      scheduler. */
  lemma GapIsExact(c: Intervals, sessions: seq<Session>, late: seq<nat>, starts: seq<int>, i: nat)
    requires Sound(c) && Timed(c, sessions, late, starts) && i + 1 < |starts|
    ensures Asks(c, Streak(sessions[..i]), sessions[i], starts[i + 1] - starts[i] - sessions[i].took - late[i])
  {
    var s, n := sessions[i], Streak(sessions[..i]);
    assert GapOf(c, sessions[..i], s, late[i], starts[i + 1] - starts[i]);
    var wait :| Waits(c, n, s, wait) && starts[i + 1] - starts[i] == s.took + Slept(wait) + late[i];
    DelayBounds(c, n);
    if !Resets(s) { BackoffRange(c, n, wait); }
  }

  /** The streak is the number of attempts since one that was refused, held out, or met a pending pairing. */
  lemma {:induction false} StreakIs(sessions: seq<Session>)
    ensures var n := Streak(sessions);
            && n <= |sessions|
            && (forall k :: |sessions| - n <= k < |sessions| ==> !EndsStreak(sessions[k]))
            && (n < |sessions| ==> EndsStreak(sessions[|sessions| - n - 1]))
  {
    if sessions != [] && !Resets(sessions[|sessions| - 1]) { StreakIs(sessions[..|sessions| - 1]); }
  }

  predicate EndsStreak(s: Session) {
    s.failure.duplicate || s.failure.nonRetriable || HeldOut(s) || s.failure.pendingAuth
  }

  ghost predicate AllReal(sessions: seq<Session>) { forall k :: 0 <= k < |sessions| ==> Real(sessions[k]) }

  /** Any n attempts span at least (n - 1) * 125 ms. */
  ghost predicate Spaced(starts: seq<int>) {
    forall i, j :: 0 <= i <= j < |starts| ==> starts[j] - starts[i] >= Floors(j - i)
  }

  /** n * 125 ms. */
  function Floors(n: nat): int { if n == 0 then 0 else Floors(n - 1) + FLOOR }

  lemma {:induction false} FloorsIs(n: nat)
    ensures Floors(n) == n * FLOOR
  {
    if n > 0 { FloorsIs(n - 1); }
  }

  lemma {:induction false} SpanOfRun(starts: seq<int>, i: nat, j: nat)
    requires i <= j < |starts|
    requires forall k :: 0 <= k < |starts| - 1 ==> starts[k + 1] - starts[k] >= FLOOR
    ensures starts[j] - starts[i] >= Floors(j - i)
    decreases j - i
  {
    if i < j {
      SpanOfRun(starts, i, j - 1);
      assert starts[j - 1 + 1] - starts[j - 1] >= FLOOR;
    }
  }

  lemma SoundRunIsSpaced(c: Intervals, sessions: seq<Session>, late: seq<nat>, starts: seq<int>)
    requires Sound(c) && Timed(c, sessions, late, starts) && AllReal(sessions)
    ensures Spaced(starts)
  {
    forall k | 0 <= k < |starts| - 1 ensures starts[k + 1] - starts[k] >= FLOOR {
      PaceIsKept(c, sessions, late, starts, k);
    }
    forall i, j | 0 <= i <= j < |starts| ensures starts[j] - starts[i] >= Floors(j - i) { SpanOfRun(starts, i, j); }
  }

  /** No run under these settings is a busy loop. */
  ghost predicate NeverBusy(c: Intervals) {
    forall sessions, late, starts :: Timed(c, sessions, late, starts) && AllReal(sessions) ==> Spaced(starts)
  }

  /** No busy loop: over every run, any n attempts span at least (n - 1) * 125 ms, if and only if the settings are
      sound. */
  lemma NoBusyLoopIff(c: Intervals)
    requires Bounded(c)
    ensures NeverBusy(c) <==> Sound(c)
  {
    NeverShortIff(c);
    if Sound(c) {
      forall sessions, late, starts | Timed(c, sessions, late, starts) && AllReal(sessions) ensures Spaced(starts) {
        SoundRunIsSpaced(c, sessions, late, starts);
      }
    } else {
      var n: nat, wait :| Backs(c.base, c.max, n, c.jitterPct, wait) && wait < FLOOR;
      ShortRun(c, n, wait);
      assert !Spaced(Crowded(c, n, wait)) by { CrowdedIs(c, n, wait); }
    }
  }

  /** The configuration loaded from any environment is sound if its cap is at most 146 years. */
  lemma NoBusyLoop(e: Env)
    requires ParsedEnv(e)
    ensures Load(e).max <= TWO_62 ==> NeverBusy(Load(e))
    ensures NeverBusy(Load(e)) <==> Sound(Load(e))
  {
    LoadIsBounded(e);
    NoBusyLoopIff(Load(e));
    if Load(e).max <= TWO_62 { ShortCapIsSound(Load(e)); }
  }

  // ---------------------------------------------------------------- a run with a short wait

  /** An attempt that fails at once for no particular reason. */
  const PLAIN := Undialled(Failure(false, false, false), 0)

  function Plains(n: nat): seq<Session> { if n == 0 then [] else Plains(n - 1) + [PLAIN] }

  lemma {:induction false} PlainsAre(n: nat)
    ensures |Plains(n)| == n && forall i :: 0 <= i < n ==> Plains(n)[i] == PLAIN
  {
    if n > 0 { PlainsAre(n - 1); }
  }

  lemma StreakSnoc(sessions: seq<Session>, s: Session)
    requires !Resets(s)
    ensures Streak(sessions + [s]) == Streak(sessions) + 1
  {
    assert (sessions + [s])[..|sessions|] == sessions;
  }

  lemma {:induction false} StreakOfPlains(n: nat)
    ensures Streak(Plains(n)) == n
  {
    if n > 0 {
      StreakOfPlains(n - 1);
      StreakSnoc(Plains(n - 1), PLAIN);
    }
  }

  lemma {:induction false} PlainsPrefix(n: nat, i: nat)
    requires i <= n
    ensures |Plains(n)| == n && Plains(n)[..i] == Plains(i)
  {
    PlainsAre(n);
    if i == n {
      assert Plains(n)[..n] == Plains(n);
    } else {
      PlainsPrefix(n - 1, i);
      assert Plains(n)[..i] == Plains(n - 1)[..i];
    }
  }

  /** No turn resumes late. */
  function Promptly(n: nat): (r: seq<nat>)
    ensures |r| == n && forall i :: 0 <= i < n ==> r[i] == 0
  {
    if n == 0 then [] else Promptly(n - 1) + [0]
  }

  /** When `n` plain attempts and one more start, each after the delay without jitter. */
  function Ticks(c: Intervals, n: nat): (r: seq<int>)
    ensures |r| == n + 1
  {
    if n == 0 then [0] else Ticks(c, n - 1) + [Ticks(c, n - 1)[n - 1] + Slept(Doubled(c.base, c.max, n - 1))]
  }

  function Crowded(c: Intervals, n: nat, wait: int): (r: seq<int>)
    ensures |r| == n + 2
  {
    Ticks(c, n) + [Ticks(c, n)[n] + Slept(wait)]
  }

  lemma {:induction false} TicksGap(c: Intervals, n: nat, i: nat)
    requires i < n
    ensures Ticks(c, n)[i + 1] - Ticks(c, n)[i] == Slept(Doubled(c.base, c.max, i))
  {
    if i < n - 1 { TicksGap(c, n - 1, i); }
  }

  lemma CrowdedIs(c: Intervals, n: nat, wait: int)
    requires wait < FLOOR
    ensures Crowded(c, n, wait)[n + 1] - Crowded(c, n, wait)[n] == Slept(wait) < Floors(1)
  {
  }

  lemma PlainGap(c: Intervals, i: nat, wait: int)
    requires Backs(c.base, c.max, i, c.jitterPct, wait)
    ensures GapOf(c, Plains(i), PLAIN, 0, Slept(wait))
  {
    StreakOfPlains(i);
    assert Waits(c, i, PLAIN, wait);
  }

  lemma ShortGap(c: Intervals, n: nat, wait: int, i: nat)
    requires Bounded(c) && Backs(c.base, c.max, n, c.jitterPct, wait) && i <= n
    ensures GapOf(c, Plains(i), PLAIN, 0, Crowded(c, n, wait)[i + 1] - Crowded(c, n, wait)[i])
  {
    if i < n {
      TicksGap(c, n, i);
      PlainGap(c, i, Doubled(c.base, c.max, i));
    } else {
      PlainGap(c, n, wait);
    }
  }

  /** These times are those of a run. */
  lemma ShortRun(c: Intervals, n: nat, wait: int)
    requires Bounded(c) && Backs(c.base, c.max, n, c.jitterPct, wait)
    ensures Timed(c, Plains(n + 2), Promptly(n + 2), Crowded(c, n, wait)) && AllReal(Plains(n + 2))
  {
    var sessions, starts := Plains(n + 2), Crowded(c, n, wait);
    PlainsAre(n + 2);
    forall i | 0 <= i < |starts| - 1
      ensures GapOf(c, sessions[..i], sessions[i], Promptly(n + 2)[i], starts[i + 1] - starts[i])
    {
      PlainsPrefix(n + 2, i);
      ShortGap(c, n, wait, i);
    }
  }

  // ---------------------------------------------------------------- backing off

  /** Failures in a row back off exponentially: after `n` plain failures the next attempt is at least half of
      min(base * 2^n, max) away. */
  lemma BacksOff(c: Intervals, sessions: seq<Session>, late: seq<nat>, starts: seq<int>, i: nat, n: nat)
    requires Sound(c) && Timed(c, sessions, late, starts) && n <= i && i + 1 < |starts|
    requires forall k :: i - n <= k <= i ==> Real(sessions[k]) && !Resets(sessions[k])
    ensures 2 * (starts[i + 1] - starts[i]) >= Delay(c, n)
  {
    PaceIsKept(c, sessions, late, starts, i);
    StreakAtLeast(sessions[..i], n);
    DelayGrows(c, n, Streak(sessions[..i]));
    DelayBounds(c, Streak(sessions[..i]));
  }

  lemma {:induction false} StreakAtLeast(sessions: seq<Session>, n: nat)
    requires n <= |sessions| && forall k :: |sessions| - n <= k < |sessions| ==> !Resets(sessions[k])
    ensures Streak(sessions) >= n
  {
    if n > 0 { StreakAtLeast(sessions[..|sessions| - 1], n - 1); }
  }

  lemma {:induction false} DelayGrows(c: Intervals, n: nat, m: nat)
    requires c.base > 0 && n <= m
    ensures Delay(c, n) <= Delay(c, m)
  {
    if n < m {
      DelayGrows(c, n, m - 1);
      GrownBound(c.base, m - 1);
    }
  }
}
