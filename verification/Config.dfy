/** The timing part of the configuration, and the bounds loading enforces on it. Durations are nanoseconds
    in a 64-bit signed integer. */
module Config {
  import opened Text

  const MS := 1_000_000
  const SECOND := 1_000 * MS
  const MINUTE := 60 * SECOND
  const TWO_63 := 0x8000_0000_0000_0000
  const TWO_62 := 0x4000_0000_0000_0000
  const INT64_MAX := TWO_63 - 1

  const MIN_HEARTBEAT_INTERVAL := 5 * SECOND
  const MIN_RECONNECT_BASE_DELAY := 250 * MS
  const MAX_RECONNECT_JITTER_PCT := 50

  /** What an int64 holds after an operation with the exact result `x`. */
  function Wrap(x: int): int { (x + TWO_63) % (2 * TWO_63) - TWO_63 }

  predicate Int64(x: int) { -TWO_63 <= x <= INT64_MAX }

  lemma WrapFits(x: int)
    ensures Int64(Wrap(x))
    ensures Int64(x) ==> Wrap(x) == x
    ensures TWO_63 <= x < 3 * TWO_63 ==> Wrap(x) == x - 2 * TWO_63
    ensures -3 * TWO_63 <= x < -TWO_63 ==> Wrap(x) == x + 2 * TWO_63
  {
    if TWO_63 <= x < 3 * TWO_63 { WrapOnce(x - TWO_63, x + TWO_63, 1); }
    if -3 * TWO_63 <= x < -TWO_63 { WrapOnce(x + 3 * TWO_63, x + TWO_63, -1); }
  }

  lemma WrapOnce(r: int, x: int, q: int)
    requires 0 <= r < 2 * TWO_63 && x == q * (2 * TWO_63) + r
    ensures x % (2 * TWO_63) == r
  {
  }

  /** The variables read; `None` is unset, blank or not parsable. */
  datatype Env = Env(debugProfile: bool, heartbeat: Option<int>, selfHeal: Option<int>, base: Option<int>,
                     max: Option<int>, jitterPct: Option<int>)

  datatype Intervals = Intervals(heartbeat: int, selfHeal: int, base: int, max: int, jitterPct: int)

  predicate Parsed(d: Option<int>) { d.Some? ==> Int64(d.value) }

  predicate ParsedEnv(e: Env) {
    Parsed(e.heartbeat) && Parsed(e.selfHeal) && Parsed(e.base) && Parsed(e.max) && Parsed(e.jitterPct)
  }

  function EnvDurationOrDefault(value: Option<int>, fallback: int): int {
    if value.None? || value.value <= 0 then fallback else value.value
  }

  function EnvDurationAtLeast(value: Option<int>, fallback: int, minimum: int): int {
    var d := EnvDurationOrDefault(value, fallback);
    if d < minimum then minimum else d
  }

  function EnvIntClamped(value: Option<int>, fallback: int, minimum: int, maximum: int): int {
    var n := value.GetOr(fallback);
    if n < minimum then minimum else if n > maximum then maximum else n
  }

  function WithConsistentIntervals(c: Intervals): Intervals {
    var c1 := if c.selfHeal < c.heartbeat then c.(selfHeal := Wrap(c.heartbeat * 2)) else c;
    if c1.max < c1.base then c1.(max := c1.base) else c1
  }

  function Load(e: Env): Intervals {
    WithConsistentIntervals(Intervals(
      EnvDurationAtLeast(e.heartbeat, 15 * SECOND, MIN_HEARTBEAT_INTERVAL),
      EnvDurationAtLeast(e.selfHeal, if e.debugProfile then 5 * MINUTE else 15 * MINUTE, MIN_HEARTBEAT_INTERVAL),
      EnvDurationAtLeast(e.base, SECOND, MIN_RECONNECT_BASE_DELAY),
      EnvDurationAtLeast(e.max, 30 * SECOND, MIN_RECONNECT_BASE_DELAY),
      EnvIntClamped(e.jitterPct, 20, 0, MAX_RECONNECT_JITTER_PCT)))
  }

  /** The bounds the reconnect loop relies on. */
  predicate Bounded(c: Intervals) {
    && 250_000_000 <= c.base <= c.max <= INT64_MAX
    && 0 <= c.jitterPct <= 50
  }

  /** `x` is what a duration variable comes to: a usable value no lower than the minimum, else the minimum for one that
      is positive, and the default for any other. */
  predicate Comes(x: int, value: Option<int>, default: int, minimum: int) {
    if value.Some? && value.value >= minimum then x == value.value
    else if value.Some? && value.value > 0 then x == minimum
    else x == default
  }

  lemma ComesIs(value: Option<int>, default: int, minimum: int)
    requires 0 < minimum <= default
    ensures Comes(EnvDurationAtLeast(value, default, minimum), value, default, minimum)
  {
  }

  /** Whatever the environment holds, the loaded intervals are in bounds, and values that already were are
      kept: a base delay no higher than the cap, a cap no lower than the base, a jitter within 0 to 50. Without
      values they are 15 s, 1 s, 30 s and 20 per cent. */
  lemma LoadIsBounded(e: Env)
    requires ParsedEnv(e)
    ensures Bounded(Load(e)) && Load(e).heartbeat >= 5_000_000_000
    ensures Comes(Load(e).heartbeat, e.heartbeat, 15_000_000_000, 5_000_000_000)
    ensures Comes(Load(e).base, e.base, 1_000_000_000, 250_000_000)
    ensures exists max :: Comes(max, e.max, 30_000_000_000, 250_000_000)
                          && Load(e).max == if max < Load(e).base then Load(e).base else max
    ensures e.jitterPct.Some? ==>
              Load(e).jitterPct == if e.jitterPct.value < 0 then 0 else if e.jitterPct.value > 50 then 50
                                   else e.jitterPct.value
    ensures e.jitterPct.None? ==> Load(e).jitterPct == 20
  {
    ComesIs(e.heartbeat, 15 * SECOND, MIN_HEARTBEAT_INTERVAL);
    ComesIs(e.base, SECOND, MIN_RECONNECT_BASE_DELAY);
    ComesIs(e.max, 30 * SECOND, MIN_RECONNECT_BASE_DELAY);
    var base := EnvDurationAtLeast(e.base, SECOND, MIN_RECONNECT_BASE_DELAY);
    var max := EnvDurationAtLeast(e.max, 30 * SECOND, MIN_RECONNECT_BASE_DELAY);
    assert MIN_RECONNECT_BASE_DELAY <= base <= INT64_MAX && MIN_RECONNECT_BASE_DELAY <= max <= INT64_MAX;
  }

  /** Self-healing runs no more often than the heartbeat, exactly unless doubling the heartbeat to fix that
      overflows, which takes a heartbeat of 146 years. */
  lemma SelfHealNotFaster(e: Env, heal: int)
    requires ParsedEnv(e)
    requires Comes(heal, e.selfHeal, if e.debugProfile then 300_000_000_000 else 900_000_000_000, 5_000_000_000)
    ensures Load(e).heartbeat <= Load(e).selfHeal <==>
            !(heal < Load(e).heartbeat && TWO_62 <= Load(e).heartbeat)
    ensures heal >= Load(e).heartbeat ==> Load(e).selfHeal == heal
    ensures heal < Load(e).heartbeat < TWO_62 ==> Load(e).selfHeal == 2 * Load(e).heartbeat
  {
    WrapFits(Load(e).heartbeat * 2);
  }
}
