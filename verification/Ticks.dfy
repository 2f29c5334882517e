/** Times in milliseconds and ticks of the wheel. */
module Ticks {
  import opened Powers
  import opened Agendas

  datatype Option<+T> = None | Some(value: T)

  /** The first tick that begins at or after `at`. */
  function CeilTick(startMs: nat, tickMs: nat, at: nat): nat
    requires tickMs > 0 && startMs <= at
  {
    (at - startMs + tickMs - 1) / tickMs
  }

  /** The tick that an insertion stores. A tick that is not ahead is put off by one, which does not
      put it ahead unless it was the current one. */
  function TargetTick(startMs: nat, tickMs: nat, current: nat, at: nat): nat
    requires tickMs > 0 && startMs <= at
  {
    var t := CeilTick(startMs, tickMs, at);
    if t <= current then t + 1 else t
  }

  function MsToTick(startMs: nat, tickMs: nat, ms: nat): nat
    requires tickMs > 0 && startMs <= ms
  {
    (ms - startMs) / tickMs
  }

  /** The time at which a tick begins. */
  function TickStart(startMs: nat, tickMs: nat, t: nat): nat {
    startMs + t * tickMs
  }

  lemma TickStarts(startMs: nat, tickMs: nat, t: nat, u: nat)
    ensures TickStart(startMs, tickMs, t + 1) == TickStart(startMs, tickMs, t) + tickMs
    ensures t <= u ==> TickStart(startMs, tickMs, t) <= TickStart(startMs, tickMs, u)
  {
    assert (t + 1) * tickMs == t * tickMs + tickMs;
    assert t <= u ==> t * tickMs <= u * tickMs;
  }

  /** How long to wait for the next tick; there is nothing to wait for without entries. */
  function NextTick(startMs: nat, tickMs: nat, tick: nat, idle: bool, now: nat): Option<nat> {
    if idle then None else Some(Max(0, TickStart(startMs, tickMs, tick + 1) - now))
  }

  /** How long the loop may poll: not at all while a message waits, otherwise no longer than configured
      and no longer than to the next tick. */
  function PollTimeout(waiting: bool, configured: Option<nat>, nextTick: Option<nat>): Option<nat> {
    match (if waiting then Some(0) else configured, nextTick)
    case (Some(a), Some(b)) => Some(if b < a then b else a)
    case (Some(a), None) => Some(a)
    case (None, b) => b
  }

  /** Whether polling for `w` milliseconds keeps the configured limit and does not go past the next tick. */
  predicate MayPoll(configured: Option<nat>, nextTick: Option<nat>, w: nat) {
    (configured.Some? ==> w <= configured.value) && (nextTick.Some? ==> w <= nextTick.value)
  }

  /** With nothing waiting the loop polls as long as it may, and only if nothing limits it without limit. */
  lemma PollTimeoutIsLongest(configured: Option<nat>, nextTick: Option<nat>)
    ensures var r := PollTimeout(false, configured, nextTick);
            && (r.Some? ==> MayPoll(configured, nextTick, r.value))
            && (forall w: nat :: MayPoll(configured, nextTick, w) ==> r.None? || w <= r.value)
            && (r.None? <==> configured.None? && nextTick.None?)
    ensures PollTimeout(true, configured, nextTick) == Some(0)
  {
  }

  /** A quotient is at least `q` exactly when `q` divisors fit. */
  lemma QuotientAtLeast(x: int, q: int, n: int)
    requires n > 0
    ensures q <= x / n <==> q * n <= x
  {
    var d := q - x / n;
    assert d * n == q * n - x / n * n;
    assert d >= 1 ==> d * n >= n;
    assert d <= 0 ==> d * n <= 0;
  }

  /** Tick `t` has begun by `ms` exactly when its first millisecond is not later. */
  lemma TickHasBegun(startMs: nat, tickMs: nat, ms: nat, t: nat)
    requires tickMs > 0 && startMs <= ms
    ensures t <= MsToTick(startMs, tickMs, ms) <==> TickStart(startMs, tickMs, t) <= ms
  {
    QuotientAtLeast(ms - startMs, t, tickMs);
  }

  /** The tick of a time is the one that has begun last. */
  lemma MsToTickIsLast(startMs: nat, tickMs: nat, ms: nat)
    requires tickMs > 0 && startMs <= ms
    ensures var t := MsToTick(startMs, tickMs, ms); startMs + t * tickMs <= ms < startMs + (t + 1) * tickMs
  {
    TickHasBegun(startMs, tickMs, ms, MsToTick(startMs, tickMs, ms));
    TickHasBegun(startMs, tickMs, ms, MsToTick(startMs, tickMs, ms) + 1);
  }

  /** The ticks from `CeilTick` on are exactly those that begin at or after `at`. */
  lemma CeilTickIsFirst(startMs: nat, tickMs: nat, at: nat, t: int)
    requires tickMs > 0 && startMs <= at
    ensures CeilTick(startMs, tickMs, at) <= t <==> at <= startMs + t * tickMs
  {
    QuotientAtLeast(at - startMs + tickMs - 1, t + 1, tickMs);
    assert (t + 1) * tickMs == t * tickMs + tickMs;
  }

  /** What an insertion stores. The stored tick never begins before the time asked for, and it begins
      less than two ticks after it. It is ahead of the wheel exactly when the wheel has not passed the
      first tick at or after that time. */
  lemma TargetTickBounds(startMs: nat, tickMs: nat, current: nat, at: nat)
    requires tickMs > 0 && startMs <= at
    ensures var t := TargetTick(startMs, tickMs, current, at);
            && at <= TickStart(startMs, tickMs, t) < at + 2 * tickMs
            && (current < t <==> current <= CeilTick(startMs, tickMs, at))
  {
    var c, t := CeilTick(startMs, tickMs, at), TargetTick(startMs, tickMs, current, at);
    CeilTickIsFirst(startMs, tickMs, at, t);
    CeilTickIsFirst(startMs, tickMs, at, c - 1);
    assert t == c || t == c + 1;
    assert (c - 1) * tickMs == c * tickMs - tickMs && (c + 1) * tickMs == c * tickMs + tickMs;
  }

  /** Which tick that is. Ahead of the wheel it is the first tick after the current one that does not begin
      before the time asked for. Otherwise it is the one after the first tick that does not begin before it. */
  lemma TargetTickIsExact(startMs: nat, tickMs: nat, current: nat, at: nat)
    requires tickMs > 0 && startMs <= at
    ensures var t := TargetTick(startMs, tickMs, current, at);
            && at <= startMs + t * tickMs
            && (current < t ==> forall u: nat :: current < u && at <= startMs + u * tickMs ==> t <= u)
            && (t <= current ==> 0 < t && at <= startMs + (t - 1) * tickMs
                                 && (1 < t ==> startMs + (t - 2) * tickMs < at))
  {
    var t := TargetTick(startMs, tickMs, current, at);
    CeilTickIsFirst(startMs, tickMs, at, t);
    CeilTickIsFirst(startMs, tickMs, at, t - 1);
    CeilTickIsFirst(startMs, tickMs, at, t - 2);
    forall u: nat | current < u && at <= startMs + u * tickMs
      ensures current < t ==> t <= u
    {
      CeilTickIsFirst(startMs, tickMs, at, u);
    }
  }

  /** When the wheel has caught up with the clock, an insertion for `delay` milliseconds from now is
      ahead of the wheel exactly when the delay is not zero or the tick has already begun. */
  lemma DisciplineOfDelay(startMs: nat, tickMs: nat, now: nat, delay: nat)
    requires tickMs > 0 && startMs <= now
    ensures var current := MsToTick(startMs, tickMs, now) + 1;
            current < TargetTick(startMs, tickMs, current, now + delay) <==> delay > 0 || (now - startMs) % tickMs != 0
  {
    var q := MsToTick(startMs, tickMs, now);
    TargetTickBounds(startMs, tickMs, q + 1, now + delay);
    CeilTickIsFirst(startMs, tickMs, now + delay, q);
    TickHasBegun(startMs, tickMs, now, q);
    assert now - startMs == q * tickMs + (now - startMs) % tickMs;
  }

  /** A wheel that is not past the tick after the clock's stays behind every positive delay. */
  lemma PositiveDelayIsDisciplined(startMs: nat, tickMs: nat, current: nat, now: nat, delay: nat)
    requires tickMs > 0 && startMs <= now && delay > 0
    requires current <= MsToTick(startMs, tickMs, now) + 1
    ensures current < TargetTick(startMs, tickMs, current, now + delay)
    ensures MsToTick(startMs, tickMs, now) < TargetTick(startMs, tickMs, current, now + delay)
  {
    var q := MsToTick(startMs, tickMs, now);
    TargetTickBounds(startMs, tickMs, current, now + delay);
    CeilTickIsFirst(startMs, tickMs, now + delay, q);
    TickHasBegun(startMs, tickMs, now, q);
    TickHasBegun(startMs, tickMs, now, q + 1);
  }

  lemma MsToTickMonotone(startMs: nat, tickMs: nat, now: nat, later: nat)
    requires tickMs > 0 && startMs <= now <= later
    ensures MsToTick(startMs, tickMs, now) <= MsToTick(startMs, tickMs, later)
  {
    TickHasBegun(startMs, tickMs, now, MsToTick(startMs, tickMs, now));
    TickHasBegun(startMs, tickMs, later, MsToTick(startMs, tickMs, now));
  }

  /** The price of an insertion for right now at the very beginning of a tick: the item lands in the
      slot that has just been scanned and waits for a whole rotation. */
  lemma ZeroDelayWaitsARotation(startMs: nat, tickMs: nat, now: nat, slots: nat)
    requires tickMs > 0 && slots > 0 && startMs <= now && (now - startMs) % tickMs == 0
    ensures var current := MsToTick(startMs, tickMs, now) + 1;
            EffectiveDue(slots, current, TargetTick(startMs, tickMs, current, now)) == current + slots
  {
    var q := MsToTick(startMs, tickMs, now);
    assert now - startMs == q * tickMs;
    CeilTickIsFirst(startMs, tickMs, now, q);
    CeilTickIsFirst(startMs, tickMs, now, q - 1);
    assert (q - 1) * tickMs == q * tickMs - tickMs;
    assert TargetTick(startMs, tickMs, q + 1, now) == q + 1;
    DivModUnique(-1, -1, slots - 1, slots);
  }
}
