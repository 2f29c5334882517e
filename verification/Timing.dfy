/** A loop that sleeps and wakes on a clock, and how late its timers fire. */
module Timing {
  import opened Powers
  import opened Ticks
  import opened Agendas
  import opened Drains

  /** Ready to handle messages and timers, or asleep until a deadline unless something happens. */
  datatype Phase = Awake | Asleep(deadline: Option<nat>)

  /** `wanted` holds the requested time of each insertion, `returned` the time at which it fired. */
  datatype Loop<T> = Loop(startMs: nat, tickMs: nat, configured: Option<nat>, now: nat, phase: Phase,
                          agenda: Agenda<T>, wanted: map<nat, nat>, returned: map<nat, nat>)

  datatype Event<T> =
    | Schedule(key: nat, token: T, delay: nat)
    | Cancel(gone: nat)
    | Drain
    | Sleep(waiting: bool)
    | Wake(at: nat)

  /** The items that a round up to tick `q` leaves. */
  function Survivors<T>(a: Agenda<T>, q: nat): Agenda<T> {
    a.(live := a.live - DueKeys(a, q), tick := Max(a.tick, q + 1))
  }

  /** The stamps of the items that such a round returns. */
  ghost function DueStamps<T>(a: Agenda<T>, q: nat): set<nat> {
    set k | k in a.live && a.live[k].due <= q :: a.live[k].stamp
  }

  /** `now` has been entered as the value of exactly these keys. */
  ghost predicate EnteredAt(was: map<nat, nat>, keys: set<nat>, now: nat, m: map<nat, nat>) {
    && m.Keys == was.Keys + keys
    && forall s :: s in m ==> m[s] == if s in keys then now else was[s]
  }

  function NowTick<T>(l: Loop<T>): nat
    requires l.tickMs > 0 && l.startMs <= l.now
  {
    MsToTick(l.startMs, l.tickMs, l.now)
  }

  ghost predicate Step<T>(l: Loop<T>, e: Event<T>, l': Loop<T>) {
    && l.tickMs > 0 && l.startMs <= l.now && l.agenda.slots > 0
    && match e
       case Schedule(key, token, delay) =>
         var a := l.agenda;
         && l.phase.Awake? && delay > 0 && key !in a.live
         && l' == l.(agenda := a.Insert(key, token, 0, TargetTick(l.startMs, l.tickMs, a.tick, l.now + delay)),
                     wanted := l.wanted[a.stamps := l.now + delay])
       case Cancel(key) =>
         l.phase.Awake? && l' == l.(agenda := l.agenda.Drop(key))
       case Drain =>
         var a, q := l.agenda, NowTick(l);
         && l.phase.Awake?
         && l' == l.(agenda := Survivors(a, q), returned := l'.returned)
         && EnteredAt(l.returned, DueStamps(a, q), l.now, l'.returned)
       case Sleep(waiting) =>
         && l.phase.Awake?
         && var next := NextTick(l.startMs, l.tickMs, l.agenda.tick, l.agenda.live == map[], l.now);
            l' == l.(phase := Asleep(PollTimeout(waiting, l.configured, next)))
       case Wake(at) =>
         && l.phase.Asleep? && l.now <= at
         && (l.phase.deadline.Some? ==> at <= l.now + l.phase.deadline.value)
         && l' == l.(now := at, phase := Awake)
  }

  ghost predicate Initial<T>(l: Loop<T>) {
    && l.tickMs > 0 && l.now == l.startMs && l.phase.Awake? && l.wanted == map[] && l.returned == map[]
    && l.agenda.slots > 0 && l.agenda.tick == 0 && l.agenda.stamps == 0 && l.agenda.live == map[]
  }

  /** The item begins its tick less than two ticks after the time asked for, and the clock has not yet
      passed the end of that tick. */
  ghost predicate InTime<T>(l: Loop<T>, x: Item<T>) {
    && x.due == x.target && x.stamp in l.wanted
    && l.wanted[x.stamp] <= TickStart(l.startMs, l.tickMs, x.due) < l.wanted[x.stamp] + 2 * l.tickMs
    && l.now <= TickStart(l.startMs, l.tickMs, x.due + 1)
  }

  ghost predicate Punctual<T>(l: Loop<T>) {
    && l.tickMs > 0 && l.startMs <= l.now && l.agenda.WellTimed()
    && l.agenda.tick <= NowTick(l) + 1
    && (forall s :: s in l.wanted ==> s < l.agenda.stamps)
    && (forall k :: k in l.agenda.live ==> InTime(l, l.agenda.live[k]))
    && (forall s :: s in l.returned ==> s in l.wanted && l.wanted[s] <= l.returned[s] < l.wanted[s] + 3 * l.tickMs)
    && (l.phase.Asleep? && l.agenda.live != map[] ==>
          && l.phase.deadline.Some?
          && l.now + l.phase.deadline.value <= Max(l.now, TickStart(l.startMs, l.tickMs, l.agenda.tick + 1)))
  }

  lemma SurvivorsAreWellTimed<T>(a: Agenda<T>, q: nat)
    requires a.WellTimed()
    ensures Survivors(a, q).WellTimed()
  {
  }

  lemma ScheduleIsPunctual<T>(l: Loop<T>, key: nat, token: T, delay: nat, l': Loop<T>)
    requires Punctual(l) && Step(l, Schedule(key, token, delay), l')
    ensures Punctual(l')
  {
    hide TickStart, MsToTick, TargetTick;
    var t := TargetTick(l.startMs, l.tickMs, l.agenda.tick, l.now + delay);
    PositiveDelayIsDisciplined(l.startMs, l.tickMs, l.agenda.tick, l.now, delay);
    TargetTickBounds(l.startMs, l.tickMs, l.agenda.tick, l.now + delay);
    TickStarts(l.startMs, l.tickMs, t, t);
    InsertIsWellTimed(l.agenda, key, token, 0, t);
    forall k | k in l'.agenda.live
      ensures InTime(l', l'.agenda.live[k])
    {
      if k != key {
        assert InTime(l, l.agenda.live[k]);
      }
    }
  }

  /** An item that is due is returned less than a tick after its tick began. */
  lemma ReturnsInTime<T>(l: Loop<T>, x: Item<T>)
    requires l.tickMs > 0 && l.startMs <= l.now && InTime(l, x) && x.due <= NowTick(l)
    ensures l.wanted[x.stamp] <= l.now < l.wanted[x.stamp] + 3 * l.tickMs
  {
    TickHasBegun(l.startMs, l.tickMs, l.now, x.due);
    TickStarts(l.startMs, l.tickMs, x.due, x.due);
  }

  lemma DrainIsPunctual<T>(l: Loop<T>, l': Loop<T>)
    requires Punctual(l) && Step(l, Drain, l')
    ensures Punctual(l')
  {
    hide TickStart, MsToTick;
    var a, q := l.agenda, NowTick(l);
    SurvivorsAreWellTimed(a, q);
    forall k | k in l'.agenda.live
      ensures InTime(l', l'.agenda.live[k])
    {
      assert InTime(l, a.live[k]);
    }
    forall s | s in l'.returned
      ensures s in l'.wanted && l'.wanted[s] <= l'.returned[s] < l'.wanted[s] + 3 * l'.tickMs
    {
      if s in DueStamps(a, q) {
        var k :| k in a.live && a.live[k].due <= q && a.live[k].stamp == s;
        ReturnsInTime(l, a.live[k]);
      }
    }
  }

  lemma WakeIsPunctual<T>(l: Loop<T>, at: nat, l': Loop<T>)
    requires Punctual(l) && Step(l, Wake(at), l')
    ensures Punctual(l')
  {
    hide TickStart, MsToTick;
    MsToTickMonotone(l.startMs, l.tickMs, l.now, at);
    forall k | k in l'.agenda.live
      ensures InTime(l', l'.agenda.live[k])
    {
      assert InTime(l, l.agenda.live[k]);
      TickStarts(l.startMs, l.tickMs, l.agenda.tick + 1, l.agenda.live[k].due + 1);
    }
  }

  lemma StepIsPunctual<T>(l: Loop<T>, e: Event<T>, l': Loop<T>)
    requires Punctual(l) && Step(l, e, l')
    ensures Punctual(l')
  {
    hide TickStart, MsToTick, TargetTick;
    match e
    case Schedule(key, token, delay) => ScheduleIsPunctual(l, key, token, delay, l');
    case Cancel(key) =>
      forall k | k in l'.agenda.live
        ensures InTime(l', l'.agenda.live[k])
      {
        assert InTime(l, l.agenda.live[k]);
      }
    case Drain => DrainIsPunctual(l, l');
    case Sleep(waiting) =>
      forall k | k in l'.agenda.live
        ensures InTime(l', l'.agenda.live[k])
      {
        assert InTime(l, l.agenda.live[k]);
      }
    case Wake(at) => WakeIsPunctual(l, at, l');
  }

  ghost predicate IsRun<T>(run: seq<Loop<T>>, events: seq<Event<T>>) {
    && |run| == |events| + 1 && Initial(run[0])
    && forall i :: 0 <= i < |events| ==> Step(run[i], events[i], run[i + 1])
  }

  lemma {:induction false} RunIsPunctual<T>(run: seq<Loop<T>>, events: seq<Event<T>>, j: nat)
    requires IsRun(run, events) && j < |run|
    ensures Punctual(run[j])
  {
    if j > 0 {
      RunIsPunctual(run, events, j - 1);
      StepIsPunctual(run[j - 1], events[j - 1], run[j]);
    }
  }

  /** End to end: a timer asked for a positive delay ahead, for time `at`, fires at a time in
      [at, at + 3 * tickMs), and as long as it has neither fired nor been cancelled the clock is below
      the end of that interval. */
  lemma FiresInTime<T>(run: seq<Loop<T>>, events: seq<Event<T>>, j: nat)
    requires IsRun(run, events) && j < |run|
    ensures var l := run[j];
            && (forall s :: s in l.returned ==>
                  s in l.wanted && l.wanted[s] <= l.returned[s] < l.wanted[s] + 3 * l.tickMs)
            && (forall k :: k in l.agenda.live ==>
                  l.agenda.live[k].stamp in l.wanted && l.now < l.wanted[l.agenda.live[k].stamp] + 3 * l.tickMs)
  {
    RunIsPunctual(run, events, j);
    var l := run[j];
    forall k | k in l.agenda.live
      ensures l.agenda.live[k].stamp in l.wanted && l.now < l.wanted[l.agenda.live[k].stamp] + 3 * l.tickMs
    {
      assert InTime(l, l.agenda.live[k]);
      TickStarts(l.startMs, l.tickMs, l.agenda.live[k].due, l.agenda.live[k].due);
    }
  }

  /** A round of timer processing without repeating timers leaves exactly the survivors. */
  lemma DrainedLeavesSurvivors<T>(a: Agenda<T>, a': Agenda<T>, fired: seq<Item<T>>, q: nat)
    requires Drained(a, a', fired, [], q)
    ensures a' == Survivors(a, q)
  {
    assert forall k :: k in a'.live ==> k in a.live && Kept(a, a', k);
    assert a'.live == Survivors(a, q).live;
  }

  lemma ScheduleOneAhead(tickMs: nat)
    requires tickMs > 0
    ensures TargetTick(0, tickMs, 1, 1) == 2
    ensures MsToTick(0, tickMs, 0) == 0 && MsToTick(0, tickMs, tickMs) == 1 && MsToTick(0, tickMs, 3 * tickMs) == 3
  {
    CeilTickIsFirst(0, tickMs, 1, 1);
    CeilTickIsFirst(0, tickMs, 1, 0);
    DivModUnique(tickMs, 1, 0, tickMs);
    DivModUnique(3 * tickMs, 3, 0, tickMs);
  }

  /** A wheel whose first tick is over; an item for tick 2 is inserted for time 1, the first
      millisecond of tick 1. Something wakes the loop when tick 1 begins, and then it sleeps on. */
  function LateRun<T>(m: nat, slots: nat, token: T): seq<Loop<T>>
    requires slots > 0
  {
    var a0 := Agenda(slots, 0, 0, map[]);
    var a1 := a0.(tick := 1);
    var a2 := a1.Insert(0, token, 0, 2);
    var a3 := a2.(tick := 2);
    [ Loop(0, m, None, 0, Awake, a0, map[], map[]),
      Loop(0, m, None, 0, Awake, a1, map[], map[]),
      Loop(0, m, None, 0, Awake, a2, map[0 := 1], map[]),
      Loop(0, m, None, 0, Asleep(Some(2 * m)), a2, map[0 := 1], map[]),
      Loop(0, m, None, m, Awake, a2, map[0 := 1], map[]),
      Loop(0, m, None, m, Awake, a3, map[0 := 1], map[]),
      Loop(0, m, None, m, Asleep(Some(2 * m)), a3, map[0 := 1], map[]),
      Loop(0, m, None, 3 * m, Awake, a3, map[0 := 1], map[]),
      Loop(0, m, None, 3 * m, Awake, Agenda(slots, 4, 1, map[]), map[0 := 1], map[0 := 3 * m]) ]
  }

  function LateEvents<T>(m: nat, token: T): seq<Event<T>> {
    [Drain, Schedule(0, token, 1), Sleep(false), Wake(m), Drain, Sleep(false), Wake(3 * m), Drain]
  }

  lemma LateDrain<T>(m: nat, slots: nat, token: T, i: nat)
    requires m > 0 && slots > 0 && (i == 0 || i == 4 || i == 7)
    ensures Step(LateRun(m, slots, token)[i], Drain, LateRun(m, slots, token)[i + 1])
  {
    hide MsToTick, TargetTick, EffectiveDue;
    ScheduleOneAhead(m);
    EffectiveDueIsFirst(slots, 1, 2);
    var l := LateRun(m, slots, token)[i];
    var q := if i == 0 then 0 else if i == 4 then 1 else 3;
    if i == 7 {
      assert 0 in l.agenda.live && l.agenda.live[0].stamp in DueStamps(l.agenda, q);
      assert DueKeys(l.agenda, q) == {0} && DueStamps(l.agenda, q) == {0};
    } else {
      assert DueKeys(l.agenda, q) == {} && DueStamps(l.agenda, q) == {};
    }
  }

  lemma LateStep<T>(m: nat, slots: nat, token: T, i: nat)
    requires m > 0 && slots > 0 && i < 8
    ensures Step(LateRun(m, slots, token)[i], LateEvents(m, token)[i], LateRun(m, slots, token)[i + 1])
  {
    ScheduleOneAhead(m);
    var l, l' := LateRun(m, slots, token)[i], LateRun(m, slots, token)[i + 1];
    if i == 0 || i == 4 || i == 7 {
      LateDrain(m, slots, token, i);
    } else if i == 1 {
      assert Step(l, Schedule(0, token, 1), l');
    } else if i == 2 || i == 5 {
      assert 0 in l.agenda.live;
      assert Step(l, Sleep(false), l');
    } else {
      assert Step(l, Wake(l'.now), l');
    }
  }

  /** The bound cannot be improved: whatever the length of a tick, some run fires a timer one
      millisecond before the end of the interval. */
  lemma LatenessIsAttained<T>(tickMs: nat, slots: nat, token: T) returns (run: seq<Loop<T>>, events: seq<Event<T>>)
    requires tickMs > 0 && slots > 0
    ensures IsRun(run, events) && run[0].tickMs == tickMs
    ensures var l := run[|run| - 1];
            0 in l.returned && 0 in l.wanted && l.returned[0] == l.wanted[0] + 3 * tickMs - 1
  {
    run, events := LateRun(tickMs, slots, token), LateEvents(tickMs, token);
    forall i | 0 <= i < |events|
      ensures Step(run[i], events[i], run[i + 1])
    {
      LateStep(tickMs, slots, token, i);
    }
  }
}
