/** A loop, its timer and its dispatcher together, from a request to the callback. */
module EndToEnd {
  import Powers
  import opened Ticks
  import opened Agendas
  import opened Chains
  import opened Wheels
  import opened Drains
  import opened Desks
  import opened Timing
  import opened Dispatching

  /** What can happen to a loop whose timers are one-shot. After a round of timer processing it polls for
      `pause` milliseconds, or less if the poll ends earlier. */
  datatype Happening<M, F> =
    | Add(token: nat, delay: nat, mark: M, callback: F)
    | Remove(removed: M)
    | Process
    | Poll(waiting: bool, pause: nat)

  /** The state of the loop as seen by `Timing`. */
  ghost function LoopOf<M, F>(eventLoop: EventLoop<M, F>, now: nat, wanted: map<nat, nat>, returned: map<nat, nat>)
    : Loop<M>
    reads eventLoop.timer
  {
    Loop(eventLoop.timer.startMs, eventLoop.timer.tickMs, eventLoop.pollTimeout, now, Awake, eventLoop.timer.agenda,
         wanted, returned)
  }

  /** The times that were asked for. */
  ghost predicate Wants<F>(requests: map<nat, Request<F>>, wanted: map<nat, nat>) {
    wanted.Keys == requests.Keys && forall s :: s in requests ==> wanted[s] == requests[s].at
  }

  ghost predicate InTimeSoFar<M, F>(eventLoop: EventLoop<M, F>, handle: Dispatcher<M, F>, now: nat,
                                    wanted: map<nat, nat>)
    reads eventLoop.timer, eventLoop.timer.wheel, handle
  {
    && eventLoop.timer.Valid() && handle.OneShotWith(eventLoop)
    && Wants(handle.ledger.requests, wanted)
    && Punctual(LoopOf(eventLoop, now, wanted, handle.ledger.taken))
  }

  lemma {:induction false} TakesEnters<M, F>(l: Ledger<F>, fired: seq<Item<M>>, now: nat)
    ensures Takes(l, fired, now).requests == l.requests && Takes(l, fired, now).cancelled == l.cancelled
    ensures EnteredAt(l.taken, Stamps(fired), now, Takes(l, fired, now).taken)
  {
    if fired != [] {
      var n := |fired| - 1;
      TakesEnters(l, fired[..n], now);
      assert fired == fired[..n] + [fired[n]];
      assert Stamps(fired) == Stamps(fired[..n]) + {fired[n].stamp};
    }
  }

  ghost function Stamps<M>(fired: seq<Item<M>>): set<nat> {
    set i | 0 <= i < |fired| :: fired[i].stamp
  }

  lemma DrainedStamps<M>(a: Agenda<M>, a': Agenda<M>, fired: seq<Item<M>>, backs: seq<Timeout>, q: nat)
    requires Drained(a, a', fired, backs, q)
    ensures Stamps(fired) == DueStamps(a, q)
  {
    forall s | s in DueStamps(a, q)
      ensures s in Stamps(fired)
    {
      var k :| k in a.live && a.live[k].due <= q && a.live[k].stamp == s;
      var i :| 0 <= i < |fired| && fired[i] == a.live[k];
    }
    forall s | s in Stamps(fired)
      ensures s in DueStamps(a, q)
    {
      var i :| 0 <= i < |fired| && fired[i].stamp == s;
      assert fired[i] in a.live.Values;
    }
  }

  ghost predicate Distinct<M>(fired: seq<Item<M>>) {
    forall i, j :: 0 <= i < j < |fired| ==> fired[i].stamp != fired[j].stamp
  }

  /** These items were fired so far, in this order and each once. They are all that was taken out, and the
      calls made since `calls` are those that were asked for with them, where the connection is open. */
  ghost predicate Recounted<M, F>(d: Desk<M, F>, l: Ledger<F>, fired: seq<Item<M>>, calls: seq<Call<F>>) {
    && Distinct(fired) && Stamps(fired) == l.taken.Keys
    && d.calls == calls + CallsFor(l.requests, d.present, fired)
  }

  lemma {:induction false} CallsForConcat<M, F>(requests: map<nat, Request<F>>, present: set<nat>,
                                                before: seq<Item<M>>, fired: seq<Item<M>>)
    ensures CallsFor(requests, present, before + fired) ==
              CallsFor(requests, present, before) + CallsFor(requests, present, fired)
  {
    if fired == [] {
      assert before + fired == before;
    } else {
      var n := |fired| - 1;
      CallsForConcat(requests, present, before, fired[..n]);
      assert (before + fired)[..|before| + n] == before + fired[..n];
    }
  }

  /** A new request changes nothing for what was fired. */
  lemma {:induction false} CallsForOlder<M, F>(requests: map<nat, Request<F>>, present: set<nat>, fired: seq<Item<M>>,
                                               stamp: nat, r: Request<F>)
    requires stamp !in Stamps(fired)
    ensures CallsFor(requests[stamp := r], present, fired) == CallsFor(requests, present, fired)
  {
    if fired != [] {
      var n := |fired| - 1;
      assert fired[n].stamp in Stamps(fired);
      assert Stamps(fired[..n]) <= Stamps(fired);
      CallsForOlder(requests, present, fired[..n], stamp, r);
    }
  }

  lemma RecountedWhenAsked<M, F>(d: Desk<M, F>, d': Desk<M, F>, a: Agenda<M>, l: Ledger<F>, startMs: nat, tickMs: nat,
                                 fired: seq<Item<M>>, calls: seq<Call<F>>, r: Request<F>)
    requires OneShot(a, d.timers, l, startMs, tickMs) && Recounted(d, l, fired, calls)
    requires d'.calls == d.calls && d'.present == d.present
    ensures Recounted(d', l.(requests := l.requests[a.stamps := r]), fired, calls)
  {
    CallsForOlder(l.requests, d.present, fired, a.stamps, r);
  }

  /** A round takes out what is due, and none of it was taken before. */
  lemma RecountedAfterRound<M, F>(d: Desk<M, F>, d': Desk<M, F>, a: Agenda<M>, a': Agenda<M>, l: Ledger<F>,
                                  startMs: nat, tickMs: nat, fired: seq<Item<M>>, more: seq<Item<M>>,
                                  backs: seq<Timeout>, calls: seq<Call<F>>, q: nat, now: nat)
    requires OneShot(a, d.timers, l, startMs, tickMs) && Recounted(d, l, fired, calls)
    requires Drained(a, a', more, backs, q) && d'.present == d.present
    requires d'.calls == d.calls + CallsFor(l.requests, d.present, more)
    ensures Recounted(d', Takes(l, more, now), fired + more, calls)
  {
    hide Drained, OneShot, Stamps, Takes, CallsFor, Distinct;
    TakesEnters(l, more, now);
    CallsForConcat(l.requests, d.present, fired, more);
    FiredOnce(a, d.timers, l, startMs, tickMs, a', more, backs, q);
    DistinctConcat(fired, more);
    StampsOfConcat(fired, more);
  }

  lemma DistinctConcat<M>(fired: seq<Item<M>>, more: seq<Item<M>>)
    requires Distinct(fired) && Distinct(more) && Stamps(fired) !! Stamps(more)
    ensures Distinct(fired + more)
  {
    forall i, j | 0 <= i < j < |fired + more|
      ensures (fired + more)[i].stamp != (fired + more)[j].stamp
    {
      if i < |fired| <= j {
        assert fired[i].stamp in Stamps(fired) && more[j - |fired|].stamp in Stamps(more);
      }
    }
  }

  lemma StampsOfConcat<M>(fired: seq<Item<M>>, more: seq<Item<M>>)
    ensures Stamps(fired + more) == Stamps(fired) + Stamps(more)
  {
    forall s | s in Stamps(fired) + Stamps(more)
      ensures s in Stamps(fired + more)
    {
      if s in Stamps(fired) {
        var i :| 0 <= i < |fired| && fired[i].stamp == s;
        assert (fired + more)[i].stamp == s;
      } else {
        var i :| 0 <= i < |more| && more[i].stamp == s;
        assert (fired + more)[|fired| + i].stamp == s;
      }
    }
  }

  lemma FiredOnce<M, F>(a: Agenda<M>, timers: map<M, Pending<F>>, l: Ledger<F>, startMs: nat, tickMs: nat,
                        a': Agenda<M>, fired: seq<Item<M>>, backs: seq<Timeout>, q: nat)
    requires OneShot(a, timers, l, startMs, tickMs) && Drained(a, a', fired, backs, q)
    ensures Distinct(fired) && l.taken.Keys !! Stamps(fired)
  {
    forall i | 0 <= i < |fired|
      ensures fired[i].stamp !in l.taken
    {
      var k :| k in a.live && a.live[k] == fired[i];
      assert Waiting(a.live[k], timers[a.live[k].token], l, startMs, tickMs);
    }
    forall i, j | 0 <= i < j < |fired|
      ensures fired[i].stamp != fired[j].stamp
    {
      assert Before(fired[i], fired[j]);
      var k, m :| k in a.live && a.live[k] == fired[i] && m in a.live && a.live[m] == fired[j];
      assert k == m ==> fired[i] == fired[j];
    }
  }

  /** The loop, its pending callbacks and their record at one moment. */
  datatype Snap<M, F> = Snap(loop: Loop<M>, timers: map<M, Pending<F>>, ledger: Ledger<F>)

  ghost function SnapOf<M, F>(eventLoop: EventLoop<M, F>, handle: Dispatcher<M, F>, now: nat, wanted: map<nat, nat>)
    : Snap<M, F>
    reads eventLoop.timer, handle
  {
    Snap(LoopOf(eventLoop, now, wanted, handle.ledger.taken), handle.timers, handle.ledger)
  }

  /** Exactly this happened from one moment to the next. A request for a mark that is pending, without delay,
      or on a full wheel changes nothing, nor does a cancellation for a mark that is not pending. */
  ghost predicate Happened<M, F>(h: Happening<M, F>, s: Snap<M, F>, s': Snap<M, F>, capacity: nat) {
    match h
    case Add(token, delay, mark, callback) =>
      if delay > 0 && mark !in s.timers && |s.loop.agenda.live| < capacity then
        && mark in s'.timers
        && s'.timers == s.timers[mark := Pending(s'.timers[mark].timeout, token, callback)]
        && Step(s.loop, Schedule(s'.timers[mark].timeout.key, mark, delay), s'.loop)
        && s'.ledger.requests ==
             s.ledger.requests[s.loop.agenda.stamps := Request(token, callback, s.loop.now + delay)]
      else s' == s
    case Remove(mark) =>
      if mark in s.timers then
        var key := s.timers[mark].timeout.key;
        && s'.timers == s.timers - {mark} && Step(s.loop, Cancel(key), s'.loop)
        && key in s.loop.agenda.live && s.loop.agenda.live[key].stamp in s'.ledger.cancelled
      else s' == s
    case Process => Step(s.loop, Drain, s'.loop)
    case Poll(waiting, pause) =>
      && s' == s.(loop := s'.loop)
      && exists r: Option<nat> :: PollsFor(s.loop, waiting, r) && s'.loop ==
           s.loop.(now := s.loop.now + if r.Some? && r.value < pause then r.value else pause)
  }

  ghost predicate PollsFor<T>(l: Loop<T>, waiting: bool, r: Option<nat>) {
    r == PollTimeout(waiting, l.configured,
                     NextTick(l.startMs, l.tickMs, l.agenda.tick, l.agenda.live == map[], l.now))
  }

  /** All this happened, one after the other. */
  ghost predicate AllHappened<M, F>(happenings: seq<Happening<M, F>>, snaps: seq<Snap<M, F>>, capacity: nat) {
    && |snaps| == |happenings| + 1
    && forall i :: 0 <= i < |happenings| ==> Happened(happenings[i], snaps[i], snaps[i + 1], capacity)
  }

  lemma OneMoreHappened<M, F>(happenings: seq<Happening<M, F>>, snaps: seq<Snap<M, F>>, capacity: nat,
                              h: Happening<M, F>, s: Snap<M, F>)
    requires AllHappened(happenings, snaps, capacity) && Happened(h, snaps[|happenings|], s, capacity)
    ensures AllHappened(happenings + [h], snaps + [s], capacity)
  {
    var all, snaps' := happenings + [h], snaps + [s];
    forall i | 0 <= i < |all|
      ensures Happened(all[i], snaps'[i], snaps'[i + 1], capacity)
    {
      if i < |happenings| {
        assert Happened(happenings[i], snaps[i], snaps[i + 1], capacity);
      }
    }
  }

  lemma RequestHappens<M, F>(s: Snap<M, F>, s': Snap<M, F>, capacity: nat, h: Happening<M, F>, handle: Timeout)
    requires h.Add? && h.delay > 0 && h.mark !in s.timers && |s.loop.agenda.live| < capacity
    requires s.loop.tickMs > 0 && s.loop.startMs <= s.loop.now && s.loop.agenda.slots > 0 && s.loop.phase.Awake?
    requires handle.key !in s.loop.agenda.live
    requires s'.timers == s.timers[h.mark := Pending(handle, h.token, h.callback)]
    requires var a, at := s.loop.agenda, s.loop.now + h.delay;
             && handle.tick == TargetTick(s.loop.startMs, s.loop.tickMs, a.tick, at)
             && s'.loop == s.loop.(agenda := a.Insert(handle.key, h.mark, 0, handle.tick),
                                   wanted := s.loop.wanted[a.stamps := at])
             && s'.ledger == s.ledger.(requests := s.ledger.requests[a.stamps := Request(h.token, h.callback, at)])
    ensures Step(s.loop, Schedule(handle.key, h.mark, h.delay), s'.loop) && Happened(h, s, s', capacity)
  {
  }

  lemma FullIsPassedOver<M, F>(h: Happening<M, F>, s: Snap<M, F>, capacity: nat)
    requires h.Add? && |s.loop.agenda.live| >= capacity
    ensures Happened(h, s, s, capacity)
  {
  }

  method AddInTime<M, F>(eventLoop: EventLoop<M, F>, handle: Dispatcher<M, F>, now: nat, ghost wanted: map<nat, nat>,
                         ghost fired: seq<Item<M>>, ghost calls: seq<Call<F>>,
                         token: nat, delay: nat, mark: M, callback: F) returns (ghost wanted': map<nat, nat>)
    requires InTimeSoFar(eventLoop, handle, now, wanted) && delay > 0 && mark !in handle.timers
    requires Recounted(handle.Desk(), handle.ledger, fired, calls)
    modifies handle`timers, handle`ledger, eventLoop.timer, eventLoop.timer.wheel
    ensures InTimeSoFar(eventLoop, handle, now, wanted')
    ensures Recounted(handle.Desk(), handle.ledger, fired, calls)
    ensures eventLoop.timer.startMs == old(eventLoop.timer.startMs)
    ensures Happened(Add(token, delay, mark, callback), old(SnapOf(eventLoop, handle, now, wanted)),
                     SnapOf(eventLoop, handle, now, wanted'), eventLoop.timer.capacity)
  {
    hide Consistent, OneShot, Punctual, Recounted, TargetTick, EffectiveDue, Step, Happened;
    ghost var l := LoopOf(eventLoop, now, wanted, handle.ledger.taken);
    ghost var d, s := handle.Desk(), SnapOf(eventLoop, handle, now, wanted);
    PunctualClock(l);
    var ok := handle.AddTimer(token, delay, mark, callback, now, eventLoop);
    wanted' := wanted;
    if ok {
      wanted' := wanted[l.agenda.stamps := now + delay];
      RecountedWhenAsked(d, handle.Desk(), l.agenda, s.ledger, l.startMs, l.tickMs, fired, calls,
                         Request(token, callback, now + delay));
      RequestHappens(s, SnapOf(eventLoop, handle, now, wanted'), eventLoop.timer.capacity,
                     Add(token, delay, mark, callback), handle.timers[mark].timeout);
      StepIsPunctual(l, Schedule(handle.timers[mark].timeout.key, mark, delay),
                     LoopOf(eventLoop, now, wanted', handle.ledger.taken));
    } else {
      FullIsPassedOver(Add(token, delay, mark, callback), s, eventLoop.timer.capacity);
    }
  }

  lemma PunctualClock<T>(l: Loop<T>)
    requires Punctual(l)
    ensures l.tickMs > 0 && l.startMs <= l.now && l.agenda.slots > 0
  {
  }

  method RemoveInTime<M, F>(eventLoop: EventLoop<M, F>, handle: Dispatcher<M, F>, now: nat,
                            ghost wanted: map<nat, nat>, ghost fired: seq<Item<M>>, ghost calls: seq<Call<F>>,
                            mark: M)
    requires InTimeSoFar(eventLoop, handle, now, wanted) && Recounted(handle.Desk(), handle.ledger, fired, calls)
    modifies handle`timers, handle`timers2, handle`ledger, eventLoop.timer, eventLoop.timer.wheel
    ensures InTimeSoFar(eventLoop, handle, now, wanted) && Recounted(handle.Desk(), handle.ledger, fired, calls)
    ensures eventLoop.timer.startMs == old(eventLoop.timer.startMs)
    ensures Happened(Remove(mark), old(SnapOf(eventLoop, handle, now, wanted)),
                     SnapOf(eventLoop, handle, now, wanted), eventLoop.timer.capacity)
  {
    hide Consistent, OneShot, Punctual;
    ghost var l := LoopOf(eventLoop, now, wanted, handle.ledger.taken);
    ghost var key := if mark in handle.timers then handle.timers[mark].timeout.key else 0;
    ghost var pending := mark in handle.timers;
    PunctualClock(l);
    handle.CancelTimer(mark, eventLoop);
    if pending {
      StepIsPunctual(l, Cancel(key), LoopOf(eventLoop, now, wanted, handle.ledger.taken));
    }
  }

  method ProcessInTime<M, F>(eventLoop: EventLoop<M, F>, handle: Dispatcher<M, F>, now: nat,
                             ghost wanted: map<nat, nat>, ghost fired: seq<Item<M>>, ghost calls: seq<Call<F>>)
    returns (ghost fired': seq<Item<M>>)
    requires InTimeSoFar(eventLoop, handle, now, wanted) && Recounted(handle.Desk(), handle.ledger, fired, calls)
    modifies handle`timers, handle`timers2, handle`calls, handle`ledger, eventLoop.timer, eventLoop.timer.wheel
    ensures InTimeSoFar(eventLoop, handle, now, wanted) && Recounted(handle.Desk(), handle.ledger, fired', calls)
    ensures fired <= fired'
    ensures eventLoop.timer.startMs == old(eventLoop.timer.startMs)
    ensures Happened(Process, old(SnapOf(eventLoop, handle, now, wanted)),
                     SnapOf(eventLoop, handle, now, wanted), eventLoop.timer.capacity)
  {
    hide Consistent, OneShot, Punctual, Drained, Survivors, EnteredAt, Delivered, Recounted;
    ghost var l, ledger := LoopOf(eventLoop, now, wanted, handle.ledger.taken), handle.ledger;
    PunctualClock(l);
    var clock: nat -> nat := _ => now;
    ghost var d, more, backs := handle.Desk(), [], [];
    more, backs := eventLoop.ProcessTimers(handle, clock);
    ghost var q := MsToTick(l.startMs, l.tickMs, now);
    DrainedLeavesSurvivors(l.agenda, eventLoop.timer.agenda, more, q);
    DrainedStamps(l.agenda, eventLoop.timer.agenda, more, backs, q);
    TakesEnters(ledger, more, now);
    fired' := fired + more;
    RecountedAfterRound(d, handle.Desk(), l.agenda, eventLoop.timer.agenda, ledger, l.startMs, l.tickMs,
                        fired, more, backs, calls, q, now);
    StepIsPunctual(l, Drain, LoopOf(eventLoop, now, wanted, handle.ledger.taken));
  }

  /** Polling, by a clock that moves on by at most the time that the poll may take. */
  method PollInTime<M, F>(eventLoop: EventLoop<M, F>, handle: Dispatcher<M, F>, now: nat, ghost wanted: map<nat, nat>,
                          waiting: bool, pause: nat) returns (later: nat)
    requires InTimeSoFar(eventLoop, handle, now, wanted)
    ensures InTimeSoFar(eventLoop, handle, later, wanted) && now <= later <= now + pause
    ensures Happened(Poll(waiting, pause), SnapOf(eventLoop, handle, now, wanted),
                     SnapOf(eventLoop, handle, later, wanted), eventLoop.timer.capacity)
  {
    hide Consistent, OneShot, Punctual, NextTick, PollTimeout;
    ghost var l := LoopOf(eventLoop, now, wanted, handle.ledger.taken);
    PunctualClock(l);
    var r := eventLoop.PollWait(waiting, now);
    assert PollsFor(l, waiting, r);
    later := now + if r.Some? && r.value < pause then r.value else pause;
    ghost var asleep := l.(phase := Asleep(r));
    StepIsPunctual(l, Sleep(waiting), asleep);
    StepIsPunctual(asleep, Wake(later), LoopOf(eventLoop, later, wanted, handle.ledger.taken));
  }

  /** A new loop and a new dispatcher. */
  method Start<M, F>(tickMs: nat, slots: nat, cap: nat, pollTimeout: Option<nat>, now: nat, connections: nat, loop: nat,
                     shared: Shared)
    returns (eventLoop: EventLoop<M, F>, handle: Dispatcher<M, F>)
    requires tickMs > 0 && Powers.NextPowerOfTwo(cap) < EMPTY
    ensures eventLoop.timer.startMs == now && InTimeSoFar(eventLoop, handle, now, map[])
    ensures fresh(eventLoop) && fresh(eventLoop.timer) && fresh(eventLoop.timer.wheel) && fresh(handle)
  {
    eventLoop := new EventLoop(tickMs, slots, cap, pollTimeout, now);
    handle := new Dispatcher(connections, loop, shared);
  }

  /** Runs a loop through any sequence of happenings. A request without delay, or for a mark that is
      pending, is passed over. Every callback that was taken out was taken at a time in
      [at, at + 3 * tickMs) where `at` is the time asked for, and what is still pending is not overdue.
      `fired` holds the items in the order in which their callbacks were taken out, each once; the calls
      made are exactly theirs, where the connection is open. */
  method Run<M, F>(eventLoop: EventLoop<M, F>, handle: Dispatcher<M, F>, happenings: seq<Happening<M, F>>)
    returns (now: nat, ghost wanted: map<nat, nat>, ghost fired: seq<Item<M>>, ghost snaps: seq<Snap<M, F>>)
    requires InTimeSoFar(eventLoop, handle, eventLoop.timer.startMs, map[])
    modifies handle`timers, handle`timers2, handle`calls, handle`ledger, eventLoop.timer, eventLoop.timer.wheel
    ensures InTimeSoFar(eventLoop, handle, now, wanted)
    ensures AllHappened(happenings, snaps, eventLoop.timer.capacity)
    ensures snaps[0] == old(SnapOf(eventLoop, handle, eventLoop.timer.startMs, map[]))
    ensures snaps[|happenings|] == SnapOf(eventLoop, handle, now, wanted)
    ensures Distinct(fired) && Stamps(fired) == handle.ledger.taken.Keys
    ensures handle.calls == old(handle.calls) + CallsFor(handle.ledger.requests, handle.Present(), fired)
    ensures forall s :: s in handle.ledger.taken ==>
              && s in handle.ledger.requests && s !in handle.ledger.cancelled
              && handle.ledger.requests[s].at <= handle.ledger.taken[s]
                   < handle.ledger.requests[s].at + 3 * eventLoop.timer.tickMs
    ensures forall k :: k in eventLoop.timer.agenda.live ==>
              && eventLoop.timer.agenda.live[k].stamp in handle.ledger.requests
              && now < handle.ledger.requests[eventLoop.timer.agenda.live[k].stamp].at + 3 * eventLoop.timer.tickMs
  {
    hide InTimeSoFar, Recounted, Happened, AllHappened;
    now, wanted, fired := eventLoop.timer.startMs, map[], [];
    ghost var calls, capacity := handle.calls, eventLoop.timer.capacity;
    snaps := [SnapOf(eventLoop, handle, now, wanted)];
    NothingFired(eventLoop, handle, now);
    NothingHappened(snaps[0], capacity);
    for i := 0 to |happenings|
      invariant InTimeSoFar(eventLoop, handle, now, wanted) && Recounted(handle.Desk(), handle.ledger, fired, calls)
      invariant AllHappened(happenings[..i], snaps, capacity) && |snaps| == i + 1
      invariant snaps[0] == old(SnapOf(eventLoop, handle, eventLoop.timer.startMs, map[]))
      invariant snaps[i] == SnapOf(eventLoop, handle, now, wanted)
    {
      match happenings[i] {
        case Add(token, delay, mark, callback) =>
          if delay > 0 && mark !in handle.timers {
            wanted := AddInTime(eventLoop, handle, now, wanted, fired, calls, token, delay, mark, callback);
          } else {
            PassedOver(happenings[i], snaps[i], capacity);
          }
        case Remove(mark) => RemoveInTime(eventLoop, handle, now, wanted, fired, calls, mark);
        case Process => fired := ProcessInTime(eventLoop, handle, now, wanted, fired, calls);
        case Poll(waiting, pause) => now := PollInTime(eventLoop, handle, now, wanted, waiting, pause);
      }
      OneMoreHappened(happenings[..i], snaps, capacity, happenings[i], SnapOf(eventLoop, handle, now, wanted));
      snaps := snaps + [SnapOf(eventLoop, handle, now, wanted)];
      assert happenings[..i] + [happenings[i]] == happenings[..i + 1];
    }
    assert happenings[..|happenings|] == happenings;
    AllInTime(eventLoop, handle, now, wanted);
    RecountedMeans(handle.Desk(), handle.ledger, fired, calls);
  }

  lemma NothingHappened<M, F>(s: Snap<M, F>, capacity: nat)
    ensures AllHappened([], [s], capacity)
  {
  }

  lemma PassedOver<M, F>(h: Happening<M, F>, s: Snap<M, F>, capacity: nat)
    requires h.Add? && (h.delay == 0 || h.mark in s.timers)
    ensures Happened(h, s, s, capacity)
  {
  }

  lemma NothingFired<M, F>(eventLoop: EventLoop<M, F>, handle: Dispatcher<M, F>, now: nat)
    requires InTimeSoFar(eventLoop, handle, now, map[])
    ensures Recounted(handle.Desk(), handle.ledger, [], handle.calls)
  {
    assert handle.ledger.taken.Keys <= handle.ledger.requests.Keys;
  }

  lemma RecountedMeans<M, F>(d: Desk<M, F>, l: Ledger<F>, fired: seq<Item<M>>, calls: seq<Call<F>>)
    requires Recounted(d, l, fired, calls)
    ensures Distinct(fired) && Stamps(fired) == l.taken.Keys
    ensures d.calls == calls + CallsFor(l.requests, d.present, fired)
  {
  }

  lemma AllInTime<M, F>(eventLoop: EventLoop<M, F>, handle: Dispatcher<M, F>, now: nat, wanted: map<nat, nat>)
    requires InTimeSoFar(eventLoop, handle, now, wanted)
    ensures forall s :: s in handle.ledger.taken ==>
              && s in handle.ledger.requests && s !in handle.ledger.cancelled
              && handle.ledger.requests[s].at <= handle.ledger.taken[s]
                   < handle.ledger.requests[s].at + 3 * eventLoop.timer.tickMs
    ensures forall k :: k in eventLoop.timer.agenda.live ==>
              && eventLoop.timer.agenda.live[k].stamp in handle.ledger.requests
              && now < handle.ledger.requests[eventLoop.timer.agenda.live[k].stamp].at + 3 * eventLoop.timer.tickMs
  {
    hide Consistent;
    var l := LoopOf(eventLoop, now, wanted, handle.ledger.taken);
    forall k | k in l.agenda.live
      ensures l.agenda.live[k].stamp in l.wanted && now < l.wanted[l.agenda.live[k].stamp] + 3 * l.tickMs
    {
      assert InTime(l, l.agenda.live[k]);
      TickStarts(l.startMs, l.tickMs, l.agenda.live[k].due, l.agenda.live[k].due);
    }
  }

  /** A round fires nothing but its one due item. */
  lemma OnlyOneIsDue<M>(a: Agenda<M>, a': Agenda<M>, fired: seq<Item<M>>, backs: seq<Timeout>, q: nat, key: nat)
    requires Drained(a, a', fired, backs, q) && key in a.live && a.live[key].due <= q && a.live[key].interval == 0
    requires forall k :: k in a.live && k != key ==> q < a.live[k].due
    ensures fired == [a.live[key]] && backs == []
  {
    var x := a.live[key];
    forall i | 0 <= i < |fired|
      ensures fired[i] == x
    {
      assert fired[i] in a.live.Values;
    }
    assert x in fired;
    AscendingIsDistinct(fired, x);
    RepeatsGrow([], x);
  }

  lemma AscendingIsDistinct<M>(fired: seq<Item<M>>, x: Item<M>)
    requires forall i, j :: 0 <= i < j < |fired| ==> Before(fired[i], fired[j])
    requires forall i :: 0 <= i < |fired| ==> fired[i] == x
    ensures |fired| <= 1
  {
    var atMostOne := |fired| <= 1;
    assert !atMostOne ==> Before(fired[0], fired[1]);
  }

  /** A new loop with one connection, and a mark that is asked for. */
  method UseOnce<M, F>(tickMs: nat, slots: nat, cap: nat, now: nat, setup: F, mark: M, elder: F)
    returns (eventLoop: EventLoop<M, F>, handle: Dispatcher<M, F>, token: nat, ghost k1: nat)
    requires tickMs > 0 && 1 < cap && Powers.NextPowerOfTwo(cap) < EMPTY
    ensures eventLoop.timer.startMs == now && eventLoop.timer.tickMs == tickMs && eventLoop.Running(now)
    ensures 1 < eventLoop.timer.capacity && eventLoop.timer.agenda.slots > 0
    ensures eventLoop.timer.agenda ==
              Agenda(eventLoop.timer.agenda.slots, 0, 1, map[k1 := Item(mark, 0, 1, 1, 0)])
    ensures mark in handle.timers && handle.timers == map[mark := handle.timers[mark]]
    ensures handle.calls == [] && handle.Connected(token)
    ensures fresh(eventLoop) && fresh(eventLoop.timer) && fresh(eventLoop.timer.wheel) && fresh(handle)
  {
    hide Consistent, OneShot, EffectiveDue, TargetTick;
    var shared := new Shared();
    eventLoop := new EventLoop(tickMs, slots, cap, None, now);
    handle := new Dispatcher(1, 0, shared);
    ghost var k;
    token, k := handle.AddConnection(0, setup);
    TwoTargets(now, tickMs, 2 * tickMs + 1, eventLoop.timer.agenda.slots);
    var ok := handle.AddTimer(token, 1, mark, elder, now, eventLoop);
    k1 := handle.timers[mark].timeout.key;
  }

  /** The mark is asked for again. */
  method UseAgain<M, F>(tickMs: nat, slots: nat, cap: nat, now: nat, setup: F, mark: M, elder: F, newer: F, delay: nat)
    returns (eventLoop: EventLoop<M, F>, handle: Dispatcher<M, F>, token: nat,
             ghost k1: nat, ghost k2: nat, ghost late: nat)
    requires tickMs > 0 && 1 < cap && Powers.NextPowerOfTwo(cap) < EMPTY && 2 * tickMs < delay
    ensures eventLoop.timer.startMs == now && eventLoop.timer.tickMs == tickMs && eventLoop.Running(now)
    ensures k1 != k2 && 2 <= late && eventLoop.timer.agenda.tick == 0 && eventLoop.timer.agenda.live ==
              map[k1 := Item(mark, 0, 1, 1, 0), k2 := Item(mark, 0, late, late, 1)]
    ensures handle.timers == map[mark := Pending(Timeout(k2, late), token, newer)] && handle.Connected(token)
    ensures handle.calls == []
    ensures fresh(eventLoop) && fresh(eventLoop.timer) && fresh(eventLoop.timer.wheel) && fresh(handle)
  {
    hide Consistent, OneShot, EffectiveDue, TargetTick;
    eventLoop, handle, token, k1 := UseOnce(tickMs, slots, cap, now, setup, mark, elder);
    TwoTargets(now, tickMs, delay, eventLoop.timer.agenda.slots);
    var ok := handle.AddTimer(token, delay, mark, newer, now, eventLoop);
    k2, late := handle.timers[mark].timeout.key, handle.timers[mark].timeout.tick;
  }

  /** On every loop a mark that is used again while pending runs the newer callback when the elder one is
      due, however much later the newer one was wanted. */
  method PendingMarkOnALoop<M, F>(tickMs: nat, slots: nat, cap: nat, now: nat, setup: F, mark: M, elder: F, newer: F,
                                  delay: nat)
    returns (handle: Dispatcher<M, F>, token: nat, later: nat)
    requires tickMs > 0 && 1 < cap && Powers.NextPowerOfTwo(cap) < EMPTY && 2 * tickMs < delay
    ensures handle.calls == [Call(token, newer)] && later == now + tickMs < now + delay
  {
    hide Consistent, OneShot, Drained, EffectiveDue, TargetTick, MsToTick;
    ghost var k1, k2, late;
    var eventLoop: EventLoop<M, F>;
    eventLoop, handle, token, k1, k2, late := UseAgain(tickMs, slots, cap, now, setup, mark, elder, newer, delay);
    ghost var a, d := eventLoop.timer.agenda, handle.Desk();
    later := now + tickMs;
    var clock: nat -> nat := _ => now + tickMs;
    TwoTargets(now, tickMs, delay, 1);
    ghost var fired, backs;
    fired, backs := eventLoop.ProcessTimers(handle, clock);
    OnlyOneIsDue(a, eventLoop.timer.agenda, fired, backs, 1, k1);
    OneDelivered(d, a.live[k1]);
  }

  lemma OneDelivered<M, F>(d: Desk<M, F>, x: Item<M>)
    requires x.interval == 0
    ensures Delivered(d, [x], []) == d.Timeout(x.token, false)
  {
    DeliveredGrows(d, [], [], x, Timeout(0, 0));
    assert [] + [x] == [x];
  }

  lemma TwoTargets(now: nat, tickMs: nat, delay: nat, slots: nat)
    requires tickMs > 0 && 2 * tickMs < delay && slots > 0
    ensures TargetTick(now, tickMs, 0, now + 1) == 1 && 2 <= TargetTick(now, tickMs, 0, now + delay)
    ensures MsToTick(now, tickMs, now + tickMs) == 1
    ensures forall t: nat :: 0 < t ==> EffectiveDue(slots, 0, t) == t
  {
    CeilTickIsFirst(now, tickMs, now + 1, 0);
    CeilTickIsFirst(now, tickMs, now + 1, 1);
    CeilTickIsFirst(now, tickMs, now + delay, 1);
    TickHasBegun(now, tickMs, now + tickMs, 1);
    TickHasBegun(now, tickMs, now + tickMs, 2);
  }
}
