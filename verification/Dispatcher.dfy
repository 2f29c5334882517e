/** One loop's timer and the dispatcher that handles its messages and timeouts. */
module Dispatching {
  import Powers
  import opened Slabs
  import opened Ticks
  import opened Agendas
  import opened Chains
  import opened Wheels
  import opened Timers
  import opened Drains
  import opened Desks
  import opened Routing

  /** The table of tokens that all loops share; the lock around it makes each access one step. */
  class Shared {
    var connToLoop: map<nat, nat>

    constructor ()
      ensures connToLoop == map[]
    {
      connToLoop := map[];
    }

    /** A token that is in the table already is a panic. */
    method AddConnection(token: nat, loop: nat)
      requires token !in connToLoop
      modifies this
      ensures connToLoop == old(connToLoop)[token := loop]
    {
      connToLoop := connToLoop[token := loop];
    }

    method RemoveConnection(token: nat) returns (r: Option<nat>)
      modifies this
      ensures connToLoop == old(connToLoop) - {token}
      ensures r == if token in old(connToLoop) then Some(old(connToLoop)[token]) else None
    {
      r := if token in connToLoop then Some(connToLoop[token]) else None;
      connToLoop := connToLoop - {token};
    }
  }

  /** What a new connection runs: the callback that came with it, and then its own reaction. */
  datatype Greeting<F> = SetUp(token: nat, callback: F) | Established(token: nat)

  class Dispatcher<M(==), F> {
    const cap: nat
    const loop: nat
    const offset: nat
    const shared: Shared
    var localConnections: Slab<nat>
    var room: nat
    var refused: seq<nat>
    var greetings: seq<Greeting<F>>
    var timers: map<M, Pending<F>>
    var timers2: map<M, Pending<F>>
    var calls: seq<Call<F>>

    ghost var ledger: Ledger<F>

    constructor (cap: nat, loop: nat, shared: Shared)
      ensures this.cap == cap && this.loop == loop && offset == loop * cap && this.shared == shared
      ensures localConnections == Empty() && room == cap && refused == [] && greetings == []
      ensures timers == map[] && timers2 == map[] && calls == []
      ensures ledger == Ledger(map[], map[], {})
    {
      this.cap := cap;
      this.loop := loop;
      offset := loop * cap;
      this.shared := shared;
      localConnections := Empty();
      room := cap;
      refused := [];
      greetings := [];
      timers := map[];
      timers2 := map[];
      calls := [];
      ledger := Ledger(map[], map[], {});
    }

    /** The state of this loop in the network of all loops, between messages. */
    ghost function State(): LoopState
      reads this
    {
      LoopState(localConnections, Idle)
    }

    predicate Connected(token: nat)
      reads this
    {
      offset <= token && token - offset in localConnections.cells
    }

    ghost function Present(): (tokens: set<nat>)
      reads this
      ensures forall t: nat :: t in tokens <==> Connected(t)
    {
      var tokens := set k | k in localConnections.cells :: offset + k;
      assert forall t: nat :: Connected(t) ==> offset + (t - offset) in tokens;
      tokens
    }

    ghost function Desk(): Desk<M, F>
      reads this
    {
      Desks.Desk(Present(), timers, timers2, calls)
    }

    /** Takes the connection in and enters its token: the two steps of a loop that adds one. A stream that
        finds all room taken is shut down, and taken in all the same; the slab then makes more room. */
    method AddConnection(conn: nat, setup: F) returns (token: nat, ghost key: nat)
      requires localConnections.Valid() && localConnections.top <= room && offset == loop * cap
      requires forall k :: localConnections.Offers(k) ==> offset + k !in shared.connToLoop
      modifies this`localConnections, this`room, this`refused, this`greetings, shared
      ensures old(localConnections).Offers(key) && token == TokenOf(cap, loop, key) == offset + key
      ensures localConnections == old(localConnections).Put(key, conn)
      ensures localConnections.cells == old(localConnections).cells[key := conn]
      ensures localConnections.Valid() && localConnections.top <= room
      ensures shared.connToLoop == old(shared.connToLoop)[token := loop]
      ensures refused == old(refused) + if |old(localConnections).cells| == old(room) then [conn] else []
      ensures |old(localConnections).cells| < old(room) ==> room == old(room)
      ensures greetings == old(greetings) + [SetUp(token, setup), Established(token)]
    {
      if |localConnections.cells| == room {
        refused := refused + [conn];
      }
      var k := Reserve(localConnections);
      token := offset + k;
      greetings := greetings + [SetUp(token, setup)];
      greetings := greetings + [Established(token)];
      localConnections := localConnections.Put(k, conn);
      if room < localConnections.top {
        var grown: nat :| localConnections.top <= grown;
        room := grown;
      }
      shared.AddConnection(token, loop);
      key := k;
    }

    /** Drops the connection and strikes out its token. The slab panics without such a connection. */
    method RemoveConnection(token: nat)
      requires Connected(token) && offset == loop * cap
      modifies this`localConnections, shared
      ensures localConnections == old(localConnections).Remove(RestoreKey(cap, loop, token))
      ensures localConnections == old(localConnections).(cells := old(localConnections).cells - {token - offset})
      ensures shared.connToLoop == old(shared.connToLoop) - {token}
    {
      localConnections := localConnections.Remove(token - offset);
      var _ := shared.RemoveConnection(token);
    }

    /** Runs the callback if its connection is open. */
    method WithConnection(p: Pending<F>)
      modifies this`calls
      ensures Desk() == old(Desk()).WithConnection(p)
      ensures calls == old(calls) + if offset <= p.token && p.token - offset in localConnections.cells
                                    then [Call(p.token, p.callback)] else []
    {
      if Connected(p.token) {
        calls := calls + [Call(p.token, p.callback)];
      }
    }

    /** A one-shot timer whose mark is not pending. Without room in the wheel nothing happens. */
    method AddTimer(token: nat, delay: nat, mark: M, callback: F, now: nat, eventLoop: EventLoop<M, F>)
      returns (ok: bool)
      requires eventLoop.Running(now)
      modifies this`timers, this`ledger, eventLoop.timer, eventLoop.timer.wheel
      ensures eventLoop.timer.Valid() && eventLoop.timer.startMs == old(eventLoop.timer.startMs)
      ensures ok <==> |old(eventLoop.timer.agenda).live| < eventLoop.timer.capacity
      ensures !ok ==>
        eventLoop.timer.agenda == old(eventLoop.timer.agenda) && timers == old(timers) && ledger == old(ledger)
      ensures ok ==>
        && mark in timers && timers[mark] == Pending(timers[mark].timeout, token, callback)
        && timers == old(timers)[mark := timers[mark]]
        && timers[mark].timeout.key !in old(eventLoop.timer.agenda).live
        && timers[mark].timeout.tick == eventLoop.Target(old(eventLoop.timer.tick), now + delay)
        && eventLoop.timer.agenda ==
             old(eventLoop.timer.agenda).Insert(timers[mark].timeout.key, mark, 0, timers[mark].timeout.tick)
        && ledger == old(ledger).(requests :=
             old(ledger).requests[old(eventLoop.timer.agenda).stamps := Request(token, callback, now + delay)])
      ensures mark !in old(timers) && old(OneShotWith(eventLoop)) ==> OneShotWith(eventLoop)
    {
      hide Consistent, OneShot;
      ghost var a := eventLoop.timer.agenda;
      var r := eventLoop.ScheduleAfter(delay, mark, now);
      match r
      case Ok(h) =>
        if mark !in timers && OneShot(a, timers, ledger, eventLoop.timer.startMs, eventLoop.timer.tickMs) {
          TargetTickBounds(eventLoop.timer.startMs, eventLoop.timer.tickMs, a.tick, now + delay);
          AddOneShot(a, timers, ledger, eventLoop.timer.startMs, eventLoop.timer.tickMs, mark, h.key, h.tick,
                     Request(token, callback, now + delay));
        }
        timers := timers[mark := Pending(h, token, callback)];
        ledger := ledger.(requests := ledger.requests[a.stamps := Request(token, callback, now + delay)]);
        ok := true;
      case Overflow =>
        ok := false;
    }

    /** All that is pending is one-shot and agrees with the wheel. */
    ghost predicate OneShotWith(eventLoop: EventLoop<M, F>)
      reads this, eventLoop.timer
    {
      && timers2 == map[]
      && OneShot(eventLoop.timer.agenda, timers, ledger, eventLoop.timer.startMs, eventLoop.timer.tickMs)
    }

    /** A repeating timer, as far as its first firing. */
    method AddTimer2(token: nat, delay: nat, interval: nat, mark: M, callback: F, now: nat, eventLoop: EventLoop<M, F>)
      returns (ok: bool)
      requires eventLoop.Running(now)
      modifies this`timers2, eventLoop.timer, eventLoop.timer.wheel
      ensures eventLoop.timer.Valid() && eventLoop.timer.startMs == old(eventLoop.timer.startMs)
      ensures ok <==> |old(eventLoop.timer.agenda).live| < eventLoop.timer.capacity
      ensures !ok ==> eventLoop.timer.agenda == old(eventLoop.timer.agenda) && timers2 == old(timers2)
      ensures ok ==>
        && mark in timers2 && timers2[mark] == Pending(timers2[mark].timeout, token, callback)
        && timers2 == old(timers2)[mark := timers2[mark]]
        && timers2[mark].timeout.key !in old(eventLoop.timer.agenda).live
        && timers2[mark].timeout.tick == eventLoop.Target(old(eventLoop.timer.tick), now + delay)
        && eventLoop.timer.agenda ==
             old(eventLoop.timer.agenda).Insert(timers2[mark].timeout.key, mark, interval, timers2[mark].timeout.tick)
    {
      var r := eventLoop.ScheduleEvery(delay, interval, mark, now);
      match r
      case Ok(h) =>
        timers2 := timers2[mark := Pending(h, token, callback)];
        ok := true;
      case Overflow =>
        ok := false;
    }

    /** Takes the one-shot callback out and runs it, or runs the repeating one. */
    method HandleTimeout(mark: M, repeat: bool, ghost stamp: nat, ghost now: nat)
      modifies this`timers, this`timers2, this`calls, this`ledger
      ensures Desk() == old(Desk()).Timeout(mark, repeat)
      ensures repeat ==>
        && timers == old(timers) && timers2 == old(timers2)
        && calls == old(calls) + if mark in timers2 && Connected(timers2[mark].token)
                                 then [Call(timers2[mark].token, timers2[mark].callback)] else []
      ensures !repeat ==>
        && timers == old(timers) - {mark} && timers2 == old(timers2)
        && calls == old(calls) + if mark in old(timers) && Connected(old(timers)[mark].token)
                                 then [Call(old(timers)[mark].token, old(timers)[mark].callback)] else []
      ensures ledger == if !repeat && mark in old(timers) then Closed(old(ledger), stamp, Some(now)) else old(ledger)
    {
      if !repeat {
        if mark in timers {
          var p := timers[mark];
          timers := timers - {mark};
          ledger := Closed(ledger, stamp, Some(now));
          WithConnection(p);
        }
      } else {
        if mark in timers2 {
          var p := timers2[mark];
          timers2 := timers2 - {mark};
          WithConnection(p);
          timers2 := timers2[mark := p];
        }
      }
    }

    method RefreshTimeout(mark: M, timeout: Timeout)
      modifies this`timers
      ensures Desk() == old(Desk()).Refresh(mark, timeout)
      ensures timers == if mark in old(timers) then old(timers)[mark := old(timers)[mark].(timeout := timeout)]
                        else old(timers)
    {
      if mark in timers {
        timers := timers[mark := timers[mark].(timeout := timeout)];
      }
    }

    /** Cancels the one-shot timer with this mark, or else the repeating one. */
    method CancelTimer(mark: M, eventLoop: EventLoop<M, F>)
      requires eventLoop.timer.Valid()
      modifies this`timers, this`timers2, this`ledger, eventLoop.timer, eventLoop.timer.wheel
      ensures eventLoop.timer.Valid() && eventLoop.timer.startMs == old(eventLoop.timer.startMs)
      ensures timers == old(timers) - {mark}
      ensures timers2 == if mark in old(timers) then old(timers2) else old(timers2) - {mark}
      ensures eventLoop.timer.agenda ==
                if mark in old(timers) then Cancelled(old(eventLoop.timer.agenda), old(timers)[mark].timeout)
                else if mark in old(timers2) then Cancelled(old(eventLoop.timer.agenda), old(timers2)[mark].timeout)
                else old(eventLoop.timer.agenda)
      ensures var h := if mark in old(timers) then Some(old(timers)[mark].timeout)
                       else if mark in old(timers2) then Some(old(timers2)[mark].timeout) else None;
              var live := old(eventLoop.timer.agenda).live;
              eventLoop.timer.agenda == old(eventLoop.timer.agenda).(
                live := if h.Some? && h.value.key in live && live[h.value.key].target == h.value.tick
                        then live - {h.value.key} else live)
      ensures old(OneShotWith(eventLoop)) ==>
        && OneShotWith(eventLoop)
        && if mark in old(timers) then
             var key := old(timers)[mark].timeout.key;
             && key in old(eventLoop.timer.agenda).live
             && eventLoop.timer.agenda == old(eventLoop.timer.agenda).Drop(key)
             && ledger == Closed(old(ledger), old(eventLoop.timer.agenda).live[key].stamp, None)
           else ledger == old(ledger)
    {
      hide Consistent, OneShot;
      ghost var a := eventLoop.timer.agenda;
      if mark in timers {
        var p := timers[mark];
        if OneShotWith(eventLoop) {
          PendingMatches(a, timers, ledger, eventLoop.timer.startMs, eventLoop.timer.tickMs, mark);
          LeaveOneShot(a, timers, ledger, eventLoop.timer.startMs, eventLoop.timer.tickMs, p.timeout.key, None);
          ledger := Closed(ledger, a.live[p.timeout.key].stamp, None);
        }
        timers := timers - {mark};
        var _ := eventLoop.Cancel(p.timeout);
      } else if mark in timers2 {
        var p := timers2[mark];
        timers2 := timers2 - {mark};
        var _ := eventLoop.Cancel(p.timeout);
      }
    }
  }

  function Cancelled<T>(a: Agenda<T>, h: Timeout): Agenda<T> {
    if a.Matches(h) then a.Drop(h.key) else a
  }

  /** Each item that repeats was put back for its interval after the clock reading made for it: the handle
      has the tick stored for that time by a wheel at the tick of the item. */
  ghost predicate OnTime<M>(startMs: nat, tickMs: nat, clock: nat -> nat, again: seq<Item<M>>, backs: seq<Timeout>)
    requires tickMs > 0
  {
    && |backs| == |again|
    && forall i :: 0 <= i < |backs| ==>
         && startMs <= clock(i + 1)
         && backs[i].tick == TargetTick(startMs, tickMs, again[i].due, clock(i + 1) + again[i].interval)
  }

  lemma NothingIsOnTime<M>(startMs: nat, tickMs: nat, clock: nat -> nat)
    requires tickMs > 0
    ensures OnTime<M>(startMs, tickMs, clock, Repeats<M>([]), [])
  {
  }

  lemma OnTimeIsOneEach<M>(startMs: nat, tickMs: nat, clock: nat -> nat, again: seq<Item<M>>, backs: seq<Timeout>)
    requires tickMs > 0 && OnTime(startMs, tickMs, clock, again, backs)
    ensures |backs| == |again|
  {
  }

  lemma OnTimeGrows<M>(startMs: nat, tickMs: nat, clock: nat -> nat, again: seq<Item<M>>, backs: seq<Timeout>,
                       x: Item<M>, backs': seq<Timeout>, n: nat)
    requires tickMs > 0 && OnTime(startMs, tickMs, clock, again, backs) && n == |backs| + 1 && startMs <= clock(n)
    requires |backs'| == |backs| + 1 && backs <= backs'
    requires backs'[|backs|].tick == TargetTick(startMs, tickMs, x.due, clock(n) + x.interval)
    ensures OnTime(startMs, tickMs, clock, again + [x], backs')
  {
  }

  class EventLoop<M(==), F> {
    const timer: Timer<M>
    const pollTimeout: Option<nat>

    constructor (tickMs: nat, slots: nat, cap: nat, pollTimeout: Option<nat>, now: nat)
      requires Powers.NextPowerOfTwo(cap) < EMPTY
      ensures timer.Valid() && fresh(timer) && fresh(timer.wheel)
      ensures timer.startMs == now && timer.tickMs == tickMs && this.pollTimeout == pollTimeout
      ensures timer.agenda == Agenda(Powers.NextPowerOfTwo(slots), 0, 0, map[])
      ensures timer.capacity == Powers.NextPowerOfTwo(cap)
    {
      timer := new Timer(tickMs, slots, cap);
      this.pollTimeout := pollTimeout;
      new;
      timer.Setup(now);
    }

    /** Times can be turned into ticks: the clock has not been set back before the start. */
    ghost predicate Running(now: nat)
      reads timer, timer.wheel
    {
      timer.Valid() && timer.tickMs > 0 && timer.startMs <= now
    }

    ghost function Target(tick: nat, at: nat): nat
      requires timer.tickMs > 0 && timer.startMs <= at
      reads timer
    {
      TargetTick(timer.startMs, timer.tickMs, tick, at)
    }

    method ScheduleAfter(delay: nat, mark: M, now: nat) returns (r: TimerResult)
      requires Running(now)
      modifies timer, timer.wheel
      ensures timer.Valid() && timer.startMs == old(timer.startMs)
      ensures timer.Inserted(old(timer.agenda), timer.agenda, r, mark, 0, Target(old(timer.tick), now + delay))
    {
      r := timer.TimeoutMs(now, delay, 0, mark);
    }

    method ScheduleEvery(delay: nat, interval: nat, mark: M, now: nat) returns (r: TimerResult)
      requires Running(now)
      modifies timer, timer.wheel
      ensures timer.Valid() && timer.startMs == old(timer.startMs)
      ensures timer.Inserted(old(timer.agenda), timer.agenda, r, mark, interval, Target(old(timer.tick), now + delay))
    {
      r := timer.TimeoutMs(now, delay, interval, mark);
    }

    method Cancel(timeout: Timeout) returns (b: bool)
      requires timer.Valid()
      modifies timer, timer.wheel
      ensures timer.Valid() && timer.startMs == old(timer.startMs)
      ensures b == old(timer.agenda.Matches(timeout)) && timer.agenda == Cancelled(old(timer.agenda), timeout)
      ensures var live := old(timer.agenda).live;
              && (b <==> timeout.key in live && live[timeout.key].target == timeout.tick)
              && timer.agenda == old(timer.agenda).(live := if b then live - {timeout.key} else live)
    {
      b := timer.Clear(timeout);
    }

    /** Polling for `w` milliseconds keeps the configured limit and does not go past the next tick while a
        timer is pending. */
    ghost predicate MayWait(w: nat, now: nat)
      reads timer
    {
      && (pollTimeout.Some? ==> w <= pollTimeout.value)
      && (timer.agenda.live != map[] ==> now + w <= Max(now, timer.startMs + (timer.tick + 1) * timer.tickMs))
    }

    /** How long a step may poll. With a message waiting it does not block; otherwise it polls for the longest
        time that is allowed, and without limit exactly if nothing limits it. */
    method PollWait(waiting: bool, now: nat) returns (r: Option<nat>)
      requires timer.Valid()
      ensures r == PollTimeout(waiting, pollTimeout,
                               NextTick(timer.startMs, timer.tickMs, timer.tick, timer.agenda.live == map[], now))
      ensures waiting ==> r == Some(0)
      ensures r.Some? ==> MayWait(r.value, now)
      ensures !waiting ==> forall w: nat :: MayWait(w, now) ==> r.None? || w <= r.value
      ensures !waiting ==> (r.None? <==> pollTimeout.None? && timer.agenda.live == map[])
    {
      hide Consistent;
      var nextTick := timer.NextTickInMs(now);
      var timeout := if waiting then Some(0) else pollTimeout;
      match (timeout, nextTick)
      case (Some(a), Some(b)) => r := Some(if b < a then b else a);
      case (Some(a), None) => r := Some(a);
      case (None, Some(b)) => r := Some(b);
      case (None, None) => r := None;
    }

    /** Puts a repeating timer back. There is room for it, and it lands beyond tick `nowTick`, so the
        handle can be unwrapped and the round comes to an end. */
    method Reschedule(mark: M, interval: nat, now: nat, handle: Dispatcher<M, F>, ghost nowTick: nat)
      returns (h: Timeout)
      requires Running(now) && interval > 0
      requires |timer.agenda.live| < timer.capacity
      requires timer.tick <= nowTick <= MsToTick(timer.startMs, timer.tickMs, now)
      modifies handle`timers, timer, timer.wheel
      ensures timer.Valid() && timer.startMs == old(timer.startMs)
      ensures h.key !in old(timer.agenda).live && nowTick < h.tick
      ensures h.tick == Target(old(timer.tick), now + interval)
      ensures timer.agenda == old(timer.agenda).Insert(h.key, mark, 0, h.tick)
      ensures handle.Desk() == old(handle.Desk()).Refresh(mark, h)
      ensures handle.timers == if mark in old(handle.timers)
                               then old(handle.timers)[mark := old(handle.timers)[mark].(timeout := h)]
                               else old(handle.timers)
    {
      hide Consistent;
      PositiveDelayIsDisciplined(timer.startMs, timer.tickMs, timer.tick, now, interval);
      var again := ScheduleAfter(interval, mark, now);
      h := again.timeout;
      handle.RefreshTimeout(mark, h);
    }

    /** One turn of a round: the item that was just returned is put back if it repeats, and is delivered.
        The clock is read only for putting it back. `a` is the agenda before it was returned. */
    method Deliver(mark: M, interval: nat, now: nat, handle: Dispatcher<M, F>, ghost s: Start<M, F>,
                   ghost a: Agenda<M>, ghost key: nat, ghost fired: seq<Item<M>>, ghost backs: seq<Timeout>,
                   ghost clock: nat -> nat)
      returns (ghost fired': seq<Item<M>>, ghost backs': seq<Timeout>)
      requires Running(now) && s.Valid() && timer.startMs == s.startMs && timer.tickMs == s.tickMs && s.now <= now
      requires Round(s, a, handle.Desk(), handle.ledger, fired, backs) && now == clock(|backs| + 1)
      requires OnTime(s.startMs, s.tickMs, clock, Repeats(fired), backs)
      requires a.WellTimed() && |a.live| <= timer.capacity && a.First(s.NowTick(), key)
      requires a.live[key].token == mark && a.live[key].interval == interval && timer.agenda == a.Fire(key)
      modifies handle`timers, handle`timers2, handle`calls, handle`ledger, timer, timer.wheel
      ensures timer.Valid() && timer.startMs == old(timer.startMs) && timer.tick == old(timer.tick)
      ensures Round(s, timer.agenda, handle.Desk(), handle.ledger, fired', backs')
      ensures DueKeys(timer.agenda, s.NowTick()) < DueKeys(a, s.NowTick())
      ensures fired' == fired + [a.live[key]] && |backs'| == |backs| + if interval > 0 then 1 else 0
      ensures OnTime(s.startMs, s.tickMs, clock, Repeats(fired'), backs')
    {
      hide Consistent, OneShot, Round, DueKeys, OnTime, Repeats, TargetTick, MsToTick;
      ghost var x, d, l := a.live[key], handle.Desk(), handle.ledger;
      ghost var h := Timeout(0, s.NowTick() + 1);
      fired', backs' := fired + [x], backs;
      RepeatsGrow(fired, x);
      if interval > 0 {
        MsToTickMonotone(s.startMs, s.tickMs, s.now, now);
        h := Reschedule(mark, interval, now, handle, s.NowTick());
        RoundRepeats(s, a, d, l, fired, backs, key, h);
        backs' := backs + [h];
        OnTimeGrows(s.startMs, s.tickMs, clock, Repeats(fired), backs, x, backs', |backs| + 1);
      } else {
        RoundFires(s, a, d, l, fired, backs, key);
      }
      FiringLeavesLess(a, s.NowTick(), key, h, mark);
      handle.HandleTimeout(mark, interval > 0, x.stamp, s.now);
    }

    /** Fires everything that is due by the tick the clock shows at the start. `clock(n)` is its
        reading number `n`. */
    method ProcessTimers(handle: Dispatcher<M, F>, clock: nat -> nat)
      returns (ghost fired: seq<Item<M>>, ghost backs: seq<Timeout>)
      requires Running(clock(0))
      requires forall i: nat, j: nat :: i <= j ==> clock(i) <= clock(j)
      modifies handle`timers, handle`timers2, handle`calls, handle`ledger, timer, timer.wheel
      ensures timer.Valid() && timer.startMs == old(timer.startMs)
      ensures Drained(old(timer.agenda), timer.agenda, fired, backs, MsToTick(timer.startMs, timer.tickMs, clock(0)))
      ensures handle.Desk() == Delivered(old(handle.Desk()), fired, backs)
      ensures handle.calls == old(handle.calls) + CallsOf(old(handle.Desk()), fired)
      ensures handle.timers2 == old(handle.timers2)
      ensures handle.timers.Keys <= old(handle.timers.Keys)
      ensures forall m :: m in old(handle.timers) ==> (m in handle.timers <==> !TookOut(fired, m))
      ensures OnTime(timer.startMs, timer.tickMs, clock, Repeats(fired), backs)
      ensures old(handle.OneShotWith(this)) ==>
                && handle.OneShotWith(this) && backs == []
                && handle.ledger == Takes(old(handle.ledger), fired, clock(0))
                && handle.calls ==
                     old(handle.calls) + CallsFor(old(handle.ledger).requests, old(handle.Present()), fired)
    {
      hide Consistent, Drained, OneShot, Round, DueKeys, OnTime, Delivered, CallsOf, TookOut, Repeats,
           TargetTick, MsToTick;
      ghost var s := Start(timer.agenda, handle.Desk(), handle.ledger, timer.startMs, timer.tickMs, clock(0));
      var nowTick := MsToTick(timer.startMs, timer.tickMs, clock(0));
      var readings: nat := 1;
      fired, backs := [], [];
      timer.AgendaFits();
      RoundBegins(s);
      NothingIsOnTime<M>(s.startMs, s.tickMs, clock);
      while true
        invariant timer.Valid() && timer.startMs == s.startMs
        invariant Round(s, timer.agenda, handle.Desk(), handle.ledger, fired, backs)
        invariant OnTime(s.startMs, s.tickMs, clock, Repeats(fired), backs) && readings == |backs| + 1
        invariant s.agenda.tick <= timer.tick && (timer.tick == s.agenda.tick || timer.tick <= nowTick)
        decreases DueKeys(timer.agenda, nowTick)
      {
        timer.AgendaFits();
        ghost var a, d, l := timer.agenda, handle.Desk(), handle.ledger;
        var r, key, looks := timer.TickTo(nowTick);
        match r
        case None =>
          RoundEnds(s, a, d, l, fired, backs);
          OnTimeIsOneEach(s.startMs, s.tickMs, clock, Repeats(fired), backs);
          DeliveredRuns(s.desk, fired, backs);
          return;
        case Some((mark, interval)) =>
          fired, backs := Deliver(mark, interval, clock(readings), handle, s, a, key, fired, backs, clock);
          readings := if interval > 0 then readings + 1 else readings;
      }
    }
  }
}
