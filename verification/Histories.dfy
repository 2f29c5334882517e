/** Any sequence of calls on a dispatcher with one-shot timers is a run in the sense of `OneShots`. */
module Histories {
  import opened Ticks
  import opened Agendas
  import opened Drains
  import opened Desks
  import opened Timing
  import opened Wheels
  import opened Dispatching
  import opened EndToEnd
  import OneShots

  /** What a loop asks of its dispatcher, at some time. */
  datatype Order<M, F> =
    | Add(token: nat, delay: nat, mark: M, callback: F, now: nat)
    | Cancel(cancelled: M)
    | Round(at: nat)

  ghost function StateOf<M, F>(eventLoop: EventLoop<M, F>, handle: Dispatcher<M, F>): OneShots.State<M, F>
    reads eventLoop.timer, handle
  {
    OneShots.State(eventLoop.timer.agenda, handle.timers, handle.ledger,
                   eventLoop.timer.startMs, eventLoop.timer.tickMs)
  }

  /** The items that fire in a run, in order. */
  ghost function FiredIn<M, F>(run: seq<OneShots.State<M, F>>, events: seq<OneShots.Event<M, F>>): seq<Item<M>>
    requires |run| == |events| + 1
  {
    if events == [] then []
    else
      var n := |events| - 1;
      FiredIn(run[..n + 1], events[..n])
      + if events[n].Fire? && events[n].fired in run[n].agenda.live then [run[n].agenda.live[events[n].fired]] else []
  }

  /** A run that has led to this state and has fired these items. */
  ghost predicate LedTo<M, F>(run: seq<OneShots.State<M, F>>, events: seq<OneShots.Event<M, F>>,
                              s: OneShots.State<M, F>, fired: seq<Item<M>>) {
    OneShots.IsRun(run, events) && run[|events|] == s && FiredIn(run, events) == fired
  }

  lemma LedBegins<M, F>(s: OneShots.State<M, F>)
    requires OneShots.Sound(s)
    ensures LedTo([s], [], s, [])
  {
  }

  lemma LedIsSound<M, F>(run: seq<OneShots.State<M, F>>, events: seq<OneShots.Event<M, F>>,
                         s: OneShots.State<M, F>, fired: seq<Item<M>>)
    requires LedTo(run, events, s, fired)
    ensures OneShots.Sound(s)
  {
    OneShots.RunIsSound(run, events, 0, |events|);
  }

  lemma LedFurther<M, F>(run: seq<OneShots.State<M, F>>, events: seq<OneShots.Event<M, F>>, s: OneShots.State<M, F>,
                         fired: seq<Item<M>>, e: OneShots.Event<M, F>, s': OneShots.State<M, F>)
    requires LedTo(run, events, s, fired) && OneShots.Step(s, e, s')
    ensures LedTo(run + [s'], events + [e], s',
                  fired + if e.Fire? && e.fired in s.agenda.live then [s.agenda.live[e.fired]] else [])
  {
    hide OneShots.Step, OneShots.Sound;
    var run', events' := run + [s'], events + [e];
    assert run'[..|events| + 1] == run && events'[..|events|] == events;
    forall i | 0 <= i < |events'|
      ensures OneShots.Step(run'[i], events'[i], run'[i + 1])
    {
      if i < |events| {
        assert OneShots.Step(run[i], events[i], run[i + 1]);
      }
    }
  }

  /** These are the items due by tick `q`, in the order in which they are found. */
  ghost predicate Enumerates<T>(a: Agenda<T>, fired: seq<Item<T>>, q: nat) {
    && (forall i, j :: 0 <= i < j < |fired| ==> Before(fired[i], fired[j]))
    && (forall i :: 0 <= i < |fired| ==> fired[i] in a.live.Values && fired[i].due <= q)
    && (forall k :: k in a.live && a.live[k].due <= q ==> a.live[k] in fired)
  }

  lemma DrainedEnumerates<T>(a: Agenda<T>, a': Agenda<T>, fired: seq<Item<T>>, backs: seq<Timeout>, q: nat)
    requires Drained(a, a', fired, backs, q)
    ensures Enumerates(a, fired, q)
  {
  }

  lemma NextOfEnumeration<T>(a: Agenda<T>, fired: seq<Item<T>>, q: nat) returns (key: nat)
    requires Enumerates(a, fired, q) && fired != [] && a.WellTimed()
    ensures a.First(q, key) && a.live[key] == fired[0] && Enumerates(a.Fire(key), fired[1..], q)
  {
    assert fired[0] in a.live.Values;
    key :| key in a.live && a.live[key] == fired[0];
    forall k | k in a.live && k != key
      ensures Before(a.live[key], a.live[k])
    {
      if a.live[k].due <= q {
        var _ := PlaceInRest(a, fired, q, key, k);
      }
    }
    RestEnumerates(a, fired, q, key);
  }

  /** Every other item that is due has its place after the first. */
  lemma PlaceInRest<T>(a: Agenda<T>, fired: seq<Item<T>>, q: nat, key: nat, k: nat) returns (i: nat)
    requires Enumerates(a, fired, q) && fired != [] && a.WellTimed() && key in a.live && a.live[key] == fired[0]
    requires k in a.live && k != key && a.live[k].due <= q
    ensures 0 < i < |fired| && fired[i] == a.live[k] && Before(fired[0], fired[i])
  {
    i :| 0 <= i < |fired| && fired[i] == a.live[k];
    assert a.live[k].stamp != a.live[key].stamp;
  }

  lemma RestEnumerates<T>(a: Agenda<T>, fired: seq<Item<T>>, q: nat, key: nat)
    requires Enumerates(a, fired, q) && fired != [] && a.WellTimed() && key in a.live && a.live[key] == fired[0]
    ensures Enumerates(a.Fire(key), fired[1..], q)
  {
    var rest := fired[1..];
    forall k | k in a.Fire(key).live && a.live[k].due <= q
      ensures a.live[k] in rest
    {
      var i := PlaceInRest(a, fired, q, key, k);
      assert rest[i - 1] == a.live[k];
    }
    forall i | 0 <= i < |rest|
      ensures rest[i] in a.Fire(key).live.Values
    {
      assert Before(fired[0], fired[i + 1]);
      var k :| k in a.live && a.live[k] == fired[i + 1];
      assert k in a.Fire(key).live;
    }
  }

  /** From `s` to `t` these items were fired in a round that reads the clock at `now`. */
  ghost predicate Progress<M, F>(s: OneShots.State<M, F>, t: OneShots.State<M, F>, fired: seq<Item<M>>, now: nat) {
    && t.startMs == s.startMs && t.tickMs == s.tickMs && t.tickMs > 0 && s.startMs <= now
    && t.agenda.slots == s.agenda.slots && t.agenda.stamps == s.agenda.stamps
    && t.ledger == Takes(s.ledger, fired, now)
    && var q := MsToTick(s.startMs, s.tickMs, now);
    && s.agenda.tick <= t.agenda.tick && (t.agenda.tick == s.agenda.tick || t.agenda.tick <= q)
    && (forall k :: k in t.agenda.live ==> k in s.agenda.live && t.agenda.live[k] == s.agenda.live[k])
    && (forall k :: k in s.agenda.live && q < s.agenda.live[k].due ==> k in t.agenda.live)
  }

  lemma FiringProgresses<M, F>(s: OneShots.State<M, F>, t: OneShots.State<M, F>, fired: seq<Item<M>>, now: nat,
                               key: nat)
    requires OneShots.Sound(t) && Progress(s, t, fired, now)
    requires t.agenda.First(MsToTick(s.startMs, s.tickMs, now), key)
    ensures OneShots.Step(t, OneShots.Fire(now, key), OneShots.Fired(t, now, key))
    ensures Progress(s, OneShots.Fired(t, now, key), fired + [t.agenda.live[key]], now)
  {
    hide OneShot, MsToTick;
    OneShots.StampsAreNew(t.agenda, t.timers, t.ledger, t.startMs, t.tickMs);
    OneShots.Claim(t, now, key);
    TakesGrow(s.ledger, fired, t.agenda.live[key], now);
  }

  /** The firings of a round, one step each. */
  lemma RoundFiresAll<M, F>(run: seq<OneShots.State<M, F>>, events: seq<OneShots.Event<M, F>>, s: OneShots.State<M, F>,
                            fired: seq<Item<M>>, more: seq<Item<M>>, now: nat)
    returns (run': seq<OneShots.State<M, F>>, events': seq<OneShots.Event<M, F>>, t: OneShots.State<M, F>)
    requires LedTo(run, events, s, fired) && s.tickMs > 0 && s.startMs <= now
    requires Enumerates(s.agenda, more, MsToTick(s.startMs, s.tickMs, now))
    ensures LedTo(run', events', t, fired + more) && run <= run' && events <= events'
    ensures forall j :: |events| <= j < |events'| ==> events'[j].Fire? && events'[j].now == now
    ensures Progress(s, t, more, now) && t.agenda.Quiet(MsToTick(s.startMs, s.tickMs, now))
  {
    hide LedTo, OneShots.Step, OneShots.Sound, Progress, Enumerates, MsToTick, OneShots.Fired;
    run', events', t := run, events, s;
    var i, q := 0, MsToTick(s.startMs, s.tickMs, now);
    NothingProgresses(s, now);
    assert more[0..] == more && fired + more[..0] == fired;
    while i < |more|
      invariant i <= |more| && LedTo(run', events', t, fired + more[..i]) && run <= run' && events <= events'
      invariant forall j :: |events| <= j < |events'| ==> events'[j].Fire? && events'[j].now == now
      invariant Progress(s, t, more[..i], now) && Enumerates(t.agenda, more[i..], q)
    {
      LedIsSound(run', events', t, fired + more[..i]);
      SoundIsWellTimed(t);
      var key := NextOfEnumeration(t.agenda, more[i..], q);
      FiringProgresses(s, t, more[..i], now, key);
      LedFurther(run', events', t, fired + more[..i], OneShots.Fire(now, key), OneShots.Fired(t, now, key));
      assert fired + more[..i] + [more[i]] == fired + more[..i + 1] && more[..i] + [more[i]] == more[..i + 1];
      assert more[i..][1..] == more[i + 1..];
      FiredAgenda(t, now, key);
      run', events' := run' + [OneShots.Fired(t, now, key)], events' + [OneShots.Fire(now, key)];
      t := OneShots.Fired(t, now, key);
      i := i + 1;
    }
    assert more[..i] == more && more[i..] == [];
    NothingLeft(t.agenda, q);
  }

  lemma NothingProgresses<M, F>(s: OneShots.State<M, F>, now: nat)
    requires s.tickMs > 0 && s.startMs <= now
    ensures Progress(s, s, [], now)
  {
  }

  lemma NothingLeft<T>(a: Agenda<T>, q: nat)
    requires Enumerates(a, [], q)
    ensures a.Quiet(q)
  {
  }

  lemma SoundIsWellTimed<M, F>(s: OneShots.State<M, F>)
    requires OneShots.Sound(s)
    ensures s.agenda.WellTimed()
  {
  }

  lemma FiredAgenda<M, F>(s: OneShots.State<M, F>, now: nat, key: nat)
    requires key in s.agenda.live
    ensures OneShots.Fired(s, now, key).agenda == s.agenda.Fire(key)
  {
  }

  lemma PassingEnds<M, F>(s: OneShots.State<M, F>, t: OneShots.State<M, F>, fired: seq<Item<M>>, now: nat)
    requires OneShots.Sound(t) && Progress(s, t, fired, now)
    requires t.agenda.Quiet(MsToTick(s.startMs, s.tickMs, now))
    ensures var q := MsToTick(s.startMs, s.tickMs, now);
            var t' := t.(agenda := t.agenda.PassTo(q));
            && OneShots.Step(t, OneShots.Pass(q), t')
            && t'.agenda == Survivors(s.agenda, q) && t'.ledger == Takes(s.ledger, fired, now)
  {
    hide MsToTick;
    var q := MsToTick(s.startMs, s.tickMs, now);
    SoundIsWellTimed(t);
    assert t.agenda.live == Survivors(s.agenda, q).live;
  }

  /** The agenda and the requests determine what is pending. */
  lemma PendingIsDetermined<M, F>(a: Agenda<M>, timers: map<M, Pending<F>>, timers': map<M, Pending<F>>, l: Ledger<F>,
                                  startMs: nat, tickMs: nat)
    requires OneShot(a, timers, l, startMs, tickMs) && OneShot(a, timers', l, startMs, tickMs)
    ensures timers == timers'
  {
    assert timers.Keys == timers'.Keys by {
      forall m | m in timers
        ensures m in timers'
      {
        assert Backed(a, m, timers[m].timeout);
      }
      forall m | m in timers'
        ensures m in timers
      {
        assert Backed(a, m, timers'[m].timeout);
      }
    }
    forall m | m in timers
      ensures timers[m] == timers'[m]
    {
      assert Backed(a, m, timers[m].timeout) && Backed(a, m, timers'[m].timeout);
      var x := a.live[timers[m].timeout.key];
      assert Waiting(x, timers[m], l, startMs, tickMs) && Waiting(x, timers'[m], l, startMs, tickMs);
    }
  }

  /** A whole round of the dispatcher is a sequence of firings and then a step of the wheel. */
  lemma RoundIsRun<M, F>(run: seq<OneShots.State<M, F>>, events: seq<OneShots.Event<M, F>>, s: OneShots.State<M, F>,
                         fired: seq<Item<M>>, more: seq<Item<M>>, now: nat, s': OneShots.State<M, F>)
    returns (run': seq<OneShots.State<M, F>>, events': seq<OneShots.Event<M, F>>)
    requires LedTo(run, events, s, fired) && s.tickMs > 0 && s.startMs <= now
    requires Drained(s.agenda, s'.agenda, more, [], MsToTick(s.startMs, s.tickMs, now))
    requires s'.ledger == Takes(s.ledger, more, now) && s'.startMs == s.startMs && s'.tickMs == s.tickMs
    requires OneShots.Sound(s')
    ensures LedTo(run', events', s', fired + more) && run <= run' && events <= events' && events != events'
    ensures events'[|events'| - 1] == OneShots.Pass(MsToTick(s.startMs, s.tickMs, now))
    ensures forall j :: |events| <= j < |events'| - 1 ==> events'[j].Fire? && events'[j].now == now
  {
    hide LedTo, Drained, OneShots.Step, Enumerates, OneShot, MsToTick, Takes;
    var q := MsToTick(s.startMs, s.tickMs, now);
    DrainedEnumerates(s.agenda, s'.agenda, more, [], q);
    DrainedLeavesSurvivors(s.agenda, s'.agenda, more, q);
    var t;
    run', events', t := RoundFiresAll(run, events, s, fired, more, now);
    LedIsSound(run', events', t, fired + more);
    PassingEnds(s, t, more, now);
    var t' := t.(agenda := t.agenda.PassTo(q));
    LedFurther(run', events', t, fired + more, OneShots.Pass(q), t');
    run', events' := run' + [t'], events' + [OneShots.Pass(q)];
    assert fired + more + [] == fired + more;
    LedIsSound(run', events', t', fired + more);
    PendingIsDetermined(t'.agenda, t'.timers, s'.timers, t'.ledger, s.startMs, s.tickMs);
  }

  lemma AddSteps<M, F>(s: OneShots.State<M, F>, mark: M, key: nat, r: Request<F>, s': OneShots.State<M, F>)
    requires OneShots.Sound(s) && s.tickMs > 0 && s.startMs <= r.at && mark !in s.timers && key !in s.agenda.live
    requires s.agenda.slots > 0
    requires var target := TargetTick(s.startMs, s.tickMs, s.agenda.tick, r.at);
             && s'.agenda == s.agenda.Insert(key, mark, 0, target)
             && s'.timers == s.timers[mark := Pending(Timeout(key, target), r.token, r.callback)]
    requires s'.ledger == s.ledger.(requests := s.ledger.requests[s.agenda.stamps := r])
    requires s'.startMs == s.startMs && s'.tickMs == s.tickMs
    ensures OneShots.Step(s, OneShots.AddTimer(mark, key, r), s')
  {
  }

  lemma CancelSteps<M, F>(s: OneShots.State<M, F>, mark: M, s': OneShots.State<M, F>)
    requires OneShots.Sound(s) && s.tickMs > 0 && mark in s.timers && s.timers[mark].timeout.key in s.agenda.live
    requires s'.agenda == Cancelled(s.agenda, s.timers[mark].timeout) && s'.timers == s.timers - {mark}
    requires s'.ledger == Closed(s.ledger, s.agenda.live[s.timers[mark].timeout.key].stamp, None)
    requires s'.startMs == s.startMs && s'.tickMs == s.tickMs
    ensures OneShots.Step(s, OneShots.CancelTimer(mark), s')
  {
    SoundIsWellTimed(s);
  }

  /** The dispatcher has come here by a run, in which these items fired and these calls were made. */
  ghost predicate Followed<M, F>(eventLoop: EventLoop<M, F>, handle: Dispatcher<M, F>,
                                 run: seq<OneShots.State<M, F>>, events: seq<OneShots.Event<M, F>>,
                                 fired: seq<Item<M>>, calls: seq<Call<F>>)
    reads eventLoop.timer, eventLoop.timer.wheel, handle
  {
    && eventLoop.timer.Valid() && eventLoop.timer.tickMs > 0 && handle.OneShotWith(eventLoop)
    && LedTo(run, events, StateOf(eventLoop, handle), fired)
    && Recounted(handle.Desk(), handle.ledger, fired, calls)
  }

  /** From step `b` to step `e` of the run exactly this order is carried out: a request unless its mark is
      pending or the wheel is full, a cancellation if the mark is pending, and in a round firings at its time
      and then a step of the wheel. */
  ghost predicate Does<M, F>(run: seq<OneShots.State<M, F>>, events: seq<OneShots.Event<M, F>>, o: Order<M, F>,
                             capacity: nat, b: nat, e: nat) {
    && b <= e <= |events| && |run| == |events| + 1
    && var s := run[b];
    match o
    case Add(token, delay, mark, callback, now) =>
      if s.startMs <= now && mark !in s.timers && |s.agenda.live| < capacity then
        && e == b + 1 && events[b].AddTimer? && events[b].mark == mark
        && events[b].request == Request(token, callback, now + delay)
      else e == b
    case Cancel(mark) => if mark in s.timers then e == b + 1 && events[b] == OneShots.CancelTimer(mark) else e == b
    case Round(at) =>
      if s.tickMs > 0 && s.startMs <= at then
        && b < e && events[e - 1] == OneShots.Pass(MsToTick(s.startMs, s.tickMs, at))
        && forall i :: b <= i < e - 1 ==> events[i].Fire? && events[i].now == at
      else e == b
  }

  /** These orders were carried out one after the other; order `k` took the steps from `at[k]` on. */
  ghost predicate AllDone<M, F>(run: seq<OneShots.State<M, F>>, events: seq<OneShots.Event<M, F>>,
                                orders: seq<Order<M, F>>, capacity: nat, at: seq<nat>) {
    && |at| == |orders| + 1 && at[0] == 0 && at[|orders|] == |events|
    && forall k :: 0 <= k < |orders| ==> Does(run, events, orders[k], capacity, at[k], at[k + 1])
  }

  lemma NothingDone<M, F>(run: seq<OneShots.State<M, F>>, capacity: nat)
    ensures AllDone(run, [], [], capacity, [0])
  {
  }

  lemma OneMoreDone<M, F>(run: seq<OneShots.State<M, F>>, events: seq<OneShots.Event<M, F>>, orders: seq<Order<M, F>>,
                          capacity: nat, at: seq<nat>, run': seq<OneShots.State<M, F>>,
                          events': seq<OneShots.Event<M, F>>, o: Order<M, F>)
    requires AllDone(run, events, orders, capacity, at) && run <= run' && events <= events'
    requires |run| == |events| + 1 && |run'| == |events'| + 1
    requires Does(run', events', o, capacity, |events|, |events'|)
    ensures AllDone(run', events', orders + [o], capacity, at + [|events'|])
  {
    var orders', at' := orders + [o], at + [|events'|];
    forall k | 0 <= k < |orders'|
      ensures Does(run', events', orders'[k], capacity, at'[k], at'[k + 1])
    {
      if k < |orders| {
        assert Does(run, events, orders[k], capacity, at[k], at[k + 1]);
      }
    }
  }

  lemma LedHere<M, F>(run: seq<OneShots.State<M, F>>, events: seq<OneShots.Event<M, F>>,
                      s: OneShots.State<M, F>, fired: seq<Item<M>>)
    requires LedTo(run, events, s, fired)
    ensures |run| == |events| + 1 && run[|events|] == s
  {
  }

  method AddFollowed<M, F>(eventLoop: EventLoop<M, F>, handle: Dispatcher<M, F>, token: nat, delay: nat, mark: M,
                           callback: F, now: nat, ghost run: seq<OneShots.State<M, F>>,
                           ghost events: seq<OneShots.Event<M, F>>, ghost fired: seq<Item<M>>,
                           ghost calls: seq<Call<F>>)
    returns (ghost run': seq<OneShots.State<M, F>>, ghost events': seq<OneShots.Event<M, F>>)
    requires Followed(eventLoop, handle, run, events, fired, calls)
    requires eventLoop.timer.startMs <= now && mark !in handle.timers
    modifies handle`timers, handle`ledger, eventLoop.timer, eventLoop.timer.wheel
    ensures Followed(eventLoop, handle, run', events', fired, calls) && run <= run' && events <= events'
    ensures eventLoop.timer.startMs == old(eventLoop.timer.startMs)
    ensures |run'| == |events'| + 1 && Does(run', events', Order.Add(token, delay, mark, callback, now),
                                           eventLoop.timer.capacity, |events|, |events'|)
  {
    hide Consistent, LedTo, OneShot, OneShots.Step, Recounted, TargetTick;
    LedHere(run, events, StateOf(eventLoop, handle), fired);
    ghost var s, d := StateOf(eventLoop, handle), handle.Desk();
    run', events' := run, events;
    LedIsSound(run, events, s, fired);
    SoundIsWellTimed(s);
    var ok := handle.AddTimer(token, delay, mark, callback, now, eventLoop);
    if ok {
      ghost var r, s' := Request(token, callback, now + delay), StateOf(eventLoop, handle);
      ghost var e := OneShots.AddTimer(mark, handle.timers[mark].timeout.key, r);
      AddSteps(s, mark, e.key, r, s');
      LedFurther(run, events, s, fired, e, s');
      RecountedWhenAsked(d, handle.Desk(), s.agenda, s.ledger, s.startMs, s.tickMs, fired, calls, r);
      run', events' := run + [s'], events + [e];
      assert fired + [] == fired;
    }
  }

  method CancelFollowed<M, F>(eventLoop: EventLoop<M, F>, handle: Dispatcher<M, F>, mark: M,
                              ghost run: seq<OneShots.State<M, F>>, ghost events: seq<OneShots.Event<M, F>>,
                              ghost fired: seq<Item<M>>, ghost calls: seq<Call<F>>)
    returns (ghost run': seq<OneShots.State<M, F>>, ghost events': seq<OneShots.Event<M, F>>)
    requires Followed(eventLoop, handle, run, events, fired, calls)
    modifies handle`timers, handle`timers2, handle`ledger, eventLoop.timer, eventLoop.timer.wheel
    ensures Followed(eventLoop, handle, run', events', fired, calls) && run <= run' && events <= events'
    ensures eventLoop.timer.startMs == old(eventLoop.timer.startMs)
    ensures |run'| == |events'| + 1
    ensures Does(run', events', Order.Cancel(mark), eventLoop.timer.capacity, |events|, |events'|)
  {
    hide Consistent, LedTo, OneShot, OneShots.Step, Cancelled;
    LedHere(run, events, StateOf(eventLoop, handle), fired);
    ghost var s := StateOf(eventLoop, handle);
    ghost var pending := mark in handle.timers;
    run', events' := run, events;
    LedIsSound(run, events, s, fired);
    handle.CancelTimer(mark, eventLoop);
    if pending {
      ghost var s' := StateOf(eventLoop, handle);
      CancelIs(s, mark, s'.agenda);
      CancelSteps(s, mark, s');
      LedFurther(run, events, s, fired, OneShots.CancelTimer(mark), s');
      run', events' := run + [s'], events + [OneShots.CancelTimer(mark)];
      assert fired + [] == fired;
    } else {
      assert handle.timers == s.timers;
    }
  }

  method RoundFollowed<M, F>(eventLoop: EventLoop<M, F>, handle: Dispatcher<M, F>, now: nat,
                             ghost run: seq<OneShots.State<M, F>>, ghost events: seq<OneShots.Event<M, F>>,
                             ghost fired: seq<Item<M>>, ghost calls: seq<Call<F>>)
    returns (ghost run': seq<OneShots.State<M, F>>, ghost events': seq<OneShots.Event<M, F>>,
             ghost fired': seq<Item<M>>)
    requires Followed(eventLoop, handle, run, events, fired, calls) && eventLoop.timer.startMs <= now
    modifies handle`timers, handle`timers2, handle`calls, handle`ledger, eventLoop.timer, eventLoop.timer.wheel
    ensures Followed(eventLoop, handle, run', events', fired', calls) && run <= run' && events <= events'
    ensures eventLoop.timer.startMs == old(eventLoop.timer.startMs)
    ensures |run'| == |events'| + 1
    ensures Does(run', events', Round(now), eventLoop.timer.capacity, |events|, |events'|)
  {
    hide Consistent, LedTo, OneShot, OneShots.Step, Recounted, Drained, Delivered, MsToTick, Takes;
    LedHere(run, events, StateOf(eventLoop, handle), fired);
    ghost var s, d := StateOf(eventLoop, handle), handle.Desk();
    var clock: nat -> nat := _ => now;
    ghost var more, backs := [], [];
    more, backs := eventLoop.ProcessTimers(handle, clock);
    ghost var s' := StateOf(eventLoop, handle);
    run', events' := RoundIsRun(run, events, s, fired, more, now, s');
    LedHere(run', events', s', fired + more);
    fired' := fired + more;
    RecountedAfterRound(d, handle.Desk(), s.agenda, s'.agenda, s.ledger, s.startMs, s.tickMs, fired, more, backs,
                        calls, MsToTick(s.startMs, s.tickMs, now), now);
  }

  /** Carries out one order, or passes it over. */
  method Carry<M, F>(eventLoop: EventLoop<M, F>, handle: Dispatcher<M, F>, o: Order<M, F>,
                     ghost run: seq<OneShots.State<M, F>>, ghost events: seq<OneShots.Event<M, F>>,
                     ghost fired: seq<Item<M>>, ghost calls: seq<Call<F>>)
    returns (ghost run': seq<OneShots.State<M, F>>, ghost events': seq<OneShots.Event<M, F>>,
             ghost fired': seq<Item<M>>)
    requires Followed(eventLoop, handle, run, events, fired, calls)
    modifies handle`timers, handle`timers2, handle`calls, handle`ledger, eventLoop.timer, eventLoop.timer.wheel
    ensures Followed(eventLoop, handle, run', events', fired', calls) && run <= run' && events <= events'
    ensures |run| == |events| + 1 && |run'| == |events'| + 1
    ensures Does(run', events', o, eventLoop.timer.capacity, |events|, |events'|)
  {
    hide Consistent, LedTo, OneShot, OneShots.Step, Recounted;
    LedHere(run, events, StateOf(eventLoop, handle), fired);
    run', events', fired' := run, events, fired;
    match o {
      case Add(token, delay, mark, callback, now) =>
        if eventLoop.timer.startMs <= now && mark !in handle.timers {
          run', events' := AddFollowed(eventLoop, handle, token, delay, mark, callback, now, run, events, fired, calls);
        }
      case Cancel(mark) => run', events' := CancelFollowed(eventLoop, handle, mark, run, events, fired, calls);
      case Round(now) =>
        if eventLoop.timer.startMs <= now {
          run', events', fired' := RoundFollowed(eventLoop, handle, now, run, events, fired, calls);
        }
    }
  }

  /** Carries out any sequence of orders on a dispatcher that has taken nothing out yet, one after the other.
      An order for a time before the wheel started, for a mark that is pending, or on a full wheel is passed
      over. What happens is a run of `OneShots` in which every other order takes its steps; the callbacks that
      were run are those asked for with the items that fired in it, in this order, where the connection is
      open, and no item fired twice. */
  method Follow<M, F>(eventLoop: EventLoop<M, F>, handle: Dispatcher<M, F>, orders: seq<Order<M, F>>)
    returns (ghost run: seq<OneShots.State<M, F>>, ghost events: seq<OneShots.Event<M, F>>, ghost at: seq<nat>)
    requires eventLoop.timer.Valid() && eventLoop.timer.tickMs > 0 && handle.OneShotWith(eventLoop)
    requires handle.ledger.taken == map[]
    modifies handle`timers, handle`timers2, handle`calls, handle`ledger, eventLoop.timer, eventLoop.timer.wheel
    ensures OneShots.IsRun(run, events)
    ensures run[0] == old(StateOf(eventLoop, handle)) && run[|events|] == StateOf(eventLoop, handle)
    ensures AllDone(run, events, orders, eventLoop.timer.capacity, at)
    ensures Distinct(FiredIn(run, events)) && Stamps(FiredIn(run, events)) == handle.ledger.taken.Keys
    ensures handle.calls ==
              old(handle.calls) + CallsFor(handle.ledger.requests, handle.Present(), FiredIn(run, events))
  {
    hide Consistent, LedTo, OneShot, Followed, OneShots.Step, Recounted, Does, AllDone;
    ghost var calls, s := handle.calls, StateOf(eventLoop, handle);
    ghost var fired: seq<Item<M>> := [];
    run, events, at := [s], [], [0];
    Begins(eventLoop, handle);
    NothingDone(run, eventLoop.timer.capacity);
    for i := 0 to |orders|
      invariant Followed(eventLoop, handle, run, events, fired, calls) && [s] <= run
      invariant AllDone(run, events, orders[..i], eventLoop.timer.capacity, at)
    {
      ghost var run', events';
      run', events', fired := Carry(eventLoop, handle, orders[i], run, events, fired, calls);
      OneMoreDone(run, events, orders[..i], eventLoop.timer.capacity, at, run', events', orders[i]);
      assert orders[..i] + [orders[i]] == orders[..i + 1];
      run, events, at := run', events', at + [|events'|];
    }
    assert orders[..|orders|] == orders;
    FollowedMeans(eventLoop, handle, run, events, fired, calls);
  }

  lemma CancelIs<M, F>(s: OneShots.State<M, F>, mark: M, a: Agenda<M>)
    requires OneShots.Sound(s) && mark in s.timers && a == Cancelled(s.agenda, s.timers[mark].timeout)
    ensures s.timers[mark].timeout.key in s.agenda.live
  {
    PendingMatches(s.agenda, s.timers, s.ledger, s.startMs, s.tickMs, mark);
  }

  lemma Begins<M, F>(eventLoop: EventLoop<M, F>, handle: Dispatcher<M, F>)
    requires eventLoop.timer.Valid() && eventLoop.timer.tickMs > 0 && handle.OneShotWith(eventLoop)
    requires handle.ledger.taken == map[]
    ensures Followed(eventLoop, handle, [StateOf(eventLoop, handle)], [], [], handle.calls)
  {
    hide Consistent, OneShot;
    LedBegins(StateOf(eventLoop, handle));
  }

  lemma FollowedMeans<M, F>(eventLoop: EventLoop<M, F>, handle: Dispatcher<M, F>,
                            run: seq<OneShots.State<M, F>>, events: seq<OneShots.Event<M, F>>,
                            fired: seq<Item<M>>, calls: seq<Call<F>>)
    requires Followed(eventLoop, handle, run, events, fired, calls)
    ensures OneShots.IsRun(run, events) && run[|events|] == StateOf(eventLoop, handle)
    ensures Distinct(FiredIn(run, events)) && Stamps(FiredIn(run, events)) == handle.ledger.taken.Keys
    ensures handle.calls == calls + CallsFor(handle.ledger.requests, handle.Present(), FiredIn(run, events))
  {
    hide Consistent, OneShot, OneShots.Step;
  }
}
