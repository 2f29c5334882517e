/** The callbacks that wait for a timer, and how they agree with the wheel. */
module Desks {
  import opened Ticks
  import opened Agendas
  import opened Drains

  datatype Pending<F> = Pending(timeout: Timeout, token: nat, callback: F)

  datatype Call<F> = Call(token: nat, callback: F)

  /** One-shot callbacks, repeating callbacks, and the callbacks that were run. `present` holds the
      tokens of the open connections; a callback of another connection is dropped. */
  datatype Desk<M, F> = Desk(present: set<nat>, timers: map<M, Pending<F>>, timers2: map<M, Pending<F>>,
                             calls: seq<Call<F>>)
  {
    function WithConnection(p: Pending<F>): Desk<M, F> {
      if p.token in present then this.(calls := calls + [Call(p.token, p.callback)]) else this
    }

    /** A one-shot timer takes its callback out; a repeating one leaves it in. */
    function Timeout(mark: M, repeat: bool): Desk<M, F> {
      if !repeat then
        if mark in timers then this.(timers := timers - {mark}).WithConnection(timers[mark]) else this
      else
        if mark in timers2 then WithConnection(timers2[mark]) else this
    }

    function Refresh(mark: M, h: Timeout): Desk<M, F> {
      if mark in timers then this.(timers := timers[mark := timers[mark].(timeout := h)]) else this
    }
  }

  /** The desk after a round that fired these items, where the repeating ones got these new handles. */
  function Delivered<M, F>(d: Desk<M, F>, fired: seq<Item<M>>, handles: seq<Timeout>): Desk<M, F>
  {
    if fired == [] then d
    else
      var n, x := |fired| - 1, fired[|fired| - 1];
      if x.interval > 0 && handles != [] then
        var m := |handles| - 1;
        Delivered(d, fired[..n], handles[..m]).Refresh(x.token, handles[m]).Timeout(x.token, true)
      else
        Delivered(d, fired[..n], handles).Timeout(x.token, false)
  }

  lemma DeliveredGrows<M, F>(d: Desk<M, F>, fired: seq<Item<M>>, handles: seq<Timeout>, x: Item<M>, h: Timeout)
    ensures x.interval == 0 ==>
              && Repeats(fired + [x]) == Repeats(fired)
              && Delivered(d, fired + [x], handles) == Delivered(d, fired, handles).Timeout(x.token, false)
    ensures x.interval > 0 ==>
              && Repeats(fired + [x]) == Repeats(fired) + [x]
              && Delivered(d, fired + [x], handles + [h]) ==
                   Delivered(d, fired, handles).Refresh(x.token, h).Timeout(x.token, true)
  {
    RepeatsGrow(fired, x);
    assert (fired + [x])[..|fired|] == fired;
    assert (handles + [h])[..|handles|] == handles;
  }

  /** One of these items was a one-shot timer for this mark. */
  predicate TookOut<M(==)>(fired: seq<Item<M>>, mark: M) {
    exists i :: 0 <= i < |fired| && fired[i].interval == 0 && fired[i].token == mark
  }

  /** The calls that a round makes when it fires these items: a repeating item runs the repeating callback
      of its mark, every time; any other runs the one-shot callback of its mark, the first time. Either is
      dropped without a callback or without its connection. */
  function CallsOf<M, F>(d: Desk<M, F>, fired: seq<Item<M>>): seq<Call<F>> {
    if fired == [] then []
    else
      var n, x := |fired| - 1, fired[|fired| - 1];
      CallsOf(d, fired[..n])
      + if x.interval > 0 then
          if x.token in d.timers2 && d.timers2[x.token].token in d.present
          then [Call(d.timers2[x.token].token, d.timers2[x.token].callback)] else []
        else
          if x.token in d.timers && !TookOut(fired[..n], x.token) && d.timers[x.token].token in d.present
          then [Call(d.timers[x.token].token, d.timers[x.token].callback)] else []
  }

  lemma TookOutGrows<M>(fired: seq<Item<M>>, x: Item<M>, mark: M)
    ensures TookOut(fired + [x], mark) <==> TookOut(fired, mark) || (x.interval == 0 && x.token == mark)
  {
    var more := fired + [x];
    if TookOut(fired, mark) {
      var i :| 0 <= i < |fired| && fired[i].interval == 0 && fired[i].token == mark;
      assert more[i] == fired[i];
    }
    assert more[|fired|] == x;
  }

  /** What a round does to the desk: it makes exactly these calls, takes out the one-shot callbacks of the
      marks that fired, and leaves all others and all repeating ones in. */
  ghost predicate Ran<M, F>(d: Desk<M, F>, d': Desk<M, F>, fired: seq<Item<M>>) {
    && d'.calls == d.calls + CallsOf(d, fired)
    && d'.timers2 == d.timers2 && d'.present == d.present
    && d'.timers.Keys <= d.timers.Keys
    && (forall m :: m in d.timers ==> (m in d'.timers <==> !TookOut(fired, m)))
    && (forall m :: m in d'.timers ==>
          d'.timers[m].token == d.timers[m].token && d'.timers[m].callback == d.timers[m].callback)
  }

  lemma CallsOfGrow<M, F>(d: Desk<M, F>, fired: seq<Item<M>>, x: Item<M>)
    ensures CallsOf(d, fired + [x]) ==
              CallsOf(d, fired)
              + if x.interval > 0 then
                  if x.token in d.timers2 && d.timers2[x.token].token in d.present
                  then [Call(d.timers2[x.token].token, d.timers2[x.token].callback)] else []
                else
                  if x.token in d.timers && !TookOut(fired, x.token) && d.timers[x.token].token in d.present
                  then [Call(d.timers[x.token].token, d.timers[x.token].callback)] else []
  {
    assert (fired + [x])[..|fired|] == fired;
  }

  lemma OneMoreRuns<M, F>(d: Desk<M, F>, d1: Desk<M, F>, fired: seq<Item<M>>, x: Item<M>, h: Timeout)
    requires Ran(d, d1, fired)
    ensures x.interval > 0 ==> Ran(d, d1.Refresh(x.token, h).Timeout(x.token, true), fired + [x])
    ensures x.interval == 0 ==> Ran(d, d1.Timeout(x.token, false), fired + [x])
  {
    hide CallsOf, TookOut;
    CallsOfGrow(d, fired, x);
    forall m
      ensures TookOut(fired + [x], m) <==> TookOut(fired, m) || (x.interval == 0 && x.token == m)
    {
      TookOutGrows(fired, x, m);
    }
  }

  lemma {:induction false} DeliveredRuns<M, F>(d: Desk<M, F>, fired: seq<Item<M>>, handles: seq<Timeout>)
    requires |handles| == |Repeats(fired)|
    ensures Ran(d, Delivered(d, fired, handles), fired)
  {
    hide Ran;
    if fired == [] {
      NothingRan(d);
    } else {
      var n := |fired| - 1;
      var x, h := fired[n], if handles == [] then Timeout(0, 0) else handles[|handles| - 1];
      assert fired == fired[..n] + [x];
      RepeatsGrow(fired[..n], x);
      var before := if x.interval > 0 then handles[..|handles| - 1] else handles;
      DeliveredRuns(d, fired[..n], before);
      OneMoreRuns(d, Delivered(d, fired[..n], before), fired[..n], x, h);
    }
  }

  lemma NothingRan<M, F>(d: Desk<M, F>)
    ensures Ran(d, d, [])
  {
  }

  /** The pending one-shot callbacks and the live items of the wheel are in one-to-one correspondence. */
  ghost predicate OneToOne<M, F>(a: Agenda<M>, timers: map<M, Pending<F>>) {
    && (forall m :: m in timers ==> Backed(a, m, timers[m].timeout))
    && (forall k :: k in a.live ==> a.live[k].token in timers && timers[a.live[k].token].timeout.key == k)
  }

  ghost predicate Backed<M>(a: Agenda<M>, mark: M, h: Timeout) {
    h.key in a.live && a.live[h.key].token == mark && a.live[h.key].target == h.tick && a.live[h.key].interval == 0
  }

  /** What was asked for with a one-shot timer. */
  datatype Request<F> = Request(token: nat, callback: F, at: nat)

  /** All requests by insertion stamp, the time at which each was taken out, and those cancelled. */
  datatype Ledger<F> = Ledger(requests: map<nat, Request<F>>, taken: map<nat, nat>, cancelled: set<nat>)

  /** Every request is still waiting, was taken, or was cancelled, and only one of these. A waiting
      request has its own callback at the desk. None was taken before its time. */
  ghost predicate Settled<M, F>(a: Agenda<M>, timers: map<M, Pending<F>>, l: Ledger<F>, startMs: nat, tickMs: nat)
    requires OneToOne(a, timers)
  {
    && (forall k :: k in a.live ==> Waiting(a.live[k], timers[a.live[k].token], l, startMs, tickMs))
    && (forall s :: s in l.requests ==> s < a.stamps)
    && (forall s :: s in l.requests && s !in l.taken && s !in l.cancelled ==>
          exists k :: k in a.live && a.live[k].stamp == s)
    && (forall s :: s in l.taken ==> s in l.requests && s !in l.cancelled && l.requests[s].at <= l.taken[s])
    && l.cancelled <= l.requests.Keys
  }

  ghost predicate Waiting<M, F>(x: Item<M>, p: Pending<F>, l: Ledger<F>, startMs: nat, tickMs: nat) {
    && x.stamp in l.requests && x.stamp !in l.taken && x.stamp !in l.cancelled
    && l.requests[x.stamp].token == p.token && l.requests[x.stamp].callback == p.callback
    && l.requests[x.stamp].at <= TickStart(startMs, tickMs, x.target)
  }

  /** One-shot timers only, on a wheel that started at `startMs`. */
  ghost predicate OneShot<M, F>(a: Agenda<M>, timers: map<M, Pending<F>>, l: Ledger<F>, startMs: nat, tickMs: nat) {
    a.WellTimed() && OneToOne(a, timers) && Settled(a, timers, l, startMs, tickMs)
  }

  /** The correspondence survives a new timer exactly when its mark was not pending. */
  lemma AddKeepsOneToOne<M, F>(a: Agenda<M>, timers: map<M, Pending<F>>, mark: M, key: nat, target: nat, token: nat,
                               callback: F)
    requires a.slots > 0 && OneToOne(a, timers) && key !in a.live
    ensures OneToOne(a.Insert(key, mark, 0, target), timers[mark := Pending(Timeout(key, target), token, callback)])
            <==> mark !in timers
  {
    var a', timers' := a.Insert(key, mark, 0, target), timers[mark := Pending(Timeout(key, target), token, callback)];
    if mark in timers {
      assert Backed(a, mark, timers[mark].timeout);
      var k := timers[mark].timeout.key;
      assert k in a'.live && timers'[a'.live[k].token].timeout.key == key;
    } else {
      forall m | m in timers'
        ensures Backed(a', m, timers'[m].timeout)
      {
        assert m != mark ==> Backed(a, m, timers[m].timeout);
      }
    }
  }

  lemma AddOneShot<M, F>(a: Agenda<M>, timers: map<M, Pending<F>>, l: Ledger<F>, startMs: nat, tickMs: nat,
                         mark: M, key: nat, target: nat, r: Request<F>)
    requires OneShot(a, timers, l, startMs, tickMs) && key !in a.live && mark !in timers
    requires r.at <= TickStart(startMs, tickMs, target)
    ensures OneShot(a.Insert(key, mark, 0, target),
                    timers[mark := Pending(Timeout(key, target), r.token, r.callback)],
                    l.(requests := l.requests[a.stamps := r]), startMs, tickMs)
  {
    AddKeepsOneToOne(a, timers, mark, key, target, r.token, r.callback);
    InsertIsWellTimed(a, key, mark, 0, target);
    var a' := a.Insert(key, mark, 0, target);
    var timers' := timers[mark := Pending(Timeout(key, target), r.token, r.callback)];
    var l' := l.(requests := l.requests[a.stamps := r]);
    forall k | k in a'.live
      ensures Waiting(a'.live[k], timers'[a'.live[k].token], l', startMs, tickMs)
    {
      assert a.stamps !in l.requests && a.stamps !in l.taken && a.stamps !in l.cancelled;
      if k != key {
        assert Waiting(a.live[k], timers[a.live[k].token], l, startMs, tickMs);
      }
    }
    forall s | s in l'.requests && s !in l'.taken && s !in l'.cancelled
      ensures exists k :: k in a'.live && a'.live[k].stamp == s
    {
      if s == a.stamps {
        assert a'.live[key].stamp == s;
      } else {
        var k :| k in a.live && a.live[k].stamp == s;
        assert a'.live[k].stamp == s;
      }
    }
  }

  lemma DropKeepsOneToOne<M, F>(a: Agenda<M>, timers: map<M, Pending<F>>, key: nat)
    requires OneToOne(a, timers) && key in a.live
    ensures a.live[key].token in timers && timers[a.live[key].token].timeout == Timeout(key, a.live[key].target)
    ensures OneToOne(a.Drop(key), timers - {a.live[key].token})
  {
    forall m | m in timers
      ensures Backed(a, m, timers[m].timeout)
    {
    }
  }

  /** The request with this stamp was taken at some time, or else cancelled. */
  function Closed<F>(l: Ledger<F>, stamp: nat, when: Option<nat>): Ledger<F> {
    match when
    case Some(now) => l.(taken := l.taken[stamp := now])
    case None => l.(cancelled := l.cancelled + {stamp})
  }

  /** A pending callback leaves with its item, because its time has come or because it is cancelled. */
  lemma LeaveOneShot<M, F>(a: Agenda<M>, timers: map<M, Pending<F>>, l: Ledger<F>, startMs: nat, tickMs: nat,
                           key: nat, when: Option<nat>)
    requires OneShot(a, timers, l, startMs, tickMs) && key in a.live
    requires when.Some? ==> TickStart(startMs, tickMs, a.live[key].target) <= when.value
    ensures a.live[key].token in timers && timers[a.live[key].token].timeout == Timeout(key, a.live[key].target)
    ensures a.live[key].stamp in l.requests && a.live[key].stamp !in l.taken && a.live[key].stamp !in l.cancelled
    ensures OneShot(a.Drop(key), timers - {a.live[key].token}, Closed(l, a.live[key].stamp, when), startMs, tickMs)
  {
    var l' := Closed(l, a.live[key].stamp, when);
    var s, mark, a' := a.live[key].stamp, a.live[key].token, a.Drop(key);
    var timers' := timers - {mark};
    DropKeepsOneToOne(a, timers, key);
    StepsAreWellTimed(a, 0, key);
    assert Waiting(a.live[key], timers[mark], l, startMs, tickMs);
    forall k | k in a'.live
      ensures Waiting(a'.live[k], timers'[a'.live[k].token], l', startMs, tickMs)
    {
      assert Waiting(a.live[k], timers[a.live[k].token], l, startMs, tickMs);
      assert a.live[k].stamp != s;
    }
    forall t | t in l'.requests && t !in l'.taken && t !in l'.cancelled
      ensures exists k :: k in a'.live && a'.live[k].stamp == t
    {
      var k :| k in a.live && a.live[k].stamp == t;
      assert a'.live[k].stamp == t;
    }
  }

  /** All these items were taken at time `now`. */
  function Takes<M, F>(l: Ledger<F>, fired: seq<Item<M>>, now: nat): Ledger<F> {
    if fired == [] then l else Closed(Takes(l, fired[..|fired| - 1], now), fired[|fired| - 1].stamp, Some(now))
  }

  lemma TakesGrow<M, F>(l: Ledger<F>, fired: seq<Item<M>>, x: Item<M>, now: nat)
    ensures Takes(l, fired + [x], now) == Closed(Takes(l, fired, now), x.stamp, Some(now))
  {
    assert (fired + [x])[..|fired|] == fired;
  }

  /** The callbacks that were asked for with these items, for connections that are open. */
  function CallsFor<M, F>(requests: map<nat, Request<F>>, present: set<nat>, fired: seq<Item<M>>): seq<Call<F>> {
    if fired == [] then []
    else
      var n := |fired| - 1;
      var s := fired[n].stamp;
      CallsFor(requests, present, fired[..n])
      + if s in requests && requests[s].token in present then [Call(requests[s].token, requests[s].callback)] else []
  }

  lemma CallsGrow<M, F>(requests: map<nat, Request<F>>, present: set<nat>, fired: seq<Item<M>>, x: Item<M>)
    ensures CallsFor(requests, present, fired + [x]) == CallsFor(requests, present, fired)
              + if x.stamp in requests && requests[x.stamp].token in present
                then [Call(requests[x.stamp].token, requests[x.stamp].callback)] else []
  {
    assert (fired + [x])[..|fired|] == fired;
  }

  /** Moving the wheel leaves the correspondence alone. */
  lemma OneShotWhenMoved<M, F>(a: Agenda<M>, a': Agenda<M>, timers: map<M, Pending<F>>, l: Ledger<F>, startMs: nat,
                               tickMs: nat)
    requires OneShot(a, timers, l, startMs, tickMs)
    requires a'.live == a.live && a'.stamps == a.stamps && a'.WellTimed()
    ensures OneShot(a', timers, l, startMs, tickMs)
  {
    forall m | m in timers
      ensures Backed(a', m, timers[m].timeout)
    {
      assert Backed(a, m, timers[m].timeout);
    }
    forall s | s in l.requests && s !in l.taken && s !in l.cancelled
      ensures exists k :: k in a'.live && a'.live[k].stamp == s
    {
      var k :| k in a.live && a.live[k].stamp == s;
      assert a'.live[k].stamp == s;
    }
  }

  /** The first due item of a round that reads the clock at `now` takes its callback out. */
  lemma FireOneShot<M, F>(a: Agenda<M>, timers: map<M, Pending<F>>, l: Ledger<F>, startMs: nat, tickMs: nat,
                          key: nat, now: nat)
    requires tickMs > 0 && startMs <= now
    requires OneShot(a, timers, l, startMs, tickMs) && a.First(MsToTick(startMs, tickMs, now), key)
    ensures a.live[key].interval == 0 && a.live[key].token in timers && a.live[key].stamp in l.requests
    ensures timers[a.live[key].token].callback == l.requests[a.live[key].stamp].callback
    ensures timers[a.live[key].token].token == l.requests[a.live[key].stamp].token
    ensures OneShot(a.Fire(key), timers - {a.live[key].token}, Closed(l, a.live[key].stamp, Some(now)), startMs, tickMs)
  {
    TickHasBegun(startMs, tickMs, now, a.live[key].target);
    assert Backed(a, a.live[key].token, timers[a.live[key].token].timeout);
    assert Waiting(a.live[key], timers[a.live[key].token], l, startMs, tickMs);
    LeaveOneShot(a, timers, l, startMs, tickMs, key, Some(now));
    StepsAreWellTimed(a, MsToTick(startMs, tickMs, now), key);
    OneShotWhenMoved(a.Drop(key), a.Fire(key), timers - {a.live[key].token},
                     Closed(l, a.live[key].stamp, Some(now)), startMs, tickMs);
  }

  /** Where a round of timer processing starts: the state, and the time at which it reads the clock. */
  datatype Start<M, F> = Start(agenda: Agenda<M>, desk: Desk<M, F>, ledger: Ledger<F>,
                               startMs: nat, tickMs: nat, now: nat)
  {
    ghost predicate Valid() {
      tickMs > 0 && startMs <= now
    }

    function NowTick(): nat
      requires Valid()
    {
      MsToTick(startMs, tickMs, now)
    }

    ghost predicate IsOneShot(a: Agenda<M>, d: Desk<M, F>, l: Ledger<F>) {
      d.timers2 == map[] && OneShot(a, d.timers, l, startMs, tickMs)
    }
  }

  /** The round has fired these items so far. If it started with one-shot timers only, it still has no
      others, and each firing took its own callback out and ran it if the connection was open. */
  ghost predicate Round<M, F>(s: Start<M, F>, a: Agenda<M>, d: Desk<M, F>, l: Ledger<F>,
                              fired: seq<Item<M>>, backs: seq<Timeout>)
    requires s.Valid()
  {
    && Draining(s.agenda, a, fired, Repeats(fired), backs, s.NowTick())
    && d == Delivered(s.desk, fired, backs)
    && (s.IsOneShot(s.agenda, s.desk, s.ledger) ==>
          && s.IsOneShot(a, d, l) && backs == []
          && l == Takes(s.ledger, fired, s.now) && l.requests == s.ledger.requests
          && d.present == s.desk.present
          && d.calls == s.desk.calls + CallsFor(s.ledger.requests, s.desk.present, fired))
  }

  lemma RoundBegins<M, F>(s: Start<M, F>)
    requires s.Valid() && s.agenda.WellTimed()
    ensures Round(s, s.agenda, s.desk, s.ledger, [], [])
  {
  }

  lemma RoundFires<M, F>(s: Start<M, F>, a: Agenda<M>, d: Desk<M, F>, l: Ledger<F>,
                         fired: seq<Item<M>>, backs: seq<Timeout>, key: nat)
    requires s.Valid() && Round(s, a, d, l, fired, backs)
    requires a.First(s.NowTick(), key) && a.live[key].interval == 0
    ensures var x := a.live[key];
            Round(s, a.Fire(key), d.Timeout(x.token, false),
                  if x.token in d.timers then Closed(l, x.stamp, Some(s.now)) else l, fired + [x], backs)
  {
    hide Draining, OneShot;
    var x := a.live[key];
    DrainFires(s.agenda, a, fired, Repeats(fired), backs, s.NowTick(), key);
    DeliveredGrows(s.desk, fired, backs, x, Timeout(0, 0));
    TakesGrow(s.ledger, fired, x, s.now);
    CallsGrow(s.ledger.requests, s.desk.present, fired, x);
    if s.IsOneShot(s.agenda, s.desk, s.ledger) {
      FireOneShot(a, d.timers, l, s.startMs, s.tickMs, key, s.now);
    }
  }

  lemma RoundRepeats<M, F>(s: Start<M, F>, a: Agenda<M>, d: Desk<M, F>, l: Ledger<F>,
                           fired: seq<Item<M>>, backs: seq<Timeout>, key: nat, h: Timeout)
    requires s.Valid() && Round(s, a, d, l, fired, backs)
    requires a.First(s.NowTick(), key) && a.live[key].interval > 0
    requires a.slots > 0 && h.key !in a.Fire(key).live && s.NowTick() < h.tick
    ensures var x := a.live[key];
            Round(s, a.Fire(key).Insert(h.key, x.token, 0, h.tick), d.Refresh(x.token, h).Timeout(x.token, true), l,
                  fired + [x], backs + [h])
    ensures var x, d' := a.live[key], d.Refresh(a.live[key].token, h).Timeout(a.live[key].token, true);
            && d'.timers2 == d.timers2
            && d'.calls == d.calls + if x.token in d.timers2 && d.timers2[x.token].token in d.present
                                     then [Call(d.timers2[x.token].token, d.timers2[x.token].callback)] else []
  {
    hide Draining, OneShot;
    var x := a.live[key];
    DrainFires(s.agenda, a, fired, Repeats(fired), backs, s.NowTick(), key);
    DrainRepeats(s.agenda, a.Fire(key), fired + [x], Repeats(fired), backs, s.NowTick(), x, h.key, h.tick);
    DeliveredGrows(s.desk, fired, backs, x, h);
    if s.IsOneShot(s.agenda, s.desk, s.ledger) {
      FireOneShot(a, d.timers, l, s.startMs, s.tickMs, key, s.now);
    }
  }

  lemma RoundEnds<M, F>(s: Start<M, F>, a: Agenda<M>, d: Desk<M, F>, l: Ledger<F>,
                        fired: seq<Item<M>>, backs: seq<Timeout>)
    requires s.Valid() && Round(s, a, d, l, fired, backs) && a.WellTimed() && a.Quiet(s.NowTick())
    requires s.agenda.tick <= a.tick && (a.tick == s.agenda.tick || a.tick <= s.NowTick() + 1)
    ensures Drained(s.agenda, a.PassTo(s.NowTick()), fired, backs, s.NowTick())
    ensures d == Delivered(s.desk, fired, backs)
    ensures s.IsOneShot(s.agenda, s.desk, s.ledger) ==>
              && s.IsOneShot(a.PassTo(s.NowTick()), d, l) && backs == [] && l == Takes(s.ledger, fired, s.now)
              && d.calls == s.desk.calls + CallsFor(s.ledger.requests, s.desk.present, fired)
  {
    hide Draining, OneShot;
    DrainEnds(s.agenda, a, fired, backs, s.NowTick());
    StepsAreWellTimed(a, s.NowTick(), 0);
    if s.IsOneShot(s.agenda, s.desk, s.ledger) {
      OneShotWhenMoved(a, a.PassTo(s.NowTick()), d.timers, l, s.startMs, s.tickMs);
    }
  }

  /** The handle of a pending one-shot timer is that of its own item. */
  lemma PendingMatches<M, F>(a: Agenda<M>, timers: map<M, Pending<F>>, l: Ledger<F>, startMs: nat, tickMs: nat, mark: M)
    requires OneShot(a, timers, l, startMs, tickMs) && mark in timers
    ensures a.Matches(timers[mark].timeout) && a.live[timers[mark].timeout.key].token == mark
  {
    assert Backed(a, mark, timers[mark].timeout);
  }
}
