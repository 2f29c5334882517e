/** Whole runs of a dispatcher whose timers are all one-shot. */
module OneShots {
  import opened Ticks
  import opened Agendas
  import opened Desks

  datatype State<M, F> = State(agenda: Agenda<M>, timers: map<M, Pending<F>>, ledger: Ledger<F>,
                               startMs: nat, tickMs: nat)

  datatype Event<M, F> =
    | AddTimer(mark: M, key: nat, request: Request<F>)
    | CancelTimer(cancelled: M)
    | Fire(now: nat, fired: nat)
    | Pass(to: nat)

  /** The state after `key` has fired. */
  function Fired<M, F>(s: State<M, F>, now: nat, key: nat): State<M, F>
    requires key in s.agenda.live
  {
    var mark := s.agenda.live[key].token;
    s.(agenda := s.agenda.Fire(key), timers := s.timers - {mark},
       ledger := if mark in s.timers then Closed(s.ledger, s.agenda.live[key].stamp, Some(now)) else s.ledger)
  }

  /** A timer is added for a mark that is not pending. It may be late already, that is, its target need
      not be ahead of the wheel. */
  ghost predicate Step<M, F>(s: State<M, F>, e: Event<M, F>, s': State<M, F>) {
    var a := s.agenda;
    && s.tickMs > 0 && a.slots > 0
    && match e
       case AddTimer(mark, key, r) =>
         && s.startMs <= r.at && mark !in s.timers && key !in a.live
         && var target := TargetTick(s.startMs, s.tickMs, a.tick, r.at);
         s' == s.(agenda := a.Insert(key, mark, 0, target),
                  timers := s.timers[mark := Pending(Timeout(key, target), r.token, r.callback)],
                  ledger := s.ledger.(requests := s.ledger.requests[a.stamps := r]))
       case CancelTimer(mark) =>
         && mark in s.timers && s.timers[mark].timeout.key in a.live
         && var h := s.timers[mark].timeout;
         s' == s.(agenda := if a.Matches(h) then a.Drop(h.key) else a,
                  timers := s.timers - {mark},
                  ledger := Closed(s.ledger, a.live[h.key].stamp, None))
       case Fire(now, key) =>
         && s.startMs <= now && a.First(MsToTick(s.startMs, s.tickMs, now), key)
         && s' == Fired(s, now, key)
       case Pass(now) =>
         a.Quiet(now) && s' == s.(agenda := a.PassTo(now))
  }

  ghost predicate Sound<M, F>(s: State<M, F>) {
    OneShot(s.agenda, s.timers, s.ledger, s.startMs, s.tickMs)
  }

  /** Nothing that was taken or cancelled comes back, and what was asked for stays on record. */
  ghost predicate Extends<F>(l: Ledger<F>, l': Ledger<F>) {
    && (forall s :: s in l.requests ==> s in l'.requests && l'.requests[s] == l.requests[s])
    && (forall s :: s in l.taken ==> s in l'.taken && l'.taken[s] == l.taken[s])
    && l.cancelled <= l'.cancelled
  }

  lemma StepIsSound<M, F>(s: State<M, F>, e: Event<M, F>, s': State<M, F>)
    requires Sound(s) && Step(s, e, s')
    ensures Sound(s') && Extends(s.ledger, s'.ledger)
  {
    hide OneShot, TargetTick, MsToTick;
    match e {
      case AddTimer(mark, key, r) =>
        var target := TargetTick(s.startMs, s.tickMs, s.agenda.tick, r.at);
        TargetTickBounds(s.startMs, s.tickMs, s.agenda.tick, r.at);
        AddOneShot(s.agenda, s.timers, s.ledger, s.startMs, s.tickMs, mark, key, target, r);
        StampsAreNew(s.agenda, s.timers, s.ledger, s.startMs, s.tickMs);
      case CancelTimer(mark) =>
        PendingMatches(s.agenda, s.timers, s.ledger, s.startMs, s.tickMs, mark);
        LeaveOneShot(s.agenda, s.timers, s.ledger, s.startMs, s.tickMs, s.timers[mark].timeout.key, None);
      case Fire(now, key) =>
        FireOneShot(s.agenda, s.timers, s.ledger, s.startMs, s.tickMs, key, now);
        Claim(s, now, key);
      case Pass(now) =>
        StampsAreNew(s.agenda, s.timers, s.ledger, s.startMs, s.tickMs);
        StepsAreWellTimed(s.agenda, now, 0);
        OneShotWhenMoved(s.agenda, s.agenda.PassTo(now), s.timers, s.ledger, s.startMs, s.tickMs);
    }
  }

  lemma StampsAreNew<M, F>(a: Agenda<M>, timers: map<M, Pending<F>>, l: Ledger<F>, startMs: nat, tickMs: nat)
    requires OneShot(a, timers, l, startMs, tickMs)
    ensures a.WellTimed() && a.stamps !in l.requests
  {
  }

  /** A firing takes out the callback that was asked for with its own item, which was neither taken nor
      cancelled before, and not before its time. */
  lemma Claim<M, F>(s: State<M, F>, now: nat, key: nat)
    requires Sound(s) && s.tickMs > 0 && s.startMs <= now && s.agenda.First(MsToTick(s.startMs, s.tickMs, now), key)
    ensures var x, l := s.agenda.live[key], s.ledger;
            && x.token in s.timers && x.stamp in l.requests && x.stamp !in l.taken && x.stamp !in l.cancelled
            && s.timers[x.token].callback == l.requests[x.stamp].callback
            && s.timers[x.token].token == l.requests[x.stamp].token
            && l.requests[x.stamp].at <= now
  {
    var x := s.agenda.live[key];
    assert Waiting(x, s.timers[x.token], s.ledger, s.startMs, s.tickMs);
    TickHasBegun(s.startMs, s.tickMs, now, x.target);
  }

  ghost predicate IsRun<M, F>(run: seq<State<M, F>>, events: seq<Event<M, F>>) {
    && |run| == |events| + 1 && Sound(run[0])
    && forall i :: 0 <= i < |events| ==> Step(run[i], events[i], run[i + 1])
  }

  lemma {:induction false} RunIsSound<M, F>(run: seq<State<M, F>>, events: seq<Event<M, F>>, i: nat, j: nat)
    requires IsRun(run, events) && i <= j < |run|
    ensures Sound(run[i]) && Sound(run[j]) && Extends(run[i].ledger, run[j].ledger)
    decreases i + j
  {
    hide Sound;
    if i < j {
      RunIsSound(run, events, i, j - 1);
      StepIsSound(run[j - 1], events[j - 1], run[j]);
    } else if 0 < i {
      RunIsSound(run, events, i - 1, i - 1);
      StepIsSound(run[i - 1], events[i - 1], run[i]);
    }
  }

  /** Every firing hands out a callback; it is the one asked for with that timer, and its time has come.
      It was not cancelled before, and it is not cancelled in any later state. */
  lemma FiringTakesItsOwn<M, F>(run: seq<State<M, F>>, events: seq<Event<M, F>>, i: nat, j: nat)
    requires IsRun(run, events) && i < |events| && events[i].Fire? && i < j < |run|
    ensures events[i].fired in run[i].agenda.live
    ensures var x, l := run[i].agenda.live[events[i].fired], run[i].ledger;
            && x.token in run[i].timers && x.stamp in l.requests && x.stamp !in l.taken
            && run[i].timers[x.token].callback == l.requests[x.stamp].callback
            && run[i].timers[x.token].token == l.requests[x.stamp].token
            && l.requests[x.stamp].at <= events[i].now
            && x.stamp !in l.cancelled && x.stamp !in run[j].ledger.cancelled
            && x.stamp in run[j].ledger.taken && run[j].ledger.taken[x.stamp] == events[i].now
  {
    hide OneShot;
    assert Step(run[i], events[i], run[i + 1]);
    RunIsSound(run, events, 0, i);
    RunIsSound(run, events, i + 1, j);
    Claim(run[i], events[i].now, events[i].fired);
    TakenIsNotCancelled(run[j], run[i].agenda.live[events[i].fired].stamp);
  }

  /** And no other firing hands it out. */
  lemma CallbacksAreTakenOnce<M, F>(run: seq<State<M, F>>, events: seq<Event<M, F>>, i: nat, j: nat)
    requires IsRun(run, events) && i < j < |events| && events[i].Fire? && events[j].Fire?
    ensures events[i].fired in run[i].agenda.live && events[j].fired in run[j].agenda.live
    ensures run[i].agenda.live[events[i].fired].stamp != run[j].agenda.live[events[j].fired].stamp
  {
    FiringTakesItsOwn(run, events, i, j);
    FiringTakesItsOwn(run, events, j, j + 1);
  }

  lemma TakenIsNotCancelled<M, F>(s: State<M, F>, stamp: nat)
    requires Sound(s) && stamp in s.ledger.taken
    ensures stamp !in s.ledger.cancelled
  {
  }

  /** A request under a mark that is pending. */
  function AddPending<M, F>(s: State<M, F>, mark: M, key: nat, r: Request<F>): State<M, F>
    requires s.tickMs > 0 && s.agenda.slots > 0 && s.startMs <= r.at
  {
    var target := TargetTick(s.startMs, s.tickMs, s.agenda.tick, r.at);
    s.(agenda := s.agenda.Insert(key, mark, 0, target),
       timers := s.timers[mark := Pending(Timeout(key, target), r.token, r.callback)],
       ledger := s.ledger.(requests := s.ledger.requests[s.agenda.stamps := r]))
  }

  /** A mark is used again while pending, and then the elder item fires in a round that reads the clock at
      `now`. The callback that is taken out and run is that of the newer request, whatever its time; the
      callback of the elder request is lost, and the item of the newer one has no callback left. */
  lemma PendingMarkTakesTheNewer<M, F>(s: State<M, F>, mark: M, key: nat, r: Request<F>, now: nat, d: Desk<M, F>,
                                       s1: State<M, F>, s2: State<M, F>)
    requires Sound(s) && s.tickMs > 0 && s.startMs <= r.at && s.startMs <= now
    requires mark in s.timers && key !in s.agenda.live && s1 == AddPending(s, mark, key, r)
    requires s1.agenda.First(MsToTick(s.startMs, s.tickMs, now), s.timers[mark].timeout.key)
    requires Step(s1, Fire(now, s.timers[mark].timeout.key), s2) && d.timers == s1.timers
    ensures s1.agenda.live[s.timers[mark].timeout.key].token == mark
    ensures d.Timeout(mark, false).timers == s2.timers
    ensures d.Timeout(mark, false).calls ==
              d.calls + if r.token in d.present then [Call(r.token, r.callback)] else []
    ensures key in s2.agenda.live && s2.agenda.live[key].token == mark && mark !in s2.timers
    ensures !OneToOne(s2.agenda, s2.timers)
  {
    PendingMatches(s.agenda, s.timers, s.ledger, s.startMs, s.tickMs, mark);
    assert key in s2.agenda.live && s2.agenda.live[key].token !in s2.timers;
  }

  /** In this run, on a clock that shows at least `asked`, the last step fires item `x` from under `key`
      and takes `p` out, before time `at`. */
  ghost predicate RunsEarly<M, F>(run: seq<State<M, F>>, events: seq<Event<M, F>>, s: State<M, F>, asked: nat,
                                  key: nat, x: Item<M>, p: Pending<F>, at: nat) {
    && |run| == |events| + 1 && run[0] == s
    && (forall i :: 0 <= i < |events| ==> Step(run[i], events[i], run[i + 1]))
    && (forall i :: 0 <= i < |events| && events[i].Fire? ==> asked <= events[i].now)
    && events != []
    && var e, last := events[|events| - 1], run[|events| - 1];
    && e.Fire? && e.fired == key && e.now < at
    && key in last.agenda.live && last.agenda.live[key] == x
    && x.token in last.timers && last.timers[x.token] == p
  }

  /** All of this happens in one round, which reads the clock at `now`. */
  ghost predicate OneRound<M, F>(events: seq<Event<M, F>>, now: nat) {
    forall i :: 0 <= i < |events| ==> events[i].Fire? && events[i].now == now
  }

  /** Item `x` is due by tick `q`, and until then nothing else can take out what waits under its mark. */
  ghost predicate WillTake<M, F>(s: State<M, F>, key: nat, x: Item<M>, p: Pending<F>, q: nat) {
    && s.tickMs > 0 && s.agenda.WellTimed()
    && key in s.agenda.live && s.agenda.live[key] == x && x.due <= q
    && x.token in s.timers && s.timers[x.token] == p
    && forall k :: k in s.agenda.live && k != key && s.agenda.live[k].token == x.token ==> q < s.agenda.live[k].due
  }

  lemma FiringGoesOn<M, F>(s: State<M, F>, now: nat, key: nat, x: Item<M>, p: Pending<F>, f: nat)
    requires s.tickMs > 0 && s.startMs <= now && s.agenda.First(MsToTick(s.startMs, s.tickMs, now), f)
    requires WillTake(s, key, x, p, MsToTick(s.startMs, s.tickMs, now))
    ensures Step(s, Fire(now, f), Fired(s, now, f))
    ensures f != key ==> WillTake(Fired(s, now, f), key, x, p, MsToTick(s.startMs, s.tickMs, now))
    ensures |Fired(s, now, f).agenda.live| < |s.agenda.live|
  {
    hide MsToTick;
    StepsAreWellTimed(s.agenda, MsToTick(s.startMs, s.tickMs, now), f);
    assert s.agenda.live.Keys == Fired(s, now, f).agenda.live.Keys + {f};
  }

  lemma {:induction false} TakesInOneRound<M, F>(s: State<M, F>, asked: nat, now: nat, key: nat, x: Item<M>,
                                                 p: Pending<F>, at: nat)
    returns (run: seq<State<M, F>>, events: seq<Event<M, F>>)
    requires s.tickMs > 0 && s.startMs <= now && asked <= now < at
    requires WillTake(s, key, x, p, MsToTick(s.startMs, s.tickMs, now))
    ensures RunsEarly(run, events, s, asked, key, x, p, at) && OneRound(events, now)
    decreases |s.agenda.live|
  {
    hide MsToTick, Step, Fired;
    SomethingIsFirst(s.agenda, MsToTick(s.startMs, s.tickMs, now));
    var f :| s.agenda.First(MsToTick(s.startMs, s.tickMs, now), f);
    FiringGoesOn(s, now, key, x, p, f);
    var next := Fired(s, now, f);
    if f == key {
      run, events := [s, next], [Fire(now, f)];
    } else {
      KeepsStart(s, now, f);
      var run', events' := TakesInOneRound(next, asked, now, key, x, p, at);
      run, events := [s] + run', [Fire(now, f)] + events';
      StartsEarlier(run', events', s, next, asked, key, x, p, at, now, f);
    }
  }

  lemma KeepsStart<M, F>(s: State<M, F>, now: nat, key: nat)
    requires key in s.agenda.live
    ensures Fired(s, now, key).startMs == s.startMs && Fired(s, now, key).tickMs == s.tickMs
  {
  }

  lemma StartsEarlier<M, F>(run: seq<State<M, F>>, events: seq<Event<M, F>>, s: State<M, F>, next: State<M, F>,
                            asked: nat, key: nat, x: Item<M>, p: Pending<F>, at: nat, now: nat, f: nat)
    requires RunsEarly(run, events, next, asked, key, x, p, at) && OneRound(events, now)
    requires asked <= now && Step(s, Fire(now, f), next)
    ensures RunsEarly([s] + run, [Fire(now, f)] + events, s, asked, key, x, p, at)
    ensures OneRound([Fire(now, f)] + events, now)
  {
    hide Step;
    var run', events' := [s] + run, [Fire(now, f)] + events;
    forall i | 0 <= i < |events'|
      ensures Step(run'[i], events'[i], run'[i + 1])
    {
      if i > 0 {
        assert Step(run[i - 1], events[i - 1], run[i]);
      }
    }
  }

  /** When is that too early for the newer request? A mark is asked for at time `asked` while it is pending.
      Some round after that runs the newer callback for the elder item before its time, if and only if its
      time is later than `asked` and the elder item's tick begins before it. Otherwise no run whatever
      does, however it goes on. */
  lemma PendingMarkIsEarlyIff<M, F>(s: State<M, F>, mark: M, key: nat, r: Request<F>, asked: nat)
    requires Sound(s) && s.tickMs > 0 && mark in s.timers && key !in s.agenda.live && s.startMs <= asked <= r.at
    ensures s.timers[mark].timeout.key in s.agenda.live
    ensures var elder, s1 := s.timers[mark].timeout.key, AddPending(s, mark, key, r);
            var x, p := s.agenda.live[elder], s1.timers[mark];
            var early := asked < r.at && TickStart(s.startMs, s.tickMs, x.due) < r.at;
            && p.callback == r.callback && p.token == r.token
            && (early ==> exists run, events, now: nat ::
                  RunsEarly(run, events, s1, asked, elder, x, p, r.at) && OneRound(events, now))
            && ((exists run, events :: RunsEarly(run, events, s1, asked, elder, x, p, r.at)) ==> early)
  {
    hide OneShot, TargetTick;
    PendingMatches(s.agenda, s.timers, s.ledger, s.startMs, s.tickMs, mark);
    StampsAreNew(s.agenda, s.timers, s.ledger, s.startMs, s.tickMs);
    var elder, s1 := s.timers[mark].timeout.key, AddPending(s, mark, key, r);
    var x, p := s.agenda.live[elder], s1.timers[mark];
    var begin := TickStart(s.startMs, s.tickMs, x.due);
    if asked < r.at && begin < r.at {
      var now := Max(asked, begin);
      WillTakeTheNewer(s, mark, key, r, now);
      var run, events := TakesInOneRound(s1, asked, now, elder, x, p, r.at);
    }
    forall run: seq<State<M, F>>, events: seq<Event<M, F>> | RunsEarly(run, events, s1, asked, elder, x, p, r.at)
      ensures asked < r.at && begin < r.at
    {
      var n := |events| - 1;
      assert Step(run[n], events[n], run[n + 1]);
      StartIsFixed(run, events, n);
      TickHasBegun(s.startMs, s.tickMs, events[n].now, x.due);
    }
  }

  lemma {:induction false} StartIsFixed<M, F>(run: seq<State<M, F>>, events: seq<Event<M, F>>, j: nat)
    requires |run| == |events| + 1 && j < |run|
    requires forall i :: 0 <= i < |events| ==> Step(run[i], events[i], run[i + 1])
    ensures run[j].startMs == run[0].startMs && run[j].tickMs == run[0].tickMs
  {
    if j > 0 {
      StartIsFixed(run, events, j - 1);
      assert Step(run[j - 1], events[j - 1], run[j]);
    }
  }

  /** The newer item is not due before its time, so the elder one comes first. */
  lemma WillTakeTheNewer<M, F>(s: State<M, F>, mark: M, key: nat, r: Request<F>, now: nat)
    requires Sound(s) && s.tickMs > 0 && mark in s.timers && key !in s.agenda.live && s.startMs <= r.at
    requires s.timers[mark].timeout.key in s.agenda.live && s.startMs <= now < r.at
    requires TickStart(s.startMs, s.tickMs, s.agenda.live[s.timers[mark].timeout.key].due) <= now
    ensures var elder, s1 := s.timers[mark].timeout.key, AddPending(s, mark, key, r);
            WillTake(s1, elder, s.agenda.live[elder], s1.timers[mark], MsToTick(s.startMs, s.tickMs, now))
  {
    var elder, s1 := s.timers[mark].timeout.key, AddPending(s, mark, key, r);
    var target := TargetTick(s.startMs, s.tickMs, s.agenda.tick, r.at);
    PendingMatches(s.agenda, s.timers, s.ledger, s.startMs, s.tickMs, mark);
    InsertIsWellTimed(s.agenda, key, mark, 0, target);
    TickHasBegun(s.startMs, s.tickMs, now, s.agenda.live[elder].due);
    TargetTickBounds(s.startMs, s.tickMs, s.agenda.tick, r.at);
    TickHasBegun(s.startMs, s.tickMs, now, target);
    assert target <= s1.agenda.live[key].due;
  }
}
