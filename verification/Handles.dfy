/** Handles under key reuse: when does a handle cancel exactly the entry it was issued for? */
module Handles {
  import opened Ticks
  import opened Agendas
  import opened Runs

  /** The entry issued with this stamp is live, under this key. */
  ghost predicate IsLive<T>(a: Agenda<T>, id: nat, key: nat) {
    key in a.live && a.live[key].stamp == id
  }

  /** The entry issued with this stamp is live no more. */
  ghost predicate Gone<T>(a: Agenda<T>, id: nat) {
    forall k :: k in a.live ==> a.live[k].stamp != id
  }

  /** The handle cancels exactly if its own entry is live, and then that entry. */
  ghost predicate Exact<T>(a: Agenda<T>, id: nat, h: Timeout) {
    && (a.Matches(h) <==> !Gone(a, id))
    && (a.Matches(h) ==> IsLive(a, id, h.key))
  }

  ghost predicate AllExact<T>(b: Book<T>) {
    forall id :: id in b.handles ==> Exact(b.agenda, id, b.handles[id])
  }

  /** An insertion issues a handle that equals one still outstanding. */
  ghost predicate Collides<T>(b: Book<T>, op: Op<T>) {
    op.Insert? && exists id :: id in b.handles && b.handles[id] == Timeout(op.key, op.target)
  }

  /** Among the outstanding handles only its owner's names a live entry, and the owner's does. */
  ghost predicate Owned<T>(b: Book<T>) {
    && b.agenda.WellTimed()
    && (forall id :: id in b.handles ==> id < b.agenda.stamps)
    && (forall k :: k in b.agenda.live && b.agenda.live[k].stamp in b.handles ==>
          b.handles[b.agenda.live[k].stamp] == Timeout(k, b.agenda.live[k].target))
    && (forall k, id ::
          k in b.agenda.live && id in b.handles && b.handles[id] == Timeout(k, b.agenda.live[k].target) ==>
          b.agenda.live[k].stamp == id)
  }

  lemma OwnedIsExact<T>(b: Book<T>)
    requires Owned(b)
    ensures AllExact(b)
  {
    forall id | id in b.handles
      ensures Exact(b.agenda, id, b.handles[id])
    {
      var h := b.handles[id];
      if k :| k in b.agenda.live && b.agenda.live[k].stamp == id {
        assert h == Timeout(k, b.agenda.live[k].target);
      }
      assert b.agenda.Matches(h) ==> h == Timeout(h.key, b.agenda.live[h.key].target);
    }
  }

  lemma StepKeepsOwned<T>(b: Book<T>, op: Op<T>, b': Book<T>)
    requires Owned(b) && Step(b, op, b') && !Collides(b, op)
    ensures Owned(b')
  {
    StepKeepsTime(b, op, b');
    if op.Insert? {
      assert b.agenda.stamps !in b.handles;
    }
  }

  lemma {:induction false} RunIsOwned<T>(run: seq<Book<T>>, ops: seq<Op<T>>, j: nat)
    requires IsRun(run, ops) && j < |run|
    requires forall i :: 0 <= i < j ==> !Collides(run[i], ops[i])
    ensures Owned(run[j])
  {
    if j > 0 {
      RunIsOwned(run, ops, j - 1);
      StepKeepsOwned(run[j - 1], ops[j - 1], run[j]);
    }
  }

  lemma {:induction false} HandlesAreOlder<T>(run: seq<Book<T>>, ops: seq<Op<T>>, j: nat)
    requires IsRun(run, ops) && j < |run|
    ensures forall id :: id in run[j].handles ==> id < run[j].agenda.stamps
  {
    if j > 0 {
      HandlesAreOlder(run, ops, j - 1);
      assert Step(run[j - 1], ops[j - 1], run[j]);
    }
  }

  /** A colliding insertion leaves a handle that names somebody else's entry. */
  lemma CollisionConfuses<T>(b: Book<T>, op: Op<T>, b': Book<T>)
    requires Step(b, op, b') && Collides(b, op)
    requires forall id :: id in b.handles ==> id < b.agenda.stamps
    ensures !AllExact(b')
  {
    var id :| id in b.handles && b.handles[id] == Timeout(op.key, op.target);
    assert id in b'.handles && b'.agenda.Matches(b'.handles[id]) && !IsLive(b'.agenda, id, op.key);
    assert !Exact(b'.agenda, id, b'.handles[id]);
  }

  /** Handles are safe exactly as long as no two outstanding ones are equal. Over any run, disciplined or
      not, every handle that is used at most once cancels the entry it was issued for if that is live, and
      nothing otherwise, if and only if no insertion issues a handle that is still outstanding. */
  lemma HandlesAreExactIff<T>(run: seq<Book<T>>, ops: seq<Op<T>>)
    requires IsRun(run, ops)
    ensures (forall j :: 0 <= j < |run| ==> AllExact(run[j]))
            <==> (forall i :: 0 <= i < |ops| ==> !Collides(run[i], ops[i]))
  {
    if forall i :: 0 <= i < |ops| ==> !Collides(run[i], ops[i]) {
      forall j | 0 <= j < |run|
        ensures AllExact(run[j])
      {
        RunIsOwned(run, ops, j);
        OwnedIsExact(run[j]);
      }
    } else {
      var i :| 0 <= i < |ops| && Collides(run[i], ops[i]);
      HandlesAreOlder(run, ops, i);
      assert Step(run[i], ops[i], run[i + 1]);
      CollisionConfuses(run[i], ops[i], run[i + 1]);
    }
  }

  /** What a caller can check before an insertion: every outstanding handle for this tick has its key in
      use, so it cannot be issued again. */
  predicate Checked<T>(b: Book<T>, target: nat) {
    forall id :: id in b.handles && b.handles[id].tick == target ==> b.handles[id].key in b.agenda.live
  }

  /** With handles in order, an insertion leaves them so under whatever free key the slab picks, if and
      only if the check succeeds. */
  lemma InsertIsSafeIff<T>(b: Book<T>, token: T, interval: nat, target: nat)
    requires Owned(b)
    ensures (forall key, b' :: Step(b, Insert(key, token, interval, target), b') ==> AllExact(b'))
            <==> Checked(b, target)
  {
    if Checked(b, target) {
      forall key, b' | Step(b, Insert(key, token, interval, target), b')
        ensures AllExact(b')
      {
        assert !Collides(b, Insert(key, token, interval, target));
        StepKeepsOwned(b, Insert(key, token, interval, target), b');
        OwnedIsExact(b');
      }
    } else {
      var id :| id in b.handles && b.handles[id].tick == target && b.handles[id].key !in b.agenda.live;
      var op := Insert(b.handles[id].key, token, interval, target);
      var b' := Book(b.agenda.Insert(op.key, token, interval, target),
                     b.handles[b.agenda.stamps := Timeout(op.key, target)]);
      assert Step(b, op, b') && Collides(b, op);
      CollisionConfuses(b, op, b');
    }
  }

  /** The target was ahead of the wheel when the item was inserted. */
  ghost predicate Disciplined<T>(run: seq<Book<T>>, ops: seq<Op<T>>)
    requires |run| == |ops| + 1
  {
    forall i :: 0 <= i < |ops| && ops[i].Insert? ==> run[i].agenda.tick < ops[i].target
  }

  /** A handle names its own live entry or a tick that is over. */
  ghost predicate NamesOwn<T>(a: Agenda<T>, id: nat, h: Timeout) {
    IsLive(a, id, h.key) || h.tick <= a.tick
  }

  ghost predicate Faithful<T>(b: Book<T>) {
    Owned(b) && forall id :: id in b.handles ==> NamesOwn(b.agenda, id, b.handles[id])
  }

  lemma DisciplinedIsFresh<T>(b: Book<T>, op: Op<T>)
    requires Faithful(b) && op.Insert? && op.key !in b.agenda.live && b.agenda.tick < op.target
    ensures !Collides(b, op)
  {
    forall id | id in b.handles
      ensures b.handles[id] != Timeout(op.key, op.target)
    {
      assert NamesOwn(b.agenda, id, b.handles[id]);
    }
  }

  /** An item leaves when its tick has come or by its own handle. */
  lemma StepNamesOwn<T>(b: Book<T>, op: Op<T>, b': Book<T>, id: nat)
    requires Owned(b) && Step(b, op, b') && id in b.handles && id in b'.handles
    requires NamesOwn(b.agenda, id, b.handles[id])
    ensures NamesOwn(b'.agenda, id, b'.handles[id])
  {
    var h := b.handles[id];
    StepKeepsTime(b, op, b');
    if IsLive(b.agenda, id, h.key) {
      assert h == Timeout(h.key, b.agenda.live[h.key].target);
    }
  }

  lemma DisciplinedStepIsFaithful<T>(b: Book<T>, op: Op<T>, b': Book<T>)
    requires Faithful(b) && Step(b, op, b')
    requires op.Insert? ==> b.agenda.tick < op.target
    ensures !Collides(b, op) && Faithful(b') && AllExact(b')
  {
    if op.Insert? {
      DisciplinedIsFresh(b, op);
    }
    hide Owned;
    StepKeepsOwned(b, op, b');
    OwnedIsExact(b');
    forall id | id in b'.handles
      ensures NamesOwn(b'.agenda, id, b'.handles[id])
    {
      if id in b.handles {
        StepNamesOwn(b, op, b', id);
      }
    }
  }

  lemma {:induction false} DisciplinedRunIsFaithful<T>(run: seq<Book<T>>, ops: seq<Op<T>>, j: nat)
    requires IsRun(run, ops) && Disciplined(run, ops) && j < |run|
    ensures Faithful(run[j])
  {
    if j > 0 {
      DisciplinedRunIsFaithful(run, ops, j - 1);
      DisciplinedStepIsFaithful(run[j - 1], ops[j - 1], run[j]);
    }
  }

  /** Handles are safe although keys are reused. In a disciplined run a handle, used at most once,
      cancels exactly when the entry issued with it is live, and it removes that entry and no other. */
  lemma HandlesAreSafe<T>(run: seq<Book<T>>, ops: seq<Op<T>>, j: nat, id: nat)
    requires IsRun(run, ops) && Disciplined(run, ops) && j < |run| && id in run[j].handles
    ensures var a, h := run[j].agenda, run[j].handles[id];
            && (a.Matches(h) <==> !Gone(a, id))
            && (a.Matches(h) ==> IsLive(a, id, h.key) && Gone(a.Drop(h.key), id))
  {
    forall i | 0 <= i < |ops|
      ensures !Collides(run[i], ops[i])
    {
      DisciplinedRunIsFaithful(run, ops, i);
      DisciplinedStepIsFaithful(run[i], ops[i], run[i + 1]);
    }
    HandlesAreExactIff(run, ops);
    assert AllExact(run[j]);
    RunKeepsTime(run, ops, j);
  }

  /** A run on a clock. `readings[i]` is the latest reading by step `i`, moves of the wheel go no further
      than the tick of a reading, and insertions are for times `ats[i]` after the reading. */
  ghost predicate Clocked<T>(run: seq<Book<T>>, ops: seq<Op<T>>, startMs: nat, tickMs: nat,
                             readings: seq<nat>, ats: seq<nat>)
    requires |run| == |ops| + 1
  {
    && tickMs > 0 && run[0].agenda.tick == 0 && |readings| == |ats| == |ops|
    && (forall i :: 0 <= i < |ops| ==> startMs <= readings[i])
    && (forall i, j :: 0 <= i <= j < |ops| ==> readings[i] <= readings[j])
    && (forall i :: 0 <= i < |ops| ==> OnClock(run[i].agenda.tick, ops[i], startMs, tickMs, readings[i], ats[i]))
  }

  ghost predicate OnClock<T>(tick: nat, op: Op<T>, startMs: nat, tickMs: nat, now: nat, at: nat)
    requires tickMs > 0 && startMs <= now
  {
    match op
    case Insert(_, _, _, target) => now < at && target == TargetTick(startMs, tickMs, tick, at)
    case Clear(_) => true
    case Fire(to, _) => to <= MsToTick(startMs, tickMs, now)
    case Pass(to) => to <= MsToTick(startMs, tickMs, now)
  }

  lemma {:induction false} WheelFollowsClock<T>(run: seq<Book<T>>, ops: seq<Op<T>>, startMs: nat, tickMs: nat,
                                                readings: seq<nat>, ats: seq<nat>, i: nat)
    requires IsRun(run, ops) && Clocked(run, ops, startMs, tickMs, readings, ats) && i < |ops|
    ensures run[i].agenda.tick <= MsToTick(startMs, tickMs, readings[i]) + 1
  {
    if i > 0 {
      WheelFollowsClock(run, ops, startMs, tickMs, readings, ats, i - 1);
      MsToTickMonotone(startMs, tickMs, readings[i - 1], readings[i]);
      assert Step(run[i - 1], ops[i - 1], run[i]);
      assert OnClock(run[i - 1].agenda.tick, ops[i - 1], startMs, tickMs, readings[i - 1], ats[i - 1]);
    }
  }

  /** A clock that does not go back and positive delays make every run disciplined. */
  lemma ClockedIsDisciplined<T>(run: seq<Book<T>>, ops: seq<Op<T>>, startMs: nat, tickMs: nat,
                                readings: seq<nat>, ats: seq<nat>)
    requires IsRun(run, ops) && Clocked(run, ops, startMs, tickMs, readings, ats)
    ensures Disciplined(run, ops)
  {
    forall i | 0 <= i < |ops| && ops[i].Insert?
      ensures run[i].agenda.tick < ops[i].target
    {
      WheelFollowsClock(run, ops, startMs, tickMs, readings, ats, i);
      assert OnClock(run[i].agenda.tick, ops[i], startMs, tickMs, readings[i], ats[i]);
      PositiveDelayIsDisciplined(startMs, tickMs, run[i].agenda.tick, readings[i], ats[i] - readings[i]);
    }
  }

  /** On such a clock handles are safe. */
  lemma HandlesAreSafeOnAClock<T>(run: seq<Book<T>>, ops: seq<Op<T>>, startMs: nat, tickMs: nat,
                                  readings: seq<nat>, ats: seq<nat>, j: nat, id: nat)
    requires IsRun(run, ops) && Clocked(run, ops, startMs, tickMs, readings, ats)
    requires j < |run| && id in run[j].handles
    ensures Exact(run[j].agenda, id, run[j].handles[id])
  {
    ClockedIsDisciplined(run, ops, startMs, tickMs, readings, ats);
    HandlesAreSafe(run, ops, j, id);
  }

  /** A handle issued at step `i` stays with its owner until its one use. */
  lemma {:induction false} HandleIsKept<T>(run: seq<Book<T>>, ops: seq<Op<T>>, i: nat, j: nat)
    requires IsRun(run, ops) && i < j < |run| && ops[i].Insert?
    requires forall m :: i < m < j ==> ops[m] != Clear(run[i].agenda.stamps)
    ensures var id := run[i].agenda.stamps;
            && id < run[j].agenda.stamps
            && id in run[j].handles && run[j].handles[id] == Timeout(ops[i].key, ops[i].target)
  {
    assert Step(run[j - 1], ops[j - 1], run[j]);
    if i + 1 < j {
      HandleIsKept(run, ops, i, j - 1);
    }
  }

  /** Requests for a time that the wheel has passed lead to collisions. Whenever the wheel is idle, two
      such requests for the same time, the second after the first has fired, get equal handles if they
      get the same key, and then the first handle removes the second item. */
  lemma StaleHandleRemovesAnother<T>(a: Agenda<T>, key: nat, token: T, startMs: nat, tickMs: nat, at: nat)
    returns (b: Book<T>, ops: seq<Op<T>>)
    requires a.slots > 0 && a.live == map[] && tickMs > 0 && startMs <= at
    requires CeilTick(startMs, tickMs, at) < a.tick
    ensures |ops| == 3 && ops[1].Fire? && ops[1].fired == key && ops[2] == ops[0]
    ensures ops[0] == Insert(key, token, 0, TargetTick(startMs, tickMs, a.tick, at))
    ensures exists b1, b2 :: Step(Book(a, map[]), ops[0], b1) && Step(b1, ops[1], b2) && Step(b2, ops[2], b)
                             && ops[2].target == TargetTick(startMs, tickMs, b2.agenda.tick, at) && Collides(b2, ops[2])
    ensures a.stamps in b.handles && Gone(b.agenda, a.stamps) && b.agenda.Matches(b.handles[a.stamps])
  {
    hide CeilTick, EffectiveDue;
    var target := TargetTick(startMs, tickMs, a.tick, at);
    var h := Timeout(key, target);
    var a1 := a.Insert(key, token, 0, target);
    EffectiveDueIsFirst(a.slots, a.tick, target);
    var a2 := a1.Fire(key);
    var b0, b1, b2 := Book(a, map[]), Book(a1, map[][a.stamps := h]), Book(a2, map[][a.stamps := h]);
    ops := [Insert(key, token, 0, target), Fire(a1.live[key].due, key), Insert(key, token, 0, target)];
    b := Book(a2.Insert(key, token, 0, target), b2.handles[a2.stamps := h]);
    assert TargetTick(startMs, tickMs, a2.tick, at) == target;
    assert a1.First(a1.live[key].due, key);
    assert Step(b0, ops[0], b1);
    assert Step(b1, ops[1], b2);
    assert key !in a2.live;
    assert Step(b2, ops[2], b);
    assert a.stamps in b2.handles && b2.handles[a.stamps] == h;
    assert Collides(b2, ops[2]);
  }
}
