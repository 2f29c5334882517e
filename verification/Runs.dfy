/** Whole runs of a timer: any interleaving of insertions, cancellations and moves of the wheel. */
module Runs {
  import opened Agendas

  /** The agenda together with the handles that were issued and not yet used, by insertion stamp. */
  datatype Book<T> = Book(agenda: Agenda<T>, handles: map<nat, Timeout>)

  datatype Op<T> =
    | Insert(key: nat, token: T, interval: nat, target: nat)
    | Clear(id: nat)
    | Fire(now: nat, fired: nat)
    | Pass(to: nat)

  ghost predicate Step<T>(b: Book<T>, op: Op<T>, b': Book<T>) {
    var a := b.agenda;
    match op
    case Insert(key, token, interval, target) =>
      && a.slots > 0 && key !in a.live
      && b' == Book(a.Insert(key, token, interval, target), b.handles[a.stamps := Timeout(key, target)])
    case Clear(id) =>
      && id in b.handles
      && b' == Book(if a.Matches(b.handles[id]) then a.Drop(b.handles[id].key) else a, b.handles - {id})
    case Fire(now, key) =>
      a.First(now, key) && b' == Book(a.Fire(key), b.handles)
    case Pass(now) =>
      a.Quiet(now) && b' == Book(a.PassTo(now), b.handles)
  }

  ghost predicate Initial<T>(b: Book<T>) {
    b.agenda.slots > 0 && b.agenda.live == map[] && b.agenda.stamps == 0 && b.handles == map[]
  }

  ghost predicate IsRun<T>(run: seq<Book<T>>, ops: seq<Op<T>>) {
    && |run| == |ops| + 1
    && Initial(run[0])
    && forall i :: 0 <= i < |ops| ==> Step(run[i], ops[i], run[i + 1])
  }

  lemma StepKeepsTime<T>(b: Book<T>, op: Op<T>, b': Book<T>)
    requires b.agenda.WellTimed() && Step(b, op, b')
    ensures b'.agenda.WellTimed()
    ensures b'.agenda.slots == b.agenda.slots && b.agenda.tick <= b'.agenda.tick && b.agenda.stamps <= b'.agenda.stamps
  {
    match op
    case Insert(key, token, interval, target) => InsertIsWellTimed(b.agenda, key, token, interval, target);
    case Clear(id) => StepsAreWellTimed(b.agenda, 0, b.handles[id].key);
    case Fire(now, key) => StepsAreWellTimed(b.agenda, now, key);
    case Pass(now) => StepsAreWellTimed(b.agenda, now, 0);
  }

  lemma {:induction false} RunKeepsTime<T>(run: seq<Book<T>>, ops: seq<Op<T>>, j: nat)
    requires IsRun(run, ops) && j < |run|
    ensures run[j].agenda.WellTimed()
  {
    if j > 0 {
      RunKeepsTime(run, ops, j - 1);
      StepKeepsTime(run[j - 1], ops[j - 1], run[j]);
    }
  }

  /** The item inserted with a stamp is still there. */
  ghost predicate Holds<T>(a: Agenda<T>, key: nat, x: Item<T>) {
    key in a.live && a.live[key] == x
  }

  /** Step `m` returned item `x`. */
  ghost predicate Returned<T>(run: seq<Book<T>>, ops: seq<Op<T>>, m: nat, key: nat, x: Item<T>)
    requires IsRun(run, ops)
  {
    m < |ops| && ops[m].Fire? && ops[m].fired == key && Holds(run[m].agenda, key, x) && run[m + 1].agenda.tick == x.due
  }

  /** Step `m` cancelled item `x`. */
  ghost predicate Cancelled<T>(run: seq<Book<T>>, ops: seq<Op<T>>, m: nat, key: nat, x: Item<T>)
    requires IsRun(run, ops)
  {
    && m < |ops| && ops[m].Clear? && ops[m].id in run[m].handles
    && run[m].handles[ops[m].id] == Timeout(key, x.target) && Holds(run[m].agenda, key, x)
  }

  /** An inserted item stays until it is returned or cancelled. */
  lemma {:induction false} ItemStaysUntilTaken<T>(run: seq<Book<T>>, ops: seq<Op<T>>, i: nat, j: nat, key: nat,
                                                  x: Item<T>)
    requires IsRun(run, ops) && i <= j < |run|
    requires Holds(run[i].agenda, key, x)
    ensures || Holds(run[j].agenda, key, x)
            || (exists m :: i <= m < j && Returned(run, ops, m, key, x))
            || (exists m :: i <= m < j && Cancelled(run, ops, m, key, x))
  {
    if i < j {
      ItemStaysUntilTaken(run, ops, i, j - 1, key, x);
      if Holds(run[j - 1].agenda, key, x) && !Holds(run[j].agenda, key, x) {
        assert Step(run[j - 1], ops[j - 1], run[j]);
        assert Returned(run, ops, j - 1, key, x) || Cancelled(run, ops, j - 1, key, x);
      }
    }
  }

  /** Every insertion is bounded, whatever its target. Inserted while the wheel is at tick `c` with
      target `t`, an item that is not cancelled is returned before the wheel passes max(t, c + slots),
      and it is not returned while the wheel is below `t`. */
  lemma BoundedDelay<T>(run: seq<Book<T>>, ops: seq<Op<T>>, i: nat, j: nat)
    requires IsRun(run, ops) && i < j < |run| && ops[i].Insert?
    requires var c, t := run[i].agenda.tick, ops[i].target; Max(t, c + run[i].agenda.slots) < run[j].agenda.tick
    ensures var x := run[i + 1].agenda.live[ops[i].key];
            var c, t, slots := run[i].agenda.tick, ops[i].target, run[i].agenda.slots;
            && ops[i].key in run[i + 1].agenda.live && x.stamp == run[i].agenda.stamps
            && c < x.due <= Max(t, c + slots) && t <= x.due
            && ((exists m :: i < m < j && Returned(run, ops, m, ops[i].key, x))
                || (exists m :: i < m < j && Cancelled(run, ops, m, ops[i].key, x)))
  {
    assert Step(run[i], ops[i], run[i + 1]);
    var x := run[i + 1].agenda.live[ops[i].key];
    EffectiveDueIsFirst(run[i].agenda.slots, run[i].agenda.tick, ops[i].target);
    RunKeepsTime(run, ops, j);
    ItemStaysUntilTaken(run, ops, i + 1, j, ops[i].key, x);
  }
}
