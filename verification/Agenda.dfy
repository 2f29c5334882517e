/** What a timer is for, without a wheel: a set of pending items, each with the tick at which it is
    due. Items leave in the order of their due ticks, later insertions first among equals. */
module Agendas {
  import opened Powers

  function Max(x: int, y: int): int { if x < y then y else x }

  /** Proof of an insertion, needed to cancel it. */
  datatype Timeout = Timeout(key: nat, tick: nat)

  /** `target` is the tick asked for, `due` the tick at which the item is found,
      `stamp` the number of insertions made before this one. */
  datatype Item<T> = Item(token: T, interval: nat, target: nat, due: nat, stamp: nat)

  /** The order in which items are found. */
  predicate Before<T>(x: Item<T>, y: Item<T>) {
    x.due < y.due || (x.due == y.due && y.stamp < x.stamp)
  }

  /** A slot is scanned at every tick congruent to it. An item inserted while the current tick is
      `now` is found at the first scan that is yet to begin and is not before its target. */
  function EffectiveDue(slots: nat, now: nat, target: nat): (due: nat)
    requires slots > 0
  {
    if now < target then target else now + 1 + (target - now - 1) % slots
  }

  lemma EffectiveDueIsFirst(slots: nat, now: nat, target: nat)
    requires slots > 0
    ensures var due := EffectiveDue(slots, now, target);
            && now < due <= Max(target, now + slots) && target <= due
            && due % slots == target % slots
            && forall t :: now < t && target <= t && t % slots == target % slots ==> due <= t
  {
    var due := EffectiveDue(slots, now, target);
    if target <= now {
      var q, r := (target - now - 1) / slots, (target - now - 1) % slots;
      assert due == target + (-q) * slots by {
        assert target - now - 1 == q * slots + r;
      }
      ModPlusMultiple(target, -q, slots);
      forall t | now < t && t % slots == target % slots
        ensures due <= t
      {
        if t < due {
          CongruentsAreApart(t, due, slots);
        }
      }
    }
  }

  lemma ModPlusMultiple(x: int, q: int, n: int)
    requires n > 0
    ensures (x + q * n) % n == x % n
  {
    assert x + q * n == (x / n + q) * n + x % n;
    DivModUnique(x + q * n, x / n + q, x % n, n);
  }

  /** Different congruent numbers are at least one modulus apart. */
  lemma CongruentsAreApart(x: int, y: int, n: int)
    requires n > 0 && x < y && x % n == y % n
    ensures x + n <= y
  {
    var d := y / n - x / n;
    assert y - x == d * n;
    assert d <= 0 ==> d * n <= 0;
    assert d >= 1 ==> d * n >= n;
  }

  datatype Agenda<T> = Agenda(slots: nat, tick: nat, stamps: nat, live: map<nat, Item<T>>) {

    /** No live item is overdue, and each is due at the first possible tick. */
    ghost predicate WellTimed() {
      && slots > 0
      && (forall k :: k in live ==> Punctual(live[k]))
      && (forall j, k :: j in live && k in live && live[j].stamp == live[k].stamp ==> j == k)
    }

    ghost predicate Punctual(x: Item<T>)
      requires slots > 0
    {
      && tick <= x.due
      && x.target <= x.due
      && x.due % slots == x.target % slots
      && (x.due == x.target || x.due <= tick + slots)
      && x.stamp < stamps
    }

    function NewItem(token: T, interval: nat, target: nat): Item<T>
      requires slots > 0
    {
      Item(token, interval, target, EffectiveDue(slots, tick, target), stamps)
    }

    function Insert(key: nat, token: T, interval: nat, target: nat): Agenda<T>
      requires slots > 0
    {
      this.(live := live[key := NewItem(token, interval, target)], stamps := stamps + 1)
    }

    function Drop(key: nat): Agenda<T> {
      this.(live := live - {key})
    }

    /** A handle matches the item that now has its key if the targets agree. */
    predicate Matches(h: Timeout) {
      h.key in live && live[h.key].target == h.tick
    }

    /** `key` holds the first live item that is due by tick `now`. */
    ghost predicate First(now: nat, key: nat) {
      && key in live && live[key].due <= now
      && forall k :: k in live && k != key ==> Before(live[key], live[k])
    }

    /** Time has moved to the due tick of `key`, which leaves. */
    function Fire(key: nat): Agenda<T>
      requires key in live
    {
      Drop(key).(tick := live[key].due)
    }

    /** Nothing is due by `now`. */
    ghost predicate Quiet(now: nat) {
      forall k :: k in live ==> now < live[k].due
    }

    function PassTo(now: nat): Agenda<T> {
      this.(tick := Max(tick, now + 1))
    }
  }

  /** Insertion under a free key keeps every live item punctual. */
  lemma InsertIsWellTimed<T>(a: Agenda<T>, key: nat, token: T, interval: nat, target: nat)
    requires a.WellTimed() && key !in a.live
    ensures a.Insert(key, token, interval, target).WellTimed()
    ensures a.tick < a.NewItem(token, interval, target).due
  {
    EffectiveDueIsFirst(a.slots, a.tick, target);
  }

  lemma StepsAreWellTimed<T>(a: Agenda<T>, now: nat, key: nat)
    requires a.WellTimed()
    ensures a.Drop(key).WellTimed()
    ensures a.First(now, key) ==> a.Fire(key).WellTimed()
    ensures a.Quiet(now) ==> a.PassTo(now).WellTimed()
  {
  }

  /** There is at most one first item, so a run is determined by its operations and the keys
      that the slab picks. */
  lemma FirstIsUnique<T>(a: Agenda<T>, now: nat, j: nat, k: nat)
    requires a.First(now, j) && a.First(now, k)
    ensures j == k
  {
  }

  /** One more item either comes first or leaves the first one in place. */
  lemma FirstWithOneMore<T>(a: Agenda<T>, now: nat, k: nat, f: nat)
    requires k in a.live && a.live[k].due <= now && a.WellTimed()
    requires a.Drop(k).First(now, f)
    ensures a.First(now, if Before(a.live[k], a.live[f]) then k else f)
  {
    var rest := a.Drop(k);
    assert a.live[k].stamp != a.live[f].stamp;
    forall j | j in a.live && j != k && j != f
      ensures Before(a.live[f], a.live[j])
    {
      assert j in rest.live;
    }
  }

  /** Either some item is first or nothing is due. */
  lemma {:induction false} SomethingIsFirst<T>(a: Agenda<T>, now: nat)
    requires a.WellTimed()
    ensures a.Quiet(now) <==> !exists k :: a.First(now, k)
    decreases |a.live|
  {
    if !a.Quiet(now) {
      var k :| k in a.live && a.live[k].due <= now;
      var rest := a.Drop(k);
      assert a.live.Keys == rest.live.Keys + {k};
      SomethingIsFirst(rest, now);
      if f :| rest.First(now, f) {
        FirstWithOneMore(a, now, k, f);
      } else {
        assert forall j :: j in a.live && j != k ==> j in rest.live;
        assert a.First(now, k);
      }
    }
  }
}
