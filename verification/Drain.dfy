/** What one round of timer processing does to the agenda. */
module Drains {
  import opened Agendas

  /** The fired items that ask to be repeated. */
  function Repeats<T>(fired: seq<Item<T>>): seq<Item<T>> {
    if fired == [] then []
    else
      var rest, x := Repeats(fired[..|fired| - 1]), fired[|fired| - 1];
      if x.interval > 0 then rest + [x] else rest
  }

  lemma RepeatsGrow<T>(fired: seq<Item<T>>, x: Item<T>)
    ensures Repeats(fired + [x]) == if x.interval > 0 then Repeats(fired) + [x] else Repeats(fired)
  {
    assert (fired + [x])[..|fired|] == fired;
  }

  /** The items fired so far were due, each came before the next, and all came before what is left. */
  ghost predicate InOrder<T>(was: Agenda<T>, a: Agenda<T>, fired: seq<Item<T>>, nowTick: nat) {
    && (forall i, j :: 0 <= i < j < |fired| ==> Before(fired[i], fired[j]))
    && (forall i :: 0 <= i < |fired| ==> fired[i].due <= nowTick && fired[i] in was.live.Values)
    && (forall i, k :: 0 <= i < |fired| && k in a.live && a.live[k].stamp < was.stamps ==> Before(fired[i], a.live[k]))
  }

  /** `backs[i]` is the handle of what was put back for `again[i]`: without an interval, and beyond
      this round. */
  ghost predicate PutBack<T>(was: Agenda<T>, a: Agenda<T>, again: seq<Item<T>>, backs: seq<Timeout>, nowTick: nat) {
    && |backs| == |again| && a.stamps == was.stamps + |again|
    && forall i :: 0 <= i < |backs| ==>
         && a.Matches(backs[i]) && nowTick < a.live[backs[i].key].due
         && a.live[backs[i].key].token == again[i].token && a.live[backs[i].key].interval == 0
         && a.live[backs[i].key].stamp == was.stamps + i
  }

  /** An item of the agenda at the start is either untouched or was fired, and whatever else is live
      was put back. */
  ghost predicate Accounted<T>(was: Agenda<T>, a: Agenda<T>, fired: seq<Item<T>>, backs: seq<Timeout>) {
    && (forall k :: k in was.live ==> Kept(was, a, k) || was.live[k] in fired)
    && (forall k :: k in a.live ==>
          (k in was.live && Kept(was, a, k) && a.live[k].stamp < was.stamps) || IsBack(backs, k))
  }

  ghost predicate IsBack(backs: seq<Timeout>, key: nat) {
    exists i :: 0 <= i < |backs| && backs[i].key == key
  }

  ghost predicate Kept<T>(was: Agenda<T>, a: Agenda<T>, k: nat)
    requires k in was.live
  {
    k in a.live && a.live[k] == was.live[k]
  }

  ghost predicate Draining<T>(was: Agenda<T>, a: Agenda<T>, fired: seq<Item<T>>, again: seq<Item<T>>,
                              backs: seq<Timeout>, nowTick: nat) {
    && a.slots == was.slots && a.WellTimed()
    && InOrder(was, a, fired, nowTick)
    && PutBack(was, a, again, backs, nowTick)
    && Accounted(was, a, fired, backs)
  }

  /** A finished round: it fired exactly the items that were due, once each and in order. The items
      that were not due are untouched, and there is one new item for each that repeats. */
  ghost predicate Drained<T>(was: Agenda<T>, a: Agenda<T>, fired: seq<Item<T>>, backs: seq<Timeout>, nowTick: nat) {
    && Draining(was, a, fired, Repeats(fired), backs, nowTick)
    && (forall k :: k in was.live ==> (was.live[k] in fired <==> was.live[k].due <= nowTick))
    && (forall k :: k in was.live && nowTick < was.live[k].due ==> Kept(was, a, k))
    && a.Quiet(nowTick) && a.tick == Max(was.tick, nowTick + 1)
  }

  lemma FiresInOrder<T>(was: Agenda<T>, a: Agenda<T>, fired: seq<Item<T>>, nowTick: nat, key: nat)
    requires InOrder(was, a, fired, nowTick) && a.First(nowTick, key)
    requires a.live[key].stamp < was.stamps && a.live[key] in was.live.Values
    ensures InOrder(was, a.Fire(key), fired + [a.live[key]], nowTick)
  {
  }

  lemma FiresAccounted<T>(was: Agenda<T>, a: Agenda<T>, fired: seq<Item<T>>, backs: seq<Timeout>, key: nat)
    requires Accounted(was, a, fired, backs) && key in was.live && Kept(was, a, key)
    ensures Accounted(was, a.Fire(key), fired + [a.live[key]], backs)
  {
    var fired' := fired + [a.live[key]];
    assert forall y :: y in fired ==> y in fired';
    assert fired'[|fired|] == a.live[key];
  }

  /** What is due was there at the start. */
  lemma DueIsOld<T>(was: Agenda<T>, a: Agenda<T>, fired: seq<Item<T>>, again: seq<Item<T>>,
                    backs: seq<Timeout>, nowTick: nat, key: nat)
    requires PutBack(was, a, again, backs, nowTick) && Accounted(was, a, fired, backs)
    requires key in a.live && a.live[key].due <= nowTick
    ensures !IsBack(backs, key)
    ensures key in was.live && Kept(was, a, key) && a.live[key].stamp < was.stamps && a.live[key] in was.live.Values
  {
    assert key in was.live && was.live[key] in was.live.Values;
  }

  /** The first due item leaves. */
  lemma DrainFires<T>(was: Agenda<T>, a: Agenda<T>, fired: seq<Item<T>>, again: seq<Item<T>>,
                      backs: seq<Timeout>, nowTick: nat, key: nat)
    requires Draining(was, a, fired, again, backs, nowTick) && a.First(nowTick, key)
    ensures Draining(was, a.Fire(key), fired + [a.live[key]], again, backs, nowTick)
  {
    hide InOrder, Accounted;
    DueIsOld(was, a, fired, again, backs, nowTick, key);
    StepsAreWellTimed(a, nowTick, key);
    FiresInOrder(was, a, fired, nowTick, key);
    FiresAccounted(was, a, fired, backs, key);
  }

  lemma RepeatsAccounted<T>(was: Agenda<T>, a: Agenda<T>, fired: seq<Item<T>>, backs: seq<Timeout>,
                            key: nat, token: T, target: nat)
    requires Accounted(was, a, fired, backs) && key !in a.live && a.slots > 0
    ensures Accounted(was, a.Insert(key, token, 0, target), fired, backs + [Timeout(key, target)])
  {
    var backs' := backs + [Timeout(key, target)];
    assert backs'[|backs|].key == key;
    forall k | IsBack(backs, k)
      ensures IsBack(backs', k)
    {
      var i :| 0 <= i < |backs| && backs[i].key == k;
      assert backs'[i].key == k;
    }
  }

  /** A repeating item is put back beyond the round. */
  lemma DrainRepeats<T>(was: Agenda<T>, a: Agenda<T>, fired: seq<Item<T>>, again: seq<Item<T>>,
                        backs: seq<Timeout>, nowTick: nat, x: Item<T>, key: nat, target: nat)
    requires Draining(was, a, fired, again, backs, nowTick)
    requires nowTick < target && key !in a.live
    ensures Draining(was, a.Insert(key, x.token, 0, target), fired, again + [x], backs + [Timeout(key, target)],
                     nowTick)
  {
    InsertIsWellTimed(a, key, x.token, 0, target);
    EffectiveDueIsFirst(a.slots, a.tick, target);
    RepeatsAccounted(was, a, fired, backs, key, x.token, target);
  }

  lemma FiredExactlyTheDue<T>(was: Agenda<T>, a: Agenda<T>, fired: seq<Item<T>>, backs: seq<Timeout>, nowTick: nat,
                              k: nat)
    requires InOrder(was, a, fired, nowTick) && Accounted(was, a, fired, backs) && a.Quiet(nowTick) && k in was.live
    ensures was.live[k] in fired <==> was.live[k].due <= nowTick
    ensures nowTick < was.live[k].due ==> Kept(was, a, k)
  {
  }

  lemma SameLive<T>(was: Agenda<T>, a: Agenda<T>, a': Agenda<T>, fired: seq<Item<T>>, backs: seq<Timeout>, nowTick: nat)
    requires InOrder(was, a, fired, nowTick) && Accounted(was, a, fired, backs) && a'.live == a.live
    ensures InOrder(was, a', fired, nowTick) && Accounted(was, a', fired, backs)
  {
  }

  /** Nothing is due any more. */
  lemma DrainEnds<T>(was: Agenda<T>, a: Agenda<T>, fired: seq<Item<T>>, backs: seq<Timeout>, nowTick: nat)
    requires Draining(was, a, fired, Repeats(fired), backs, nowTick) && a.Quiet(nowTick)
    requires was.tick <= a.tick && (a.tick == was.tick || a.tick <= nowTick + 1)
    ensures Drained(was, a.PassTo(nowTick), fired, backs, nowTick)
  {
    StepsAreWellTimed(a, nowTick, 0);
    var a' := a.PassTo(nowTick);
    SameLive(was, a, a', fired, backs, nowTick);
    forall k | k in was.live
      ensures was.live[k] in fired <==> was.live[k].due <= nowTick
      ensures nowTick < was.live[k].due ==> Kept(was, a', k)
    {
      FiredExactlyTheDue(was, a', fired, backs, nowTick, k);
    }
  }

  /** What is due at this tick; each firing leaves less of it. */
  function DueKeys<T>(a: Agenda<T>, nowTick: nat): set<nat> {
    set k | k in a.live && a.live[k].due <= nowTick
  }

  lemma FiringLeavesLess<T>(a: Agenda<T>, nowTick: nat, key: nat, back: Timeout, token: T)
    requires a.WellTimed() && a.First(nowTick, key) && nowTick < back.tick
    ensures DueKeys(a.Fire(key), nowTick) < DueKeys(a, nowTick)
    ensures back.key !in a.Fire(key).live ==>
              DueKeys(a.Fire(key).Insert(back.key, token, 0, back.tick), nowTick) < DueKeys(a, nowTick)
  {
    assert key in DueKeys(a, nowTick);
    EffectiveDueIsFirst(a.slots, a.live[key].due, back.tick);
  }
}
