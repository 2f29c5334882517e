/** How often the cursor looks at an entry. */
module Trails {
  import opened Ticks
  import opened Agendas
  import opened Chains
  import opened Scans

  /** The entry inserted with `stamp` was looked at while the wheel stood at `tick`. */
  datatype Visit = Visit(tick: nat, stamp: nat, target: nat)

  predicate Later(v: Visit, w: Visit) {
    v.tick < w.tick || (v.tick == w.tick && w.stamp < v.stamp)
  }

  /** Every visit so far was later than the ones before it, and no entry still in front of the
      cursor was visited in this tick. */
  ghost predicate Tracked<T>(a: Agenda<T>, chains: seq<seq<nat>>, pos: nat, trail: seq<Visit>)
    requires |chains| == a.slots > 0 && Placed(a, chains)
  {
    && Ordered(trail)
    && (forall v :: v in trail ==> Recorded(a, v))
    && (forall v, w :: v in trail && w in trail && v.stamp == w.stamp ==> v.target == w.target)
    && AheadIsFresh(a, chains[a.tick % a.slots], pos, trail)
  }

  ghost predicate Ordered(trail: seq<Visit>) {
    forall i, j :: 0 <= i < j < |trail| ==> Later(trail[i], trail[j])
  }

  ghost predicate Recorded<T>(a: Agenda<T>, v: Visit)
    requires a.slots > 0
  {
    && v.tick <= a.tick && v.stamp < a.stamps && v.tick % a.slots == v.target % a.slots
    && forall k :: k in a.live && a.live[k].stamp == v.stamp ==> a.live[k].target == v.target
  }

  ghost predicate AheadIsFresh<T>(a: Agenda<T>, chain: seq<nat>, pos: nat, trail: seq<Visit>)
    requires a.slots > 0 && forall i :: 0 <= i < |chain| ==> chain[i] in a.live
  {
    forall v, i :: v in trail && v.tick == a.tick && pos <= i < |chain| ==> a.live[chain[i]].stamp < v.stamp
  }

  lemma InsertRecorded<T>(a: Agenda<T>, v: Visit, key: nat, token: T, interval: nat, target: nat)
    requires a.slots > 0 && key !in a.live && Recorded(a, v)
    ensures Recorded(a.Insert(key, token, interval, target), v)
  {
  }

  lemma InsertAhead<T>(a: Agenda<T>, chain: seq<nat>, pos: nat, trail: seq<Visit>,
                       key: nat, token: T, interval: nat, target: nat, here: bool)
    requires a.slots > 0 && key !in a.live
    requires forall i :: 0 <= i < |chain| ==> chain[i] in a.live
    requires AheadIsFresh(a, chain, pos, trail)
    ensures var a', chain' := a.Insert(key, token, interval, target), if here then [key] + chain else chain;
            && (forall i :: 0 <= i < |chain'| ==> chain'[i] in a'.live)
            && AheadIsFresh(a', chain', if here then pos + 1 else pos, trail)
  {
    assert here ==> forall i :: 0 < i <= |chain| ==> ([key] + chain)[i] == chain[i - 1];
  }

  lemma InsertTracked<T>(a: Agenda<T>, chains: seq<seq<nat>>, pos: nat, trail: seq<Visit>,
                         key: nat, token: T, interval: nat, target: nat)
    requires a.WellTimed() && |chains| == a.slots && Placed(a, chains) && key !in a.live
    requires Tracked(a, chains, pos, trail)
    ensures var s := target % a.slots;
            var a', chains' := a.Insert(key, token, interval, target), chains[s := [key] + chains[s]];
            Placed(a', chains') && Tracked(a', chains', if s == a.tick % a.slots then pos + 1 else pos, trail)
  {
    var s, cur := target % a.slots, a.tick % a.slots;
    InsertPlaced(a, chains, key, token, interval, target);
    assert Listed(a, chains[cur], cur);
    InsertAhead(a, chains[cur], pos, trail, key, token, interval, target, s == cur);
    forall v | v in trail
      ensures Recorded(a.Insert(key, token, interval, target), v)
    {
      InsertRecorded(a, v, key, token, interval, target);
    }
  }

  lemma DropTracked<T>(a: Agenda<T>, chains: seq<seq<nat>>, pos: nat, trail: seq<Visit>, key: nat, i: nat)
    requires |chains| == a.slots > 0 && Placed(a, chains) && key in a.live
    requires Tracked(a, chains, pos, trail)
    requires var chain := chains[a.live[key].target % a.slots]; i < |chain| && chain[i] == key
    ensures var s := a.live[key].target % a.slots;
            var chains' := chains[s := Without(chains[s], i)];
            Placed(a.Drop(key), chains')
            && Tracked(a.Drop(key), chains', CursorWithout(pos, s == a.tick % a.slots, i), trail)
  {
    DropPlaced(a, chains, key, i);
  }

  lemma VisitAhead<T>(a: Agenda<T>, chain: seq<nat>, s: nat, pos: nat, trail: seq<Visit>, v: Visit)
    requires a.slots > 0 && Listed(a, chain, s) && pos < |chain|
    requires AheadIsFresh(a, chain, pos, trail)
    requires v.tick == a.tick && v.stamp == a.live[chain[pos]].stamp
    ensures AheadIsFresh(a, chain, pos + 1, trail + [v])
  {
  }

  lemma VisitOrdered<T>(a: Agenda<T>, chain: seq<nat>, pos: nat, trail: seq<Visit>, v: Visit)
    requires a.slots > 0 && pos < |chain| && forall i :: 0 <= i < |chain| ==> chain[i] in a.live
    requires AheadIsFresh(a, chain, pos, trail) && Ordered(trail)
    requires forall w :: w in trail ==> w.tick <= a.tick
    requires v.tick == a.tick && v.stamp == a.live[chain[pos]].stamp
    ensures Ordered(trail + [v])
  {
    forall i | 0 <= i < |trail|
      ensures Later(trail[i], v)
    {
      assert trail[i] in trail;
    }
  }

  /** Looking at the entry under the cursor and moving past it. */
  lemma VisitTracked<T>(a: Agenda<T>, chains: seq<seq<nat>>, pos: nat, next: nat, trail: seq<Visit>)
    requires a.WellTimed() && InStep(a, chains, pos, next) && pos < |chains[a.tick % a.slots]|
    requires Tracked(a, chains, pos, trail)
    ensures next in a.live
    ensures Tracked(a, chains, pos + 1, trail + [Visit(a.tick, a.live[next].stamp, a.live[next].target)])
  {
    var s := a.tick % a.slots;
    assert Listed(a, chains[s], s);
    var v := Visit(a.tick, a.live[next].stamp, a.live[next].target);
    VisitAhead(a, chains[s], s, pos, trail, v);
    forall w | w in trail
      ensures w.tick <= a.tick && (w.stamp == v.stamp ==> w.target == v.target)
    {
      assert Recorded(a, w);
    }
    VisitOrdered(a, chains[s], pos, trail, v);
    assert Recorded(a, v);
    assert forall w :: w in trail + [v] ==> w in trail || w == v;
  }

  lemma AdvanceTracked<T>(a: Agenda<T>, chains: seq<seq<nat>>, pos: nat, trail: seq<Visit>)
    requires |chains| == a.slots > 0 && Placed(a, chains)
    requires Tracked(a, chains, pos, trail)
    ensures Placed(a.PassTo(a.tick), chains) && Tracked(a.PassTo(a.tick), chains, 0, trail)
  {
    forall s | 0 <= s < |chains|
      ensures Listed(a.PassTo(a.tick), chains[s], s)
    {
      assert Listed(a, chains[s], s);
    }
  }

  /** How many visits there were to one entry from tick `from` on, up to and including tick `to`. */
  function Visits(trail: seq<Visit>, stamp: nat, from: nat, to: nat): nat {
    if trail == [] then 0
    else
      var v := trail[|trail| - 1];
      Visits(trail[..|trail| - 1], stamp, from, to) + if v.stamp == stamp && from <= v.tick <= to then 1 else 0
  }

  /** A scan from one tick to another looks at an entry at most once a rotation: the quotient below
      is the number of ticks scanned divided by the number of slots, rounded up. */
  lemma VisitsAreRare<T>(a: Agenda<T>, chains: seq<seq<nat>>, pos: nat, trail: seq<Visit>,
                         stamp: nat, from: nat, to: nat)
    requires |chains| == a.slots > 0 && Placed(a, chains) && Tracked(a, chains, pos, trail)
    requires from <= to
    ensures Visits(trail, stamp, from, to) <= (to - from) / a.slots + 1
  {
    if Visits(trail, stamp, from, to) > 0 {
      var r := if v :| v in trail && v.stamp == stamp then v.target % a.slots else 0;
      forall v | v in trail && v.stamp == stamp
        ensures v.tick % a.slots == r
      {
        assert Recorded(a, v);
      }
      var last := LastVisit(trail, stamp, from, to, a.slots, r);
      QuotientAtLeast(to - from, Visits(trail, stamp, from, to) - 1, a.slots);
    }
  }

  /** The last of several visits is as many rotations late. */
  lemma {:induction false} LastVisit(trail: seq<Visit>, stamp: nat, from: nat, to: nat, slots: nat, r: nat)
    returns (last: nat)
    requires slots > 0 && Ordered(trail) && Visits(trail, stamp, from, to) > 0
    requires forall v :: v in trail && v.stamp == stamp ==> v.tick % slots == r
    ensures last < |trail| && trail[last].stamp == stamp && trail[last].tick <= to
    ensures (Visits(trail, stamp, from, to) - 1) * slots <= trail[last].tick - from
  {
    var n := |trail| - 1;
    var v, before := trail[n], Visits(trail[..n], stamp, from, to);
    if v.stamp == stamp && from <= v.tick <= to {
      last := n;
      if before > 0 {
        var prior := LastVisit(trail[..n], stamp, from, to, slots, r);
        assert Later(trail[prior], v);
        CongruentsAreApart(trail[prior].tick, v.tick, slots);
        assert before * slots == (before - 1) * slots + slots;
      }
    } else {
      last := LastVisit(trail[..n], stamp, from, to, slots, r);
    }
  }
}
