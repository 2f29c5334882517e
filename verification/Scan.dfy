/** How the cursor inside the current slot keeps the wheel in step with the agenda. */
module Scans {
  import opened Agendas
  import opened Chains

  /** The slab holds exactly the live items of the agenda. */
  ghost predicate Mirrors<T>(cells: map<nat, Entry<T>>, live: map<nat, Item<T>>) {
    && cells.Keys == live.Keys
    && forall k :: k in cells ==>
         && cells[k].token == live[k].token && cells[k].interval == live[k].interval
         && cells[k].link.tick == live[k].target
  }

  /** The cursor stands at position `pos` of the current slot's chain. What is before it has been
      passed and waits for a later tick; what is due now is at or after it. */
  ghost predicate InStep<T>(a: Agenda<T>, chains: seq<seq<nat>>, pos: nat, next: nat) {
    && |chains| == a.slots > 0
    && Placed(a, chains)
    && CursorAt(a, chains[a.tick % a.slots], pos, next)
  }

  ghost predicate CursorAt<T>(a: Agenda<T>, chain: seq<nat>, pos: nat, next: nat)
    requires a.slots > 0 && forall i :: 0 <= i < |chain| ==> chain[i] in a.live
  {
    && pos <= |chain| && next == At(chain, pos)
    && (forall i :: 0 <= i < pos ==> a.tick < a.live[chain[i]].due)
    && (forall i :: pos <= i < |chain| ==>
          a.live[chain[i]].due == a.live[chain[i]].target || a.live[chain[i]].due < a.tick + a.slots)
  }

  /** Each live item is in the chain of its slot, and each chain lists its items from the youngest
      to the oldest. */
  ghost predicate Placed<T>(a: Agenda<T>, chains: seq<seq<nat>>)
    requires |chains| == a.slots > 0
  {
    && (forall s :: 0 <= s < |chains| ==> Listed(a, chains[s], s))
    && (forall k :: k in a.live ==> k in chains[a.live[k].target % a.slots])
  }

  ghost predicate Listed<T>(a: Agenda<T>, chain: seq<nat>, s: nat)
    requires a.slots > 0
  {
    && (forall i :: 0 <= i < |chain| ==> chain[i] in a.live && a.live[chain[i]].target % a.slots == s)
    && (forall i, j :: 0 <= i < j < |chain| ==> a.live[chain[j]].stamp < a.live[chain[i]].stamp)
  }

  /** The entry that is inserted gets the youngest stamp and goes in front. */
  lemma InsertListed<T>(a: Agenda<T>, chain: seq<nat>, s: nat, key: nat, token: T, interval: nat, target: nat)
    requires a.WellTimed() && key !in a.live && Listed(a, chain, s)
    ensures var a' := a.Insert(key, token, interval, target);
            Listed(a', chain, s) && (target % a.slots == s ==> Listed(a', [key] + chain, s))
  {
    var chain' := [key] + chain;
    assert forall i :: 0 < i < |chain'| ==> chain'[i] == chain[i - 1];
  }

  lemma InsertPlaced<T>(a: Agenda<T>, chains: seq<seq<nat>>, key: nat, token: T, interval: nat, target: nat)
    requires a.WellTimed() && |chains| == a.slots && Placed(a, chains) && key !in a.live
    ensures var s := target % a.slots;
            Placed(a.Insert(key, token, interval, target), chains[s := [key] + chains[s]])
  {
    var s := target % a.slots;
    var a', chains' := a.Insert(key, token, interval, target), chains[s := [key] + chains[s]];
    forall r | 0 <= r < |chains'|
      ensures Listed(a', chains'[r], r)
    {
      InsertListed(a, chains[r], r, key, token, interval, target);
    }
    forall k | k in a'.live
      ensures k in chains'[a'.live[k].target % a.slots]
    {
      if k == key {
        assert chains'[s][0] == key;
      } else if a.live[k].target % a.slots == s {
        var i :| 0 <= i < |chains[s]| && chains[s][i] == k;
        assert chains'[s][i + 1] == k;
      }
    }
  }

  lemma InsertAtCursor<T>(a: Agenda<T>, chain: seq<nat>, pos: nat, next: nat,
                          key: nat, token: T, interval: nat, target: nat, here: bool)
    requires a.WellTimed() && key !in a.live
    requires forall i :: 0 <= i < |chain| ==> chain[i] in a.live
    requires CursorAt(a, chain, pos, next)
    ensures var a', chain' := a.Insert(key, token, interval, target), if here then [key] + chain else chain;
            && (forall i :: 0 <= i < |chain'| ==> chain'[i] in a'.live)
            && CursorAt(a', chain', if here then pos + 1 else pos, next)
  {
    EffectiveDueIsFirst(a.slots, a.tick, target);
    assert here ==> forall i :: 0 < i <= |chain| ==> ([key] + chain)[i] == chain[i - 1];
  }

  /** If its chain is the current one, the new item lies before the cursor. */
  lemma InsertInStep<T>(a: Agenda<T>, chains: seq<seq<nat>>, pos: nat, next: nat,
                        key: nat, token: T, interval: nat, target: nat)
    requires a.WellTimed() && InStep(a, chains, pos, next) && key !in a.live
    ensures var s := target % a.slots;
            InStep(a.Insert(key, token, interval, target), chains[s := [key] + chains[s]],
                   if s == a.tick % a.slots then pos + 1 else pos, next)
  {
    var s, cur := target % a.slots, a.tick % a.slots;
    assert Listed(a, chains[cur], cur);
    InsertPlaced(a, chains, key, token, interval, target);
    InsertAtCursor(a, chains[cur], pos, next, key, token, interval, target, s == cur);
  }

  /** Position of the cursor once position `i` of a chain is gone. */
  function CursorWithout(pos: nat, current: bool, i: nat): nat {
    if current && i < pos then pos - 1 else pos
  }

  lemma DropListed<T>(a: Agenda<T>, chain: seq<nat>, s: nat, i: nat)
    requires a.slots > 0 && Listed(a, chain, s) && i < |chain|
    ensures Listed(a.Drop(chain[i]), Without(chain, i), s)
  {
    var rest := Without(chain, i);
    forall j | 0 <= j < |rest|
      ensures rest[j] != chain[i]
    {
      var was := if j < i then j else j + 1;
      assert a.live[chain[was]].stamp != a.live[chain[i]].stamp;
    }
  }

  lemma DropPlaced<T>(a: Agenda<T>, chains: seq<seq<nat>>, key: nat, i: nat)
    requires |chains| == a.slots > 0 && Placed(a, chains) && key in a.live
    requires var chain := chains[a.live[key].target % a.slots]; i < |chain| && chain[i] == key
    ensures var s := a.live[key].target % a.slots;
            Placed(a.Drop(key), chains[s := Without(chains[s], i)])
  {
    var s := a.live[key].target % a.slots;
    var a', chains' := a.Drop(key), chains[s := Without(chains[s], i)];
    forall r | 0 <= r < |chains'|
      ensures Listed(a', chains'[r], r)
    {
      assert Listed(a, chains[r], r);
      if r == s {
        DropListed(a, chains[s], s, i);
      }
    }
    forall k | k in a'.live
      ensures k in chains'[a'.live[k].target % a.slots]
    {
      assert k in chains[a.live[k].target % a.slots];
      if a.live[k].target % a.slots == s {
        var j :| 0 <= j < |chains[s]| && chains[s][j] == k;
        assert chains'[s][if j < i then j else j - 1] == k;
      }
    }
  }

  lemma DropBeforeCursor<T>(a: Agenda<T>, chain: seq<nat>, s: nat, pos: nat, next: nat, i: nat)
    requires a.slots > 0 && Listed(a, chain, s) && CursorAt(a, chain, pos, next) && i < |chain| && chain[i] != EMPTY
    ensures chain[i] == next <==> i == pos
    ensures var a', rest := a.Drop(chain[i]), Without(chain, i);
            && (forall j :: 0 <= j < |rest| ==> rest[j] in a'.live)
            && CursorAt(a', rest, CursorWithout(pos, true, i), if i == pos then At(chain, i + 1) else next)
  {
    DropListed(a, chain, s, i);
    if pos < |chain| && pos != i {
      assert a.live[chain[i]].stamp != a.live[chain[pos]].stamp;
    }
  }

  lemma DropInStep<T>(a: Agenda<T>, chains: seq<seq<nat>>, pos: nat, next: nat, key: nat, i: nat)
    requires InStep(a, chains, pos, next) && key in a.live && key != EMPTY
    requires var chain := chains[a.live[key].target % a.slots]; i < |chain| && chain[i] == key
    ensures var s := a.live[key].target % a.slots;
            InStep(a.Drop(key), chains[s := Without(chains[s], i)],
                   CursorWithout(pos, s == a.tick % a.slots, i),
                   if key == next then At(chains[s], i + 1) else next)
  {
    var s, cur := a.live[key].target % a.slots, a.tick % a.slots;
    DropPlaced(a, chains, key, i);
    assert Listed(a, chains[cur], cur);
    if s == cur {
      DropBeforeCursor(a, chains[s], s, pos, next, i);
    } else {
      DropElsewhere(a, chains[cur], cur, pos, next, key);
    }
  }

  lemma DropElsewhere<T>(a: Agenda<T>, chain: seq<nat>, s: nat, pos: nat, next: nat, key: nat)
    requires a.slots > 0 && Listed(a, chain, s) && CursorAt(a, chain, pos, next)
    requires key in a.live && key != EMPTY && a.live[key].target % a.slots != s
    ensures next != key
    ensures (forall j :: 0 <= j < |chain| ==> chain[j] in a.Drop(key).live) && CursorAt(a.Drop(key), chain, pos, next)
  {
    assert pos < |chain| ==> a.live[next].target % a.slots == s;
  }

  /** An entry at the cursor that is ripe is the first of all. */
  lemma RipeIsFirst<T>(a: Agenda<T>, chains: seq<seq<nat>>, pos: nat, next: nat, now: nat)
    requires a.WellTimed() && InStep(a, chains, pos, next) && a.tick <= now
    requires pos < |chains[a.tick % a.slots]|
    requires next in a.live && a.live[next].target <= a.tick
    ensures a.First(now, next) && a.live[next].due == a.tick
  {
    var chain := chains[a.tick % a.slots];
    var x := a.live[next];
    assert chain[pos] == next;
    assert x.due == a.tick by {
      if a.tick < x.due {
        CongruentsAreApart(a.tick, x.due, a.slots);
      }
    }
    forall k | k in a.live && k != next
      ensures Before(x, a.live[k])
    {
      if a.live[k].due == a.tick {
        var i :| 0 <= i < |chain| && chain[i] == k;
        assert pos < i;
      }
    }
  }

  /** An entry at the cursor that is not ripe is passed. */
  lemma PassInStep<T>(a: Agenda<T>, chains: seq<seq<nat>>, pos: nat, next: nat)
    requires a.WellTimed() && InStep(a, chains, pos, next)
    requires pos < |chains[a.tick % a.slots]|
    requires next in a.live && a.tick < a.live[next].target
    ensures InStep(a, chains, pos + 1, At(chains[a.tick % a.slots], pos + 1))
  {
  }

  /** At the end of the chain nothing is left that is due now. */
  lemma AdvanceInStep<T>(a: Agenda<T>, chains: seq<seq<nat>>, pos: nat, next: nat)
    requires a.WellTimed() && InStep(a, chains, pos, next)
    requires pos == |chains[a.tick % a.slots]|
    ensures a.Quiet(a.tick) && a.PassTo(a.tick).WellTimed()
    ensures InStep(a.PassTo(a.tick), chains, 0, At(chains[(a.tick + 1) % a.slots], 0))
  {
    assert Listed(a, chains[(a.tick + 1) % a.slots], (a.tick + 1) % a.slots);
  }
}
