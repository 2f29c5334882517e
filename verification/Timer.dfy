/** The hashed timing wheel. */
module Timers {
  import opened Powers
  import opened Ticks
  import opened Slabs
  import opened Agendas
  import opened Chains
  import opened Trails
  import opened Wheels

  datatype TimerResult = Ok(timeout: Timeout) | Overflow

  /** The visits that were added to the trail happened from tick `from` to tick `to`. */
  ghost predicate Looked(was: seq<Visit>, trail: seq<Visit>, from: nat, to: nat) {
    && was <= trail
    && forall i :: |was| <= i < |trail| ==> from <= trail[i].tick <= to
  }

  lemma LookedOnce(was: seq<Visit>, trail: seq<Visit>, v: Visit, from: nat, to: nat)
    ensures Looked(trail, trail, from, to)
    ensures Looked(was, trail, from, to) && from <= v.tick <= to ==> Looked(was, trail + [v], from, to)
  {
  }

  /** The first scan of the target's slot that is yet to begin and not before the target. */
  ghost predicate IsFirstScan(slots: nat, tick: nat, target: nat, due: nat) {
    && slots > 0 && tick < due && target <= due && due % slots == target % slots
    && forall u: nat :: tick < u && target <= u && u % slots == target % slots ==> due <= u
  }

  lemma InsertedItem<T>(a: Agenda<T>, key: nat, token: T, interval: nat, target: nat)
    requires a.slots > 0
    ensures var due := EffectiveDue(a.slots, a.tick, target);
            && a.Insert(key, token, interval, target) ==
                 Agenda(a.slots, a.tick, a.stamps + 1, a.live[key := Item(token, interval, target, due, a.stamps)])
            && IsFirstScan(a.slots, a.tick, target, due)
  {
    EffectiveDueIsFirst(a.slots, a.tick, target);
  }

  class Timer<T> {
    const tickMs: nat
    const capacity: nat
    const mask: nat
    const wheel: array<nat>
    var entries: Slab<Entry<T>>
    var startMs: nat
    var tick: nat
    var next: nat

    ghost var agenda: Agenda<T>
    ghost var layout: Layout

    ghost predicate Valid()
      reads this, wheel
    {
      && capacity < EMPTY
      && IsPowerOfTwo(wheel.Length) && mask == wheel.Length - 1
      && entries.Valid() && entries.top <= capacity
      && agenda.tick == tick
      && Consistent(entries.cells, wheel[..], next, agenda, layout)
    }

    constructor (tickMs: nat, slots: nat, cap: nat)
      requires NextPowerOfTwo(cap) < EMPTY
      ensures Valid() && fresh(wheel)
      ensures this.tickMs == tickMs && wheel.Length == NextPowerOfTwo(slots) && capacity == NextPowerOfTwo(cap)
      ensures startMs == 0 && agenda == Agenda(NextPowerOfTwo(slots), 0, 0, map[]) && layout.trail == []
      ensures entries == Empty()
    {
      var n := NextPowerOfTwo(slots);
      this.tickMs := tickMs;
      capacity := NextPowerOfTwo(cap);
      entries := Empty();
      wheel := new nat[n](_ => EMPTY);
      startMs := 0;
      tick := 0;
      next := EMPTY;
      mask := n - 1;
      agenda := Agenda(n, 0, 0, map[]);
      layout := Layout(seq(n, _ => []), 0, []);
    }

    /** Fixes the time of tick 0. */
    method Setup(now: nat)
      requires Valid()
      modifies this`startMs
      ensures Valid() && startMs == now
    {
      startMs := now;
    }

    function SlotFor(tick: nat): (slot: nat)
      requires IsPowerOfTwo(wheel.Length) && mask == wheel.Length - 1
      ensures slot == tick % wheel.Length
    {
      MaskIsMod(tick, wheel.Length);
      BitAnd(tick, mask)
    }

    method TimeoutMs(now: nat, delay: nat, interval: nat, token: T) returns (r: TimerResult)
      requires Valid() && tickMs > 0 && startMs <= now
      modifies this, wheel
      ensures Valid() && startMs == old(startMs) && layout.trail == old(layout.trail)
      ensures Inserted(old(agenda), agenda, r, token, interval, TargetTick(startMs, tickMs, old(tick), now + delay))
      ensures Taken(old(entries), entries, r)
    {
      hide Consistent;
      r := TimeoutMsAt(now + delay, interval, token);
    }

    /** The tick stored is the first after the current one that does not begin before the time, unless the
        wheel has passed that time; then it is the tick after the first that does not begin before it. */
    method TimeoutMsAt(at: nat, interval: nat, token: T) returns (r: TimerResult)
      requires Valid() && tickMs > 0 && startMs <= at
      modifies this, wheel
      ensures Valid() && startMs == old(startMs) && layout.trail == old(layout.trail)
      ensures Inserted(old(agenda), agenda, r, token, interval, TargetTick(startMs, tickMs, old(tick), at))
      ensures Taken(old(entries), entries, r)
      ensures r.Ok? ==> at <= startMs + r.timeout.tick * tickMs
      ensures r.Ok? && old(tick) < r.timeout.tick ==>
                forall u: nat :: old(tick) < u && at <= startMs + u * tickMs ==> r.timeout.tick <= u
      ensures r.Ok? && r.timeout.tick <= old(tick) ==>
                var t := r.timeout.tick;
                && 0 < t && at <= startMs + (t - 1) * tickMs && (1 < t ==> startMs + (t - 2) * tickMs < at)
    {
      hide Consistent;
      var at' := at - startMs;
      var t := (at' + tickMs - 1) / tickMs;
      if t <= tick {
        t := t + 1;
      }
      TargetTickIsExact(startMs, tickMs, tick, at);
      r := Insert(token, t, interval);
    }

    /** An insertion fails exactly when the timer is full; otherwise it takes a free key, and the item is
        found at the first possible scan of its slot. */
    ghost predicate Inserted(was: Agenda<T>, now: Agenda<T>, r: TimerResult, token: T, interval: nat, target: nat)
    {
      match r
      case Overflow => |was.live| == capacity && now == was
      case Ok(h) =>
        && |was.live| < capacity && was.slots > 0
        && h.tick == target && h.key < capacity && h.key !in was.live
        && now == was.Insert(h.key, token, interval, target)
        && now.slots == was.slots && now.tick == was.tick && now.stamps == was.stamps + 1
        && now.live == was.live[h.key := Item(token, interval, target, now.live[h.key].due, was.stamps)]
        && IsFirstScan(was.slots, was.tick, target, now.live[h.key].due)
    }

    /** The key is one that the slab offers: a vacant one, or the next one if there is no vacant one. */
    ghost predicate Taken(was: Slab<Entry<T>>, now: Slab<Entry<T>>, r: TimerResult) {
      match r
      case Overflow => now == was
      case Ok(h) => was.Offers(h.key) && now.top == if h.key < was.top then was.top else was.top + 1
    }

    method Insert(token: T, t: nat, interval: nat) returns (r: TimerResult)
      requires Valid()
      modifies this, wheel
      ensures Valid() && startMs == old(startMs) && layout.trail == old(layout.trail)
      ensures Inserted(old(agenda), agenda, r, token, interval, t)
      ensures Taken(old(entries), entries, r)
    {
      hide Consistent, IsFirstScan, EffectiveDue;
      ConsistentShape(entries.cells, wheel[..], next, agenda, layout);
      var slot := SlotFor(t);
      var curr := wheel[slot];
      SomeKeyIsOffered(entries);
      assert entries.cells.Keys == agenda.live.Keys;
      if |entries.cells| == capacity {
        return Overflow;
      }
      var key := Reserve(entries);
      var e := Entry(token, interval, EntryLink(t, EMPTY, curr));
      OfferedKeyBelowCapacity(entries, capacity, key, e);
      InsertConsistent(entries.cells, wheel[..], next, agenda, layout, key, e);
      ghost var heads := wheel[..];
      entries := entries.Put(key, e);
      if curr != EMPTY {
        var head := entries.cells[curr];
        entries := entries.Set(curr, head.(link := head.link.(prev := key)));
      }
      wheel[slot] := key;
      assert wheel[..] == heads[slot := key];
      layout := WithFront(layout, agenda, key, t);
      InsertedItem(agenda, key, token, interval, t);
      agenda := agenda.Insert(key, token, interval, t);
      r := Ok(Timeout(key, t));
    }

    /** Cancels the item under the handle's key if it has the handle's tick. */
    method Clear(timeout: Timeout) returns (b: bool)
      requires Valid()
      modifies this, wheel
      ensures Valid() && startMs == old(startMs) && layout.trail == old(layout.trail)
      ensures b == old(agenda.Matches(timeout))
      ensures b <==> timeout.key in old(agenda).live && old(agenda).live[timeout.key].target == timeout.tick
      ensures agenda == if b then old(agenda).Drop(timeout.key) else old(agenda)
      ensures agenda == old(agenda).(live := if b then old(agenda).live - {timeout.key} else old(agenda).live)
      ensures entries.top == old(entries.top)
    {
      hide Consistent;
      ConsistentShape(entries.cells, wheel[..], next, agenda, layout);
      if timeout.key in entries.cells {
        EntryMirrors(entries.cells, wheel[..], next, agenda, layout, timeout.key);
        var e := entries.cells[timeout.key];
        if e.link.tick != timeout.tick {
          return false;
        }
      }
      if timeout.key in entries.cells {
        TakeOut(timeout.key);
        b := true;
      } else {
        b := false;
      }
    }

    /** Removes an entry from the slab and then takes it out of its list. */
    method TakeOut(key: nat)
      requires Valid() && key in entries.cells
      modifies this, wheel
      ensures Valid() && startMs == old(startMs) && layout.trail == old(layout.trail)
      ensures agenda == old(agenda).Drop(key) && entries.top == old(entries.top)
    {
      hide Consistent, Unlinked;
      ConsistentShape(entries.cells, wheel[..], next, agenda, layout);
      ghost var i := SomewhereInChain(entries.cells, wheel[..], next, agenda, layout, key);
      EntryMirrors(entries.cells, wheel[..], next, agenda, layout, key);
      DropConsistent(entries.cells, wheel[..], next, agenda, layout, key, i);
      var e := entries.cells[key];
      entries := entries.Remove(key);
      UnlinkedKeeps(entries.cells, e.link, key);
      Unlink(e.link, key);
      layout := WithoutKey(layout, agenda, key, i);
      agenda := agenda.Drop(key);
    }

    /** Takes `link` out of its list. Both call orders are covered: the entry of `key` may still be
        in the slab or may already have left it. */
    method Unlink(link: EntryLink, key: nat)
      requires IsPowerOfTwo(wheel.Length) && mask == wheel.Length - 1
      requires link.prev != EMPTY ==> link.prev in entries.cells
      requires link.next != EMPTY ==> link.next in entries.cells
      modifies this`entries, this`next, wheel
      ensures entries == old(entries).(cells := Unlinked(old(entries).cells, link))
      ensures wheel[..] ==
                if link.prev == EMPTY then old(wheel[..])[link.tick % wheel.Length := link.next] else old(wheel[..])
      ensures next == if key == old(next) then link.next else old(next)
    {
      var slot := SlotFor(link.tick);
      if link.prev == EMPTY {
        wheel[slot] := link.next;
      } else {
        var e := entries.cells[link.prev];
        entries := entries.Set(link.prev, e.(link := e.link.(next := link.next)));
      }
      if link.next != EMPTY {
        var e := entries.cells[link.next];
        entries := entries.Set(link.next, e.(link := e.link.(prev := link.prev)));
        if key == next {
          next := link.next;
        }
      } else if key == next {
        next := EMPTY;
      }
    }

    /** Takes out the ripe entry under the cursor. */
    method Trigger(curr: nat, link: EntryLink, ghost now: nat) returns (entry: Entry<T>)
      requires Valid() && curr == next != EMPTY && tick <= now
      requires curr in entries.cells && entries.cells[curr].link == link && link.tick <= tick
      modifies this, wheel
      ensures Valid() && startMs == old(startMs)
      ensures old(agenda).First(now, curr) && old(agenda).live[curr].due == old(tick)
      ensures entry.token == old(agenda).live[curr].token && entry.interval == old(agenda).live[curr].interval
      ensures agenda == old(agenda).Fire(curr) && entries.top == old(entries.top)
      ensures layout.trail == Seen(old(layout), old(agenda), curr).trail
      ensures layout.trail == old(layout).trail
                + [Visit(old(tick), old(agenda).live[curr].stamp, old(agenda).live[curr].target)]
    {
      hide Consistent, Unlinked;
      ConsistentShape(entries.cells, wheel[..], next, agenda, layout);
      EntryMirrors(entries.cells, wheel[..], next, agenda, layout, curr);
      FireConsistent(entries.cells, wheel[..], next, agenda, layout, now);
      UnlinkedKeeps(entries.cells, link, curr);
      Unlink(link, curr);
      entry := entries.cells[curr];
      entries := entries.Remove(curr);
      layout := WithoutKey(Seen(layout, agenda, curr), agenda, curr, layout.pos);
      agenda := agenda.Fire(curr);
    }

    /** Moves the wheel towards `now` and stops at the first item that is due. */
    method TickTo(now: nat) returns (r: Option<(T, nat)>, ghost key: nat, ghost looks: nat)
      requires Valid()
      modifies this, wheel
      ensures Valid() && startMs == old(startMs)
      ensures r.None? ==> old(agenda).Quiet(now) && agenda == old(agenda).PassTo(now)
      ensures r.None? ==>
        && (forall k :: k in old(agenda).live ==> now < old(agenda).live[k].due)
        && agenda == old(agenda).(tick := Max(old(tick), now + 1))
      ensures r.Some? ==>
        && old(agenda).First(now, key)
        && r.value == (old(agenda).live[key].token, old(agenda).live[key].interval)
        && agenda == old(agenda).Fire(key)
      ensures r.Some? ==>
        && var x := old(agenda).live[key];
        && x.due <= now
        && (forall k :: k in old(agenda).live && k != key ==>
              var y := old(agenda).live[k]; x.due < y.due || (x.due == y.due && y.stamp < x.stamp))
        && agenda == old(agenda).(live := old(agenda).live - {key}, tick := x.due)
      ensures entries.top == old(entries.top)
      ensures Looked(old(layout).trail, layout.trail, old(tick), now) && |layout.trail| == |old(layout).trail| + looks
    {
      hide Consistent, Looked;
      LookedOnce(layout.trail, layout.trail, Visit(0, 0, 0), tick, now);
      key, looks := 0, 0;
      while tick <= now
        invariant Valid() && startMs == old(startMs) && entries.top == old(entries.top)
        invariant agenda == old(agenda).(tick := tick) && old(tick) <= tick
        invariant tick == old(tick) || tick <= now + 1
        invariant Looked(old(layout).trail, layout.trail, old(tick), now)
        invariant |layout.trail| == |old(layout).trail| + looks
        decreases now + 1 - tick, Ahead(layout, agenda)
      {
        ConsistentShape(entries.cells, wheel[..], next, agenda, layout);
        var curr := next;
        if curr == EMPTY {
          AdvanceConsistent(entries.cells, wheel[..], next, agenda, layout);
          tick := tick + 1;
          next := wheel[SlotFor(tick)];
          agenda := agenda.PassTo(agenda.tick);
          layout := AtNextTick(layout);
        } else {
          UnderCursor(entries.cells, wheel[..], next, agenda, layout);
          var link := entries.cells[curr].link;
          looks := looks + 1;
          LookedOnce(old(layout).trail, layout.trail, Visit(tick, agenda.live[curr].stamp, agenda.live[curr].target),
                     old(tick), now);
          if link.tick <= tick {
            var entry := Trigger(curr, link, now);
            key := curr;
            return Some((entry.token, entry.interval)), key, looks;
          } else {
            PassConsistent(entries.cells, wheel[..], next, agenda, layout);
            next := link.next;
            layout := Seen(layout, agenda, curr).(pos := layout.pos + 1);
          }
        }
      }
      ConsistentIsTimed(entries.cells, wheel[..], next, agenda, layout);
      r := None;
    }

    lemma AgendaFits()
      requires Valid()
      ensures agenda.WellTimed() && |agenda.live| <= capacity && entries.cells.Keys == agenda.live.Keys
    {
      hide Consistent;
      ConsistentIsTimed(entries.cells, wheel[..], next, agenda, layout);
      ConsistentShape(entries.cells, wheel[..], next, agenda, layout);
      SomeKeyIsOffered(entries);
      assert entries.cells.Keys == agenda.live.Keys;
    }

    /** However often the wheel moves from tick `from` to tick `to`, and whatever is inserted and
        cancelled meanwhile, it looks at an entry at most once a rotation. */
    lemma VisitsAreBounded(stamp: nat, from: nat, to: nat)
      requires Valid() && from <= to
      ensures wheel.Length > 0
      ensures Visits(layout.trail, stamp, from, to) <= (to - from) / wheel.Length + 1
    {
      VisitsAreRare(agenda, layout.chains, layout.pos, layout.trail, stamp, from, to);
    }

    /** Milliseconds until the next tick begins; nothing to wait for without entries. */
    method NextTickInMs(now: nat) returns (r: Option<nat>)
      requires Valid()
      ensures r == NextTick(startMs, tickMs, tick, agenda.live == map[], now)
      ensures r == if agenda.live == map[] then None else Some(Max(now, startMs + (tick + 1) * tickMs) - now)
    {
      hide Consistent;
      ConsistentShape(entries.cells, wheel[..], next, agenda, layout);
      if |entries.cells| == 0 {
        assert entries.cells.Keys == {} == agenda.live.Keys;
        return None;
      }
      assert entries.cells.Keys != {} && agenda.live.Keys != {};
      var nxt := startMs + (tick + 1) * tickMs;
      if nxt <= now {
        return Some(0);
      }
      r := Some(nxt - now);
    }
  }
}
