/** The wheel as one value, and what each of its steps does to it. */
module Wheels {
  import opened Agendas
  import opened Chains
  import opened Scans
  import opened Trails

  /** The chains of the slots, the cursor's position in the current one, and the visits so far. */
  datatype Layout = Layout(chains: seq<seq<nat>>, pos: nat, trail: seq<Visit>)

  /** The lists, the cursor and the agenda agree. */
  ghost predicate Consistent<T>(cells: map<nat, Entry<T>>, wheel: seq<nat>, next: nat, a: Agenda<T>, l: Layout) {
    && |wheel| == a.slots > 0
    && a.WellTimed()
    && Mirrors(cells, a.live)
    && Threaded(cells, wheel, l.chains)
    && InStep(a, l.chains, l.pos, next)
    && Tracked(a, l.chains, l.pos, l.trail)
  }

  /** The parts of `Consistent` that the methods of the timer use themselves. */
  lemma ConsistentShape<T>(cells: map<nat, Entry<T>>, wheel: seq<nat>, next: nat, a: Agenda<T>, l: Layout)
    requires Consistent(cells, wheel, next, a, l)
    ensures |wheel| == a.slots == |l.chains| > 0 && cells.Keys == a.live.Keys
  {
  }

  lemma ConsistentIsTimed<T>(cells: map<nat, Entry<T>>, wheel: seq<nat>, next: nat, a: Agenda<T>, l: Layout)
    requires Consistent(cells, wheel, next, a, l)
    ensures a.WellTimed()
  {
  }

  lemma EntryMirrors<T>(cells: map<nat, Entry<T>>, wheel: seq<nat>, next: nat, a: Agenda<T>, l: Layout, key: nat)
    requires Consistent(cells, wheel, next, a, l) && key in cells
    ensures key in a.live
    ensures cells[key].token == a.live[key].token && cells[key].interval == a.live[key].interval
    ensures cells[key].link.tick == a.live[key].target
  {
  }

  function WithFront<T>(l: Layout, a: Agenda<T>, key: nat, target: nat): Layout
    requires a.slots == |l.chains| > 0
  {
    var s := target % a.slots;
    Layout(l.chains[s := [key] + l.chains[s]], if s == a.tick % a.slots then l.pos + 1 else l.pos, l.trail)
  }

  lemma InsertConsistent<T>(cells: map<nat, Entry<T>>, wheel: seq<nat>, next: nat, a: Agenda<T>, l: Layout,
                            key: nat, e: Entry<T>)
    requires Consistent(cells, wheel, next, a, l)
    requires key !in cells && key != EMPTY
    requires e.link.prev == EMPTY && e.link.next == wheel[e.link.tick % |wheel|]
    ensures e.link.next != EMPTY ==> e.link.next in cells
    ensures Consistent(Linked(cells, key, e), wheel[e.link.tick % |wheel| := key], next,
                       a.Insert(key, e.token, e.interval, e.link.tick), WithFront(l, a, key, e.link.tick))
  {
    LinkedIsThreaded(cells, wheel, l.chains, key, e);
    InsertIsWellTimed(a, key, e.token, e.interval, e.link.tick);
    InsertInStep(a, l.chains, l.pos, next, key, e.token, e.interval, e.link.tick);
    InsertTracked(a, l.chains, l.pos, l.trail, key, e.token, e.interval, e.link.tick);
    MirrorsWith(cells, a, key, e);
    assert |WithFront(l, a, key, e.link.tick).chains| == a.slots;
  }

  lemma MirrorsWith<T>(cells: map<nat, Entry<T>>, a: Agenda<T>, key: nat, e: Entry<T>)
    requires Mirrors(cells, a.live) && a.slots > 0 && key !in cells
    requires e.link.next != EMPTY ==> e.link.next in cells
    ensures Mirrors(Linked(cells, key, e), a.Insert(key, e.token, e.interval, e.link.tick).live)
  {
  }

  /** Where a live key is in its chain. */
  ghost predicate IsAt<T>(a: Agenda<T>, l: Layout, key: nat, i: nat)
    requires a.slots == |l.chains| > 0 && key in a.live
  {
    var chain := l.chains[a.live[key].target % a.slots];
    i < |chain| && chain[i] == key
  }

  lemma SomewhereInChain<T>(cells: map<nat, Entry<T>>, wheel: seq<nat>, next: nat, a: Agenda<T>, l: Layout,
                            key: nat) returns (i: nat)
    requires Consistent(cells, wheel, next, a, l) && key in cells
    ensures a.slots == |l.chains| > 0 && key in a.live && IsAt(a, l, key, i)
  {
    var chain := l.chains[a.live[key].target % a.slots];
    i :| 0 <= i < |chain| && chain[i] == key;
  }

  function WithoutKey<T>(l: Layout, a: Agenda<T>, key: nat, i: nat): Layout
    requires a.slots == |l.chains| > 0 && key in a.live
    requires i < |l.chains[a.live[key].target % a.slots]|
  {
    var s := a.live[key].target % a.slots;
    Layout(l.chains[s := Without(l.chains[s], i)], CursorWithout(l.pos, s == a.tick % a.slots, i), l.trail)
  }

  /** What `unlink` needs to know of a link. */
  ghost predicate Detachable<T>(cells: map<nat, Entry<T>>, link: EntryLink, key: nat) {
    && (link.prev != EMPTY ==> link.prev in cells && link.prev != key)
    && (link.next != EMPTY ==> link.next in cells && link.next != key)
  }

  lemma DropConsistent<T>(cells: map<nat, Entry<T>>, wheel: seq<nat>, next: nat, a: Agenda<T>, l: Layout,
                          key: nat, i: nat)
    requires Consistent(cells, wheel, next, a, l) && key in a.live && IsAt(a, l, key, i)
    ensures var link := cells[key].link;
            && Detachable(cells, link, key)
            && Unlinked(cells, link) - {key} == Unlinked(cells - {key}, link)
            && Consistent(Unlinked(cells - {key}, link),
                          if link.prev == EMPTY then wheel[link.tick % |wheel| := link.next] else wheel,
                          if key == next then link.next else next,
                          a.Drop(key), WithoutKey(l, a, key, i))
  {
    ChainOfSlot(cells, wheel, l.chains, cells[key].link.tick % |wheel|, i);
    Neighbours(cells, wheel, l.chains, key, i);
    UnlinkedIsThreaded(cells, wheel, l.chains, key, i);
    DropInStep(a, l.chains, l.pos, next, key, i);
    DropTracked(a, l.chains, l.pos, l.trail, key, i);
    StepsAreWellTimed(a, 0, key);
    MirrorsWithout(cells, a, cells[key].link, key);
  }

  lemma MirrorsWithout<T>(cells: map<nat, Entry<T>>, a: Agenda<T>, link: EntryLink, key: nat)
    requires Mirrors(cells, a.live) && Detachable(cells, link, key)
    ensures Mirrors(Unlinked(cells - {key}, link), a.Drop(key).live)
    ensures Unlinked(cells, link) - {key} == Unlinked(cells - {key}, link)
  {
  }

  function AtNextTick(l: Layout): Layout { l.(pos := 0) }

  /** At the end of the current chain the cursor goes to the start of the next slot's. */
  lemma AdvanceConsistent<T>(cells: map<nat, Entry<T>>, wheel: seq<nat>, next: nat, a: Agenda<T>, l: Layout)
    requires Consistent(cells, wheel, next, a, l) && next == EMPTY
    ensures a.Quiet(a.tick)
    ensures Consistent(cells, wheel, wheel[(a.tick + 1) % |wheel|], a.PassTo(a.tick), AtNextTick(l))
  {
    ChainOfSlot(cells, wheel, l.chains, a.tick % |wheel|, l.pos);
    ChainOfSlot(cells, wheel, l.chains, (a.tick + 1) % |wheel|, 0);
    AdvanceInStep(a, l.chains, l.pos, next);
    AdvanceTracked(a, l.chains, l.pos, l.trail);
  }

  /** The entry under the cursor is looked at. */
  function Seen<T>(l: Layout, a: Agenda<T>, next: nat): Layout
    requires next in a.live
  {
    l.(trail := l.trail + [Visit(a.tick, a.live[next].stamp, a.live[next].target)])
  }

  /** How many entries of the current chain are still ahead. */
  function Ahead<T>(l: Layout, a: Agenda<T>): int {
    if a.slots == |l.chains| > 0 then |l.chains[a.tick % a.slots]| - l.pos else 0
  }

  lemma UnderCursor<T>(cells: map<nat, Entry<T>>, wheel: seq<nat>, next: nat, a: Agenda<T>, l: Layout)
    requires Consistent(cells, wheel, next, a, l) && next != EMPTY
    ensures next in a.live && next in cells && IsAt(a, l, next, l.pos)
    ensures cells[next].link.tick % |wheel| == a.tick % a.slots && Ahead(l, a) > 0
  {
    ChainOfSlot(cells, wheel, l.chains, a.tick % |wheel|, l.pos);
  }

  /** The entry is not ripe: the cursor moves on. */
  lemma PassConsistent<T>(cells: map<nat, Entry<T>>, wheel: seq<nat>, next: nat, a: Agenda<T>, l: Layout)
    requires Consistent(cells, wheel, next, a, l) && next != EMPTY
    requires next in cells && a.tick < cells[next].link.tick
    ensures Ahead(l, a) > 0
    ensures Consistent(cells, wheel, cells[next].link.next, a, Seen(l, a, next).(pos := l.pos + 1))
  {
    UnderCursor(cells, wheel, next, a, l);
    Neighbours(cells, wheel, l.chains, next, l.pos);
    VisitTracked(a, l.chains, l.pos, next, l.trail);
    PassInStep(a, l.chains, l.pos, next);
  }

  /** The entry is ripe: it is the first of all live items, and taking it out keeps the wheel. */
  lemma FireConsistent<T>(cells: map<nat, Entry<T>>, wheel: seq<nat>, next: nat, a: Agenda<T>, l: Layout, now: nat)
    requires Consistent(cells, wheel, next, a, l) && next != EMPTY && a.tick <= now
    requires next in cells && cells[next].link.tick <= a.tick
    ensures IsAt(a, l, next, l.pos) && a.First(now, next) && a.live[next].due == a.tick
    ensures var link := cells[next].link;
            && Detachable(cells, link, next)
            && Unlinked(cells, link) - {next} == Unlinked(cells - {next}, link)
            && Consistent(Unlinked(cells - {next}, link),
                          if link.prev == EMPTY then wheel[link.tick % |wheel| := link.next] else wheel,
                          link.next, a.Fire(next), WithoutKey(Seen(l, a, next), a, next, l.pos))
  {
    UnderCursor(cells, wheel, next, a, l);
    RipeIsFirst(a, l.chains, l.pos, next, now);
    DropConsistent(cells, wheel, next, a, l, next, l.pos);
    VisitTracked(a, l.chains, l.pos, next, l.trail);
    DropTracked(a, l.chains, l.pos + 1, Seen(l, a, next).trail, next, l.pos);
    assert a.Fire(next) == a.Drop(next);
  }
}
