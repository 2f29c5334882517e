/** The slots of the wheel as doubly linked lists threaded through the slab. */
module Chains {

  /** The key that stands for no entry. */
  const EMPTY: nat := 0xFFFF_FFFF_FFFF_FFFF

  datatype EntryLink = EntryLink(tick: nat, prev: nat, next: nat)

  datatype Entry<T> = Entry(token: T, interval: nat, link: EntryLink)

  /** The key at a position of a chain, and EMPTY just outside it. */
  function At(chain: seq<nat>, i: int): nat {
    if 0 <= i < |chain| then chain[i] else EMPTY
  }

  /** `chain` is the list that starts at `head`: its links lead forwards and backwards through
      distinct entries, all of slot `slot`. */
  ghost predicate IsChain<T>(cells: map<nat, Entry<T>>, head: nat, chain: seq<nat>, slot: nat, slots: nat)
    requires slots > 0
  {
    && head == At(chain, 0)
    && (forall i :: 0 <= i < |chain| ==> LinkedAt(cells, chain, i, slot, slots))
    && (forall i, j :: 0 <= i < j < |chain| ==> chain[i] != chain[j])
  }

  ghost predicate LinkedAt<T>(cells: map<nat, Entry<T>>, chain: seq<nat>, i: nat, slot: nat, slots: nat)
    requires slots > 0 && i < |chain|
  {
    && chain[i] in cells && chain[i] != EMPTY
    && cells[chain[i]].link.tick % slots == slot
    && cells[chain[i]].link.prev == At(chain, i - 1)
    && cells[chain[i]].link.next == At(chain, i + 1)
  }

  /** Each slot holds a chain, and each entry is in the chain of its own slot. */
  ghost predicate Threaded<T>(cells: map<nat, Entry<T>>, wheel: seq<nat>, chains: seq<seq<nat>>) {
    && |wheel| == |chains| > 0
    && (forall s :: 0 <= s < |wheel| ==> IsChain(cells, wheel[s], chains[s], s, |wheel|))
    && (forall k :: k in cells ==> k in chains[cells[k].link.tick % |wheel|])
  }

  /** Puts a new entry in front of the chain of its slot. */
  function Linked<T>(cells: map<nat, Entry<T>>, key: nat, e: Entry<T>): map<nat, Entry<T>>
    requires e.link.next != EMPTY ==> e.link.next in cells
  {
    var head := e.link.next;
    if head != EMPTY then
      cells[key := e][head := cells[head].(link := cells[head].link.(prev := key))]
    else
      cells[key := e]
  }

  lemma LinkedIsThreaded<T>(cells: map<nat, Entry<T>>, wheel: seq<nat>, chains: seq<seq<nat>>, key: nat, e: Entry<T>)
    requires Threaded(cells, wheel, chains)
    requires key !in cells && key != EMPTY
    requires e.link.prev == EMPTY && e.link.next == wheel[e.link.tick % |wheel|]
    ensures e.link.next != EMPTY ==> e.link.next in cells
    ensures var s := e.link.tick % |wheel|;
            Threaded(Linked(cells, key, e), wheel[s := key], chains[s := [key] + chains[s]])
  {
    var s := e.link.tick % |wheel|;
    assert IsChain(cells, wheel[s], chains[s], s, |wheel|);
    assert |chains[s]| > 0 ==> LinkedAt(cells, chains[s], 0, s, |wheel|);
    var cells', wheel', chains' := Linked(cells, key, e), wheel[s := key], chains[s := [key] + chains[s]];
    forall r | 0 <= r < |wheel|
      ensures IsChain(cells', wheel'[r], chains'[r], r, |wheel|)
    {
      assert IsChain(cells, wheel[r], chains[r], r, |wheel|);
      if r == s {
        LinkedChain(cells, chains[s], s, |wheel|, key, e);
      } else {
        forall i | 0 <= i < |chains[r]|
          ensures LinkedAt(cells', chains'[r], i, r, |wheel|)
        {
          assert LinkedAt(cells, chains[r], i, r, |wheel|);
        }
      }
    }
    forall k | k in cells'
      ensures k in chains'[cells'[k].link.tick % |wheel|]
    {
      if k == key {
        assert chains'[s][0] == key;
      } else {
        var r := cells[k].link.tick % |wheel|;
        assert k in chains[r] && cells'[k].link.tick == cells[k].link.tick;
        if r == s {
          var i :| 0 <= i < |chains[s]| && chains[s][i] == k;
          assert chains'[s][i + 1] == k;
        }
      }
    }
  }

  lemma LinkedChain<T>(cells: map<nat, Entry<T>>, chain: seq<nat>, s: nat, slots: nat, key: nat, e: Entry<T>)
    requires slots > 0 && IsChain(cells, e.link.next, chain, s, slots)
    requires key !in cells && key != EMPTY && e.link.prev == EMPTY && e.link.tick % slots == s
    requires e.link.next != EMPTY ==> e.link.next in cells
    ensures IsChain(Linked(cells, key, e), key, [key] + chain, s, slots)
  {
    var cells', chain' := Linked(cells, key, e), [key] + chain;
    assert |chain| > 0 ==> LinkedAt(cells, chain, 0, s, slots);
    forall i | 0 <= i < |chain'|
      ensures LinkedAt(cells', chain', i, s, slots) && (i > 0 ==> chain'[i] != key)
    {
      if i > 0 {
        assert LinkedAt(cells, chain, i - 1, s, slots);
        assert chain'[i] == chain[i - 1];
        assert i > 1 ==> chain'[i] != e.link.next;
      }
    }
  }

  function Without(chain: seq<nat>, i: nat): (rest: seq<nat>)
    requires i < |chain|
    ensures |rest| == |chain| - 1
    ensures forall j :: 0 <= j < |rest| ==> rest[j] == chain[if j < i then j else j + 1]
  {
    chain[..i] + chain[i + 1..]
  }

  /** The neighbours of `link` now point past it; the entry itself is gone. */
  function Unlinked<T>(cells: map<nat, Entry<T>>, link: EntryLink): map<nat, Entry<T>>
    requires link.prev != EMPTY ==> link.prev in cells
    requires link.next != EMPTY ==> link.next in cells
  {
    var c := if link.prev == EMPTY then cells
             else cells[link.prev := cells[link.prev].(link := cells[link.prev].link.(next := link.next))];
    if link.next == EMPTY then c
    else c[link.next := c[link.next].(link := c[link.next].link.(prev := link.prev))]
  }

  /** Only links change. */
  lemma UnlinkedKeeps<T>(cells: map<nat, Entry<T>>, link: EntryLink, key: nat)
    requires link.prev != EMPTY ==> link.prev in cells
    requires link.next != EMPTY ==> link.next in cells
    ensures Unlinked(cells, link).Keys == cells.Keys
    ensures key in cells ==> Unlinked(cells, link)[key].token == cells[key].token
                             && Unlinked(cells, link)[key].interval == cells[key].interval
  {
  }

  /** The links of an entry name its neighbours in the chain. */
  lemma Neighbours<T>(cells: map<nat, Entry<T>>, wheel: seq<nat>, chains: seq<seq<nat>>, key: nat, i: nat)
    requires Threaded(cells, wheel, chains) && key in cells
    requires var chain := chains[cells[key].link.tick % |wheel|]; i < |chain| && chain[i] == key
    ensures var chain, link := chains[cells[key].link.tick % |wheel|], cells[key].link;
            && link.prev == At(chain, i - 1) && link.next == At(chain, i + 1)
            && (link.prev != EMPTY ==> link.prev in cells && link.prev != key)
            && (link.next != EMPTY ==> link.next in cells && link.next != key)
  {
    var s := cells[key].link.tick % |wheel|;
    assert IsChain(cells, wheel[s], chains[s], s, |wheel|);
    assert LinkedAt(cells, chains[s], i, s, |wheel|);
    assert i > 0 ==> LinkedAt(cells, chains[s], i - 1, s, |wheel|);
    assert i + 1 < |chains[s]| ==> LinkedAt(cells, chains[s], i + 1, s, |wheel|);
  }

  /** Where a slot's chain begins, and that its keys are entries of the slot. */
  lemma ChainOfSlot<T>(cells: map<nat, Entry<T>>, wheel: seq<nat>, chains: seq<seq<nat>>, s: nat, i: nat)
    requires Threaded(cells, wheel, chains) && s < |wheel|
    ensures wheel[s] == At(chains[s], 0)
    ensures i < |chains[s]| ==>
              chains[s][i] in cells && chains[s][i] != EMPTY && cells[chains[s][i]].link.tick % |wheel| == s
  {
    assert IsChain(cells, wheel[s], chains[s], s, |wheel|);
    assert i < |chains[s]| ==> LinkedAt(cells, chains[s], i, s, |wheel|);
  }

  lemma UnlinkedIsThreaded<T>(cells: map<nat, Entry<T>>, wheel: seq<nat>, chains: seq<seq<nat>>, key: nat, i: nat)
    requires Threaded(cells, wheel, chains) && key in cells
    requires var chain := chains[cells[key].link.tick % |wheel|]; i < |chain| && chain[i] == key
    requires var link := cells[key].link;
             && (link.prev != EMPTY ==> link.prev in cells && link.prev != key)
             && (link.next != EMPTY ==> link.next in cells && link.next != key)
    ensures var link := cells[key].link;
            var s := link.tick % |wheel|;
            Threaded(Unlinked(cells - {key}, link),
                     if link.prev == EMPTY then wheel[s := link.next] else wheel,
                     chains[s := Without(chains[s], i)])
  {
    var link := cells[key].link;
    var s := link.tick % |wheel|;
    var chain := chains[s];
    assert IsChain(cells, wheel[s], chain, s, |wheel|);
    assert LinkedAt(cells, chain, i, s, |wheel|);
    assert i > 0 ==> LinkedAt(cells, chain, i - 1, s, |wheel|);
    assert i + 1 < |chain| ==> LinkedAt(cells, chain, i + 1, s, |wheel|);
    var cells' := Unlinked(cells - {key}, link);
    var wheel' := if link.prev == EMPTY then wheel[s := link.next] else wheel;
    var chains' := chains[s := Without(chain, i)];
    forall r | 0 <= r < |wheel|
      ensures IsChain(cells', wheel'[r], chains'[r], r, |wheel|)
    {
      assert IsChain(cells, wheel[r], chains[r], r, |wheel|);
      if r == s {
        UnlinkedChain(cells, wheel[s], chain, s, |wheel|, i);
      } else {
        forall j | 0 <= j < |chains[r]|
          ensures LinkedAt(cells', chains'[r], j, r, |wheel|)
        {
          assert LinkedAt(cells, chains[r], j, r, |wheel|);
        }
      }
    }
    forall k | k in cells'
      ensures k in chains'[cells'[k].link.tick % |wheel|]
    {
      var r := cells[k].link.tick % |wheel|;
      assert k in chains[r];
      if r == s {
        var j :| 0 <= j < |chain| && chain[j] == k;
        assert chains'[s][if j < i then j else j - 1] == k;
      }
    }
  }

  lemma UnlinkedChain<T>(cells: map<nat, Entry<T>>, head: nat, chain: seq<nat>, s: nat, slots: nat, i: nat)
    requires slots > 0 && IsChain(cells, head, chain, s, slots)
    requires i < |chain| && chain[i] in cells
    requires var link := cells[chain[i]].link;
             && (link.prev != EMPTY ==> link.prev in cells && link.prev != chain[i])
             && (link.next != EMPTY ==> link.next in cells && link.next != chain[i])
    ensures var link := cells[chain[i]].link;
            IsChain(Unlinked(cells - {chain[i]}, link), if link.prev == EMPTY then link.next else head,
                    Without(chain, i), s, slots)
  {
    var link := cells[chain[i]].link;
    var cells' := Unlinked(cells - {chain[i]}, link);
    var chain' := Without(chain, i);
    assert LinkedAt(cells, chain, i, s, slots);
    assert i > 0 ==> LinkedAt(cells, chain, i - 1, s, slots);
    assert i + 1 < |chain| ==> LinkedAt(cells, chain, i + 1, s, slots);
    forall j | 0 <= j < |chain'|
      ensures LinkedAt(cells', chain', j, s, slots)
    {
      var was := if j < i then j else j + 1;
      assert LinkedAt(cells, chain, was, s, slots);
      assert chain'[j] == chain[was];
    }
  }
}
