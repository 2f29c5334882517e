/** A slab: values stored under small keys that are reused once their value is removed.
    Which vacant key an insertion takes is left open. */
module Slabs {

  datatype Slab<T> = Slab(cells: map<nat, T>, top: nat) {

    /** Every key in use was handed out earlier, so it lies below `top`. */
    ghost predicate Valid() {
      forall k :: k in cells ==> k < top
    }

    /** An insertion reuses a vacant key if there is one and extends the slab otherwise. */
    predicate Offers(key: nat) {
      key !in cells && (key < top || (key == top && |cells| == top))
    }

    function Put(key: nat, value: T): Slab<T>
      requires Offers(key)
    {
      Slab(cells[key := value], if key < top then top else top + 1)
    }

    function Set(key: nat, value: T): Slab<T>
      requires key in cells
    {
      Slab(cells[key := value], top)
    }

    function Remove(key: nat): Slab<T> {
      Slab(cells - {key}, top)
    }
  }

  function Empty<T>(): Slab<T> { Slab(map[], 0) }

  /** A set of naturals below `n` has at most `n` members, and exactly `n` if and only if it has them all. */
  lemma {:induction false} CardinalityBelow(s: set<nat>, n: nat)
    requires forall k :: k in s ==> k < n
    ensures |s| <= n
    ensures |s| == n <==> forall k: nat :: k < n ==> k in s
  {
    if n > 0 {
      var t := s - {n - 1};
      assert n - 1 in s ==> s == t + {n - 1};
      assert n - 1 !in s ==> s == t;
      CardinalityBelow(t, n - 1);
      assert (forall k: nat :: k < n ==> k in s) ==> forall k: nat :: k < n - 1 ==> k in t;
    } else {
      assert s == {};
    }
  }

  /** Insertion always finds a key. */
  lemma SomeKeyIsOffered<T>(s: Slab<T>)
    requires s.Valid()
    ensures |s.cells| <= s.top
    ensures exists key: nat :: s.Offers(key)
  {
    CardinalityBelow(s.cells.Keys, s.top);
    if |s.cells| == s.top {
      assert s.Offers(s.top);
    } else {
      var k: nat :| k < s.top && k !in s.cells.Keys;
      assert s.Offers(k);
    }
  }

  /** While a slab never holds more than `cap` values, every key it hands out is below `cap`. */
  lemma OfferedKeyBelowCapacity<T>(s: Slab<T>, cap: nat, key: nat, value: T)
    requires s.Valid() && s.top <= cap && |s.cells| < cap && s.Offers(key)
    ensures key < cap && s.Put(key, value).Valid() && s.Put(key, value).top <= cap
    ensures |s.Put(key, value).cells| == |s.cells| + 1
  {
  }

  /** Picks the key of the next insertion. */
  method Reserve<T>(s: Slab<T>) returns (key: nat)
    requires s.Valid()
    ensures s.Offers(key)
  {
    SomeKeyIsOffered(s);
    if |s.cells| == s.top {
      key := s.top;
    } else {
      CardinalityBelow(s.cells.Keys, s.top);
      key :| 0 <= key < s.top && key !in s.cells;
    }
  }
}
