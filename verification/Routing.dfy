/** Many loops, each with its own connections, and one table that says which loop has which token. */
module Routing {
  import opened Powers
  import opened Slabs

  /** A loop is between messages, or has made a connection it has yet to enter into the table, or has
      dropped one that it has yet to strike out. */
  datatype Phase = Idle | Publishing(token: nat) | Retracting(gone: nat)

  datatype LoopState = LoopState(conns: Slab<nat>, phase: Phase)

  /** `cap` is the number of connections a loop may hold; loop `i` starts its tokens at `i * cap`. */
  datatype Net = Net(cap: nat, loops: seq<LoopState>, shared: map<nat, nat>)

  datatype Event =
    | BeginAdd(loop: nat, key: nat, conn: nat)
    | Publish(loop: nat)
    | BeginRemove(loop: nat, token: nat)
    | Retract(loop: nat)

  function TokenOf(cap: nat, loop: nat, key: nat): nat { loop * cap + key }

  function RestoreKey(cap: nat, loop: nat, token: nat): int { token - loop * cap }

  /** Entering a token that is in the table already is a panic. */
  ghost predicate Panics(n: Net, e: Event) {
    e.Publish? && e.loop < |n.loops| && n.loops[e.loop].phase.Publishing? && n.loops[e.loop].phase.token in n.shared
  }

  ghost predicate Step(n: Net, e: Event, n': Net) {
    && e.loop < |n.loops|
    && !Panics(n, e)
    && var l := n.loops[e.loop];
    match e
    case BeginAdd(i, key, conn) =>
      && l.phase.Idle? && l.conns.Offers(key)
      && n' == n.(loops := n.loops[i := LoopState(l.conns.Put(key, conn), Publishing(TokenOf(n.cap, i, key)))])
    case Publish(i) =>
      && l.phase.Publishing?
      && n' == n.(loops := n.loops[i := l.(phase := Idle)], shared := n.shared[l.phase.token := i])
    case BeginRemove(i, token) =>
      && var key := RestoreKey(n.cap, i, token);
      && l.phase.Idle? && 0 <= key && key in l.conns.cells
      && n' == n.(loops := n.loops[i := LoopState(l.conns.Remove(key), Retracting(token))])
    case Retract(i) =>
      && l.phase.Retracting?
      && n' == n.(loops := n.loops[i := l.(phase := Idle)], shared := n.shared - {l.phase.gone})
  }

  ghost predicate Initial(n: Net) {
    n.shared == map[] && forall i :: 0 <= i < |n.loops| ==> n.loops[i] == LoopState(Empty(), Idle)
  }

  /** The limit on connections, which the code reports but does not enforce. */
  ghost predicate WithinLimit(n: Net) {
    forall i :: 0 <= i < |n.loops| ==> |n.loops[i].conns.cells| <= n.cap
  }

  /** Token `token` is that of a key of loop `i`, and it is or should be in the table. */
  ghost predicate Entered(n: Net, i: nat, token: nat)
    requires i < |n.loops|
  {
    var key := RestoreKey(n.cap, i, token);
    || (0 <= key && key in n.loops[i].conns.cells && n.loops[i].phase != Publishing(token))
    || n.loops[i].phase == Retracting(token)
  }

  ghost predicate InPhase(n: Net, i: nat)
    requires i < |n.loops|
  {
    var l := n.loops[i];
    match l.phase
    case Idle => true
    case Publishing(token) => 0 <= RestoreKey(n.cap, i, token) && RestoreKey(n.cap, i, token) in l.conns.cells
    case Retracting(token) => 0 <= RestoreKey(n.cap, i, token) < n.cap && RestoreKey(n.cap, i, token) !in l.conns.cells
  }

  /** The table holds exactly the tokens that are entered, each with the loop that owns it. */
  ghost predicate Routed(n: Net) {
    && (forall i :: 0 <= i < |n.loops| ==> n.loops[i].conns.Valid() && n.loops[i].conns.top <= n.cap && InPhase(n, i))
    && (forall t :: t in n.shared ==> n.shared[t] < |n.loops| && Entered(n, n.shared[t], t))
    && (forall i, t: nat :: 0 <= i < |n.loops| && Entered(n, i, t) ==> t in n.shared && n.shared[t] == i)
  }

  /** Keys below the limit keep the tokens of different loops apart. */
  lemma TokensAreDisjoint(cap: nat, i: nat, j: nat, token: nat)
    requires 0 <= RestoreKey(cap, i, token) < cap && 0 <= RestoreKey(cap, j, token) < cap
    ensures i == j
  {
    DivModUnique(token, i, token - i * cap, cap);
    DivModUnique(token, j, token - j * cap, cap);
  }

  lemma EnteredBelowLimit(n: Net, i: nat, token: nat)
    requires Routed(n) && i < |n.loops| && (Entered(n, i, token) || n.loops[i].phase == Publishing(token))
    ensures 0 <= RestoreKey(n.cap, i, token) < n.cap
  {
    assert InPhase(n, i);
  }

  /** A token that is about to be entered is new: the panic cannot happen. */
  lemma NeverPanics(n: Net, e: Event)
    requires Routed(n)
    ensures !Panics(n, e)
  {
    if Panics(n, e) {
      var i, token := e.loop, n.loops[e.loop].phase.token;
      EnteredBelowLimit(n, i, token);
      EnteredBelowLimit(n, n.shared[token], token);
      TokensAreDisjoint(n.cap, i, n.shared[token], token);
      assert false;
    }
  }

  lemma StepKeepsLoops(n: Net, e: Event, n': Net)
    requires Routed(n) && Step(n, e, n') && WithinLimit(n')
    ensures n'.cap == n.cap && |n'.loops| == |n.loops|
    ensures forall i :: 0 <= i < |n'.loops| ==>
              n'.loops[i].conns.Valid() && n'.loops[i].conns.top <= n'.cap && InPhase(n', i)
  {
    assert InPhase(n, e.loop);
    if e.BeginAdd? {
      assert |n'.loops[e.loop].conns.cells| <= n.cap;
      assert n'.loops[e.loop].conns.cells == n.loops[e.loop].conns.cells[e.key := e.conn];
      OfferedKeyBelowCapacity(n.loops[e.loop].conns, n.cap, e.key, e.conn);
    }
    forall i | 0 <= i < |n'.loops|
      ensures n'.loops[i].conns.Valid() && n'.loops[i].conns.top <= n'.cap && InPhase(n', i)
    {
      assert InPhase(n, i);
    }
  }

  /** Every step of every loop keeps the table right, as long as no loop exceeds the limit. */
  lemma StepKeepsRouted(n: Net, e: Event, n': Net)
    requires Routed(n) && Step(n, e, n') && WithinLimit(n')
    ensures Routed(n')
  {
    StepKeepsLoops(n, e, n');
    forall i, t: nat | 0 <= i < |n'.loops| && Entered(n', i, t)
      ensures t in n'.shared && n'.shared[t] == i
    {
      StepEnters(n, e, n', i, t);
    }
    forall t | t in n'.shared
      ensures n'.shared[t] < |n'.loops| && Entered(n', n'.shared[t], t)
    {
      if t in n.shared {
        EnteredBelowLimit(n, n.shared[t], t);
      }
    }
  }

  lemma StepEnters(n: Net, e: Event, n': Net, i: nat, t: nat)
    requires Routed(n) && Step(n, e, n') && WithinLimit(n') && i < |n.loops| && Entered(n', i, t)
    requires |n'.loops| == |n.loops| && n'.cap == n.cap
    ensures t in n'.shared && n'.shared[t] == i
  {
    if Entered(n, i, t) {
      EnteredBelowLimit(n, i, t);
      match e
      case Publish(j) =>
        NeverPanics(n, e);
      case Retract(j) =>
        EnteredBelowLimit(n, j, n.loops[j].phase.gone);
      case _ =>
    } else {
      assert e.Publish? || e.BeginRemove?;
    }
  }

  ghost predicate IsRun(run: seq<Net>, events: seq<Event>) {
    && |run| == |events| + 1 && Initial(run[0])
    && forall i :: 0 <= i < |events| ==> Step(run[i], events[i], run[i + 1])
  }

  lemma InitialIsRouted(n: Net)
    requires Initial(n)
    ensures Routed(n)
  {
    forall i | 0 <= i < |n.loops|
      ensures n.loops[i].conns.Valid() && n.loops[i].conns.top <= n.cap && InPhase(n, i)
    {
      assert n.loops[i] == LoopState(Empty(), Idle);
    }
  }

  lemma {:induction false} RunIsRouted(run: seq<Net>, events: seq<Event>, j: nat)
    requires IsRun(run, events) && (forall i :: 0 <= i < |run| ==> WithinLimit(run[i])) && j < |run|
    ensures Routed(run[j])
  {
    if j > 0 {
      RunIsRouted(run, events, j - 1);
      assert WithinLimit(run[j]) && Step(run[j - 1], events[j - 1], run[j]);
      StepKeepsRouted(run[j - 1], events[j - 1], run[j]);
    } else {
      InitialIsRouted(run[0]);
    }
  }

  /** A loop below the limit may take in a connection under any key its slab offers: the token is new, and
      the two steps are the effect of `Dispatcher.AddConnection`. */
  lemma AddIsTwoSteps(n: Net, i: nat, key: nat, conn: nat) returns (n1: Net)
    requires Routed(n) && i < |n.loops| && n.loops[i].phase.Idle?
    requires |n.loops[i].conns.cells| < n.cap && n.loops[i].conns.Offers(key)
    ensures var token := TokenOf(n.cap, i, key);
            && token !in n.shared
            && Step(n, BeginAdd(i, key, conn), n1)
            && Step(n1, Publish(i), Net(n.cap, n.loops[i := LoopState(n.loops[i].conns.Put(key, conn), Idle)],
                                        n.shared[token := i]))
  {
    var l := n.loops[i];
    n1 := n.(loops := n.loops[i := LoopState(l.conns.Put(key, conn), Publishing(TokenOf(n.cap, i, key)))]);
    OfferedKeyBelowCapacity(l.conns, n.cap, key, conn);
    var token := TokenOf(n.cap, i, key);
    if token in n.shared {
      EnteredBelowLimit(n, n.shared[token], token);
      TokensAreDisjoint(n.cap, i, n.shared[token], token);
      assert false;
    }
  }

  /** And so is the effect of `Dispatcher.RemoveConnection`. */
  lemma RemoveIsTwoSteps(n: Net, i: nat, token: nat) returns (n1: Net)
    requires Routed(n) && i < |n.loops| && n.loops[i].phase.Idle?
    requires IsLive(n, i, token)
    ensures var key := RestoreKey(n.cap, i, token);
            && 0 <= key
            && Step(n, BeginRemove(i, token), n1)
            && Step(n1, Retract(i), Net(n.cap, n.loops[i := LoopState(n.loops[i].conns.Remove(key), Idle)],
                                        n.shared - {token}))
  {
    var key := RestoreKey(n.cap, i, token);
    n1 := n.(loops := n.loops[i := LoopState(n.loops[i].conns.Remove(key), Retracting(token))]);
  }

  /** The table is exactly the map from live tokens to owners. */
  ghost predicate AtRest(n: Net) {
    && (forall t :: t in n.shared ==> var i := n.shared[t]; i < |n.loops| && IsLive(n, i, t))
    && (forall i, t: nat :: 0 <= i < |n.loops| && IsLive(n, i, t) ==> t in n.shared && n.shared[t] == i)
  }

  ghost predicate IsLive(n: Net, i: nat, token: nat)
    requires i < |n.loops|
  {
    var key := RestoreKey(n.cap, i, token);
    0 <= key && key in n.loops[i].conns.cells
  }

  /** In a run that stays within the limit no token is ever dispatched twice, and whenever all loops
      are between messages the table maps exactly the tokens of the live connections to their loops. */
  lemma TokensAreRouted(run: seq<Net>, events: seq<Event>, j: nat, e: Event)
    requires IsRun(run, events) && (forall i :: 0 <= i < |run| ==> WithinLimit(run[i])) && j < |run|
    ensures !Panics(run[j], e)
    ensures (forall i :: 0 <= i < |run[j].loops| ==> run[j].loops[i].phase.Idle?) ==> AtRest(run[j])
  {
    RunIsRouted(run, events, j);
    NeverPanics(run[j], e);
    var n := run[j];
    if forall i :: 0 <= i < |n.loops| ==> n.loops[i].phase.Idle? {
      assert forall i, t: nat :: 0 <= i < |n.loops| ==> (IsLive(n, i, t) <==> Entered(n, i, t));
    }
  }

  /** Beyond the limit the tokens run into the next loop's. A loop that is full and accepts one more
      connection makes the token of its neighbour's first key, and panics exactly when that token is
      in the table. */
  lemma FullLoopCollides(n: Net, i: nat, key: nat, conn: nat, n': Net)
    requires Routed(n) && n.cap > 0 && i < |n.loops| && |n.loops[i].conns.cells| == n.cap
    requires Step(n, BeginAdd(i, key, conn), n')
    ensures n'.loops[i].phase == Publishing(TokenOf(n.cap, i + 1, 0))
    ensures Panics(n', Publish(i)) <==> i + 1 < |n.loops| && Entered(n, i + 1, TokenOf(n.cap, i + 1, 0))
  {
    CardinalityBelow(n.loops[i].conns.cells.Keys, n.loops[i].conns.top);
    var token := TokenOf(n.cap, i + 1, 0);
    assert (i + 1) * n.cap == i * n.cap + n.cap;
    if token in n.shared {
      EnteredBelowLimit(n, n.shared[token], token);
      TokensAreDisjoint(n.cap, i + 1, n.shared[token], token);
    }
  }
}
