/** All loops of a server over one shared table. */
module Servers {
  import opened Slabs
  import opened Routing
  import opened Dispatching

  /** A connection is handed to a loop, or a loop is told that one of its connections is gone. */
  datatype Order<F> =
    | Connect(loop: nat, conn: nat, setup: F)
    | Disconnect(from: nat, token: nat)

  ghost function States<M, F>(ds: seq<Dispatcher<M, F>>): (r: seq<LoopState>)
    reads ds
    ensures |r| == |ds| && forall i :: 0 <= i < |ds| ==> r[i] == ds[i].State()
  {
    if ds == [] then [] else States(ds[..|ds| - 1]) + [ds[|ds| - 1].State()]
  }

  /** The network that the loops and the table make up. */
  ghost function NetOf<M, F>(cap: nat, ds: seq<Dispatcher<M, F>>, shared: Shared): Net
    reads ds, shared
  {
    Net(cap, States(ds), shared.connToLoop)
  }

  /** Loop `i` of a server, which has never been full. */
  ghost predicate IsLoop<M, F>(d: Dispatcher<M, F>, cap: nat, i: nat, shared: Shared)
    reads d
  {
    && d.cap == cap && d.loop == i && d.offset == i * cap && d.shared == shared
    && d.room == cap && d.refused == [] && |d.localConnections.cells| <= cap
  }

  ghost predicate Serving<M, F>(ds: seq<Dispatcher<M, F>>, cap: nat, shared: Shared)
    reads ds, shared
  {
    && (forall i :: 0 <= i < |ds| ==> IsLoop(ds[i], cap, i, shared))
    && Routed(NetOf(cap, ds, shared))
  }

  lemma Distinct<M, F>(ds: seq<Dispatcher<M, F>>, cap: nat, shared: Shared)
    requires Serving(ds, cap, shared)
    ensures forall i, j :: 0 <= i < j < |ds| ==> ds[i] != ds[j]
  {
    forall i, j | 0 <= i < j < |ds|
      ensures ds[i] != ds[j]
    {
      assert IsLoop(ds[i], cap, i, shared) && IsLoop(ds[j], cap, j, shared);
    }
  }

  lemma LoopsAreServed<M, F>(ds: seq<Dispatcher<M, F>>, cap: nat, shared: Shared)
    requires Serving(ds, cap, shared)
    ensures var n := NetOf(cap, ds, shared);
            && WithinLimit(n)
            && forall i :: 0 <= i < |ds| ==>
                 && ds[i].localConnections.Valid() && ds[i].localConnections.top <= cap && ds[i].refused == []
                 && ds[i].offset == i * cap
  {
    assert forall i :: 0 <= i < |ds| ==> IsLoop(ds[i], cap, i, shared);
  }

  /** The network after both steps of adding a connection. */
  ghost function Added(n: Net, i: nat, key: nat, conn: nat): Net
    requires i < |n.loops| && n.loops[i].conns.Offers(key)
  {
    Net(n.cap, n.loops[i := LoopState(n.loops[i].conns.Put(key, conn), Idle)], n.shared[TokenOf(n.cap, i, key) := i])
  }

  lemma AddServes(n: Net, i: nat, key: nat, conn: nat) returns (n1: Net)
    requires Routed(n) && WithinLimit(n) && i < |n.loops| && n.loops[i].phase.Idle?
    requires |n.loops[i].conns.cells| < n.cap && n.loops[i].conns.Offers(key)
    ensures TokenOf(n.cap, i, key) !in n.shared
    ensures Step(n, BeginAdd(i, key, conn), n1) && Step(n1, Publish(i), Added(n, i, key, conn))
    ensures WithinLimit(n1) && WithinLimit(Added(n, i, key, conn)) && Routed(Added(n, i, key, conn))
  {
    n1 := AddIsTwoSteps(n, i, key, conn);
    StepKeepsRouted(n, BeginAdd(i, key, conn), n1);
    StepKeepsRouted(n1, Publish(i), Added(n, i, key, conn));
  }

  /** The network after both steps of removing one. */
  ghost function Removed(n: Net, i: nat, token: nat): Net
    requires i < |n.loops| && IsLive(n, i, token)
  {
    var key := RestoreKey(n.cap, i, token);
    Net(n.cap, n.loops[i := LoopState(n.loops[i].conns.Remove(key), Idle)], n.shared - {token})
  }

  lemma RemoveServes(n: Net, i: nat, token: nat) returns (n1: Net)
    requires Routed(n) && WithinLimit(n) && i < |n.loops| && n.loops[i].phase.Idle? && IsLive(n, i, token)
    ensures Step(n, BeginRemove(i, token), n1) && Step(n1, Retract(i), Removed(n, i, token))
    ensures WithinLimit(n1) && WithinLimit(Removed(n, i, token)) && Routed(Removed(n, i, token))
  {
    n1 := RemoveIsTwoSteps(n, i, token);
    StepKeepsRouted(n, BeginRemove(i, token), n1);
    StepKeepsRouted(n1, Retract(i), Removed(n, i, token));
  }

  /** A loop with a free place takes a connection in: two steps of the network, and no stream is refused. */
  method Accept<M, F>(ds: seq<Dispatcher<M, F>>, cap: nat, shared: Shared, i: nat, d: Dispatcher<M, F>,
                      conn: nat, setup: F)
    returns (token: nat, ghost key: nat, ghost n1: Net)
    requires Serving(ds, cap, shared) && i < |ds| && ds[i] == d && |d.localConnections.cells| < cap
    modifies d`localConnections, d`room, d`refused, d`greetings, shared
    ensures Serving(ds, cap, shared) && token == TokenOf(cap, i, key)
    ensures d.greetings == old(d.greetings) + [SetUp(token, setup), Established(token)]
    ensures Step(old(NetOf(cap, ds, shared)), BeginAdd(i, key, conn), n1)
    ensures Step(n1, Publish(i), NetOf(cap, ds, shared))
    ensures WithinLimit(n1) && WithinLimit(NetOf(cap, ds, shared))
  {
    hide Routed, Step, WithinLimit;
    ghost var n: Net := NetOf(cap, ds, shared);
    Distinct(ds, cap, shared);
    LoopsAreServed(ds, cap, shared);
    forall k | d.localConnections.Offers(k)
      ensures d.offset + k !in shared.connToLoop
    {
      var _ := AddServes(n, i, k, conn);
    }
    token, key := d.AddConnection(conn, setup);
    n1 := AddServes(n, i, key, conn);
    assert NetOf(cap, ds, shared) == Added(n, i, key, conn);
  }

  /** A loop drops a connection: two steps of the network. */
  method Drop<M, F>(ds: seq<Dispatcher<M, F>>, cap: nat, shared: Shared, i: nat, d: Dispatcher<M, F>,
                    token: nat) returns (ghost n1: Net)
    requires Serving(ds, cap, shared) && i < |ds| && ds[i] == d && d.Connected(token)
    modifies d`localConnections, shared
    ensures Serving(ds, cap, shared)
    ensures Step(old(NetOf(cap, ds, shared)), BeginRemove(i, token), n1) && Step(n1, Retract(i), NetOf(cap, ds, shared))
    ensures WithinLimit(n1) && WithinLimit(NetOf(cap, ds, shared))
  {
    hide Routed, Step, WithinLimit;
    ghost var n: Net := NetOf(cap, ds, shared);
    Distinct(ds, cap, shared);
    LoopsAreServed(ds, cap, shared);
    d.RemoveConnection(token);
    n1 := RemoveServes(n, i, token);
    assert NetOf(cap, ds, shared) == Removed(n, i, token);
  }

  lemma TwoLonger(run: seq<Net>, events: seq<Event>, n1: Net, n2: Net, e1: Event, e2: Event)
    requires IsRun(run, events) && (forall i :: 0 <= i < |run| ==> WithinLimit(run[i]))
    requires Step(run[|events|], e1, n1) && Step(n1, e2, n2) && WithinLimit(n1) && WithinLimit(n2)
    ensures var run', events' := run + [n1, n2], events + [e1, e2];
            IsRun(run', events') && forall i :: 0 <= i < |run'| ==> WithinLimit(run'[i])
  {
    hide Step, WithinLimit;
    var run', events' := run + [n1, n2], events + [e1, e2];
    forall i | 0 <= i < |events'|
      ensures Step(run'[i], events'[i], run'[i + 1])
    {
      if i < |events| {
        assert Step(run[i], events[i], run[i + 1]);
      }
    }
  }

  /** New loops with an empty table. */
  lemma ServingBegins<M, F>(ds: seq<Dispatcher<M, F>>, cap: nat, shared: Shared)
    requires shared.connToLoop == map[]
    requires forall i :: 0 <= i < |ds| ==> IsLoop(ds[i], cap, i, shared) && ds[i].localConnections == Empty()
    ensures Serving(ds, cap, shared) && IsRun([NetOf(cap, ds, shared)], []) && WithinLimit(NetOf(cap, ds, shared))
  {
    InitialIsRouted(NetOf(cap, ds, shared));
    LoopsAreServed(ds, cap, shared);
  }

  /** From step `b` to step `e` of the run exactly this order is carried out: a loop with a free place takes
      the connection in, and a loop with that connection drops it. Any other order is passed over. */
  ghost predicate Obeys<F>(run: seq<Net>, events: seq<Event>, order: Order<F>, b: nat, e: nat) {
    && b <= e <= |events| && |run| == |events| + 1
    && var n := run[b];
    match order
    case Connect(i, conn, _) =>
      if i < |n.loops| && |n.loops[i].conns.cells| < n.cap then
        && e == b + 2 && events[b].BeginAdd? && events[b].loop == i && events[b].conn == conn
        && events[b + 1] == Publish(i)
      else e == b
    case Disconnect(i, token) =>
      if i < |n.loops| && IsLive(n, i, token) then
        e == b + 2 && events[b] == BeginRemove(i, token) && events[b + 1] == Retract(i)
      else e == b
  }

  /** The orders up to now were carried out one after the other; order `k` took the steps from `at[k]` on. */
  ghost predicate AllObeyed<F>(run: seq<Net>, events: seq<Event>, orders: seq<Order<F>>, at: seq<nat>) {
    && |at| == |orders| + 1 && at[0] == 0 && at[|orders|] == |events|
    && forall k :: 0 <= k < |orders| ==> Obeys(run, events, orders[k], at[k], at[k + 1])
  }

  lemma OneMoreObeyed<F>(run: seq<Net>, events: seq<Event>, orders: seq<Order<F>>, at: seq<nat>,
                         run': seq<Net>, events': seq<Event>, order: Order<F>)
    requires AllObeyed(run, events, orders, at) && run <= run' && events <= events'
    requires |run| == |events| + 1 && |run'| == |events'| + 1
    requires Obeys(run', events', order, |events|, |events'|)
    ensures AllObeyed(run', events', orders + [order], at + [|events'|])
  {
    var orders', at' := orders + [order], at + [|events'|];
    forall k | 0 <= k < |orders'|
      ensures Obeys(run', events', orders'[k], at'[k], at'[k + 1])
    {
      if k < |orders| {
        assert Obeys(run, events, orders[k], at[k], at[k + 1]);
      }
    }
  }

  /** As many loops as the pool has, numbered from 0. */
  method Open<M, F>(cap: nat, size: nat) returns (ds: seq<Dispatcher<M, F>>, shared: Shared)
    ensures |ds| == size && shared.connToLoop == map[] && fresh(shared)
    ensures forall i :: 0 <= i < size ==>
              IsLoop(ds[i], cap, i, shared) && ds[i].localConnections == Empty() && fresh(ds[i])
  {
    shared := new Shared();
    ds := [];
    for i := 0 to size
      invariant |ds| == i && shared.connToLoop == map[] && fresh(shared)
      invariant forall j :: 0 <= j < i ==>
                  IsLoop(ds[j], cap, j, shared) && ds[j].localConnections == Empty() && fresh(ds[j])
    {
      var d: Dispatcher<M, F> := new Dispatcher(cap, i, shared);
      ds := ds + [d];
    }
  }

  /** A run of the network that has led to the present state, within the limit. */
  ghost predicate Reached<M, F>(run: seq<Net>, events: seq<Event>, ds: seq<Dispatcher<M, F>>, cap: nat, shared: Shared)
    reads ds, shared
  {
    && Serving(ds, cap, shared) && IsRun(run, events) && run[|events|] == NetOf(cap, ds, shared)
    && forall i :: 0 <= i < |run| ==> WithinLimit(run[i])
  }

  /** Carries out one order, or passes it over. */
  method Carry<M, F>(ds: seq<Dispatcher<M, F>>, cap: nat, shared: Shared, order: Order<F>,
                     ghost run: seq<Net>, ghost events: seq<Event>)
    returns (ghost run': seq<Net>, ghost events': seq<Event>)
    requires Reached(run, events, ds, cap, shared)
    modifies ds, shared
    ensures Reached(run', events', ds, cap, shared)
    ensures run <= run' && events <= events' && Obeys(run', events', order, |events|, |events'|)
  {
    hide Serving, WithinLimit, Step;
    run', events' := run, events;
    LoopsAreServed(ds, cap, shared);
    match order {
      case Connect(i, conn, setup) =>
        if i < |ds| && |ds[i].localConnections.cells| < cap {
          var token;
          ghost var key, n1;
          token, key, n1 := Accept(ds, cap, shared, i, ds[i], conn, setup);
          TwoLonger(run, events, n1, NetOf(cap, ds, shared), BeginAdd(i, key, conn), Publish(i));
          run' := run + [n1, NetOf(cap, ds, shared)];
          events' := events + [BeginAdd(i, key, conn), Publish(i)];
        }
      case Disconnect(i, token) =>
        if i < |ds| && ds[i].Connected(token) {
          ghost var n1 := Drop(ds, cap, shared, i, ds[i], token);
          TwoLonger(run, events, n1, NetOf(cap, ds, shared), BeginRemove(i, token), Retract(i));
          run' := run + [n1, NetOf(cap, ds, shared)];
          events' := events + [BeginRemove(i, token), Retract(i)];
        }
    }
  }

  /** Carries out any sequence of orders on a new server, one after the other. An order for a full loop, or
      for a connection that is not there, is passed over. What happens is a run of `Routing` in which every
      other order takes its two steps, and at the end the table maps exactly the tokens of the live
      connections to their loops; no stream was refused. */
  method Serve<M, F>(ds: seq<Dispatcher<M, F>>, cap: nat, shared: Shared, orders: seq<Order<F>>)
    returns (ghost run: seq<Net>, ghost events: seq<Event>, ghost at: seq<nat>)
    requires shared.connToLoop == map[]
    requires forall i :: 0 <= i < |ds| ==> IsLoop(ds[i], cap, i, shared) && ds[i].localConnections == Empty()
    modifies ds, shared
    ensures IsRun(run, events) && (forall i :: 0 <= i < |run| ==> WithinLimit(run[i]))
    ensures run[0] == old(NetOf(cap, ds, shared)) && run[|events|] == NetOf(cap, ds, shared)
    ensures AllObeyed(run, events, orders, at)
    ensures AtRest(NetOf(cap, ds, shared))
    ensures forall i :: 0 <= i < |ds| ==> ds[i].refused == []
  {
    hide Serving, IsRun, WithinLimit, Step, Obeys, AllObeyed, Reached;
    ServingBegins(ds, cap, shared);
    run, events, at := [NetOf(cap, ds, shared)], [], [0];
    NothingObeyed<F>(run);
    ReachedMeans(run, events, ds, cap, shared);
    for n := 0 to |orders|
      invariant Reached(run, events, ds, cap, shared) && [old(NetOf(cap, ds, shared))] <= run
      invariant AllObeyed(run, events, orders[..n], at)
    {
      ReachedMeans(run, events, ds, cap, shared);
      ghost var run', events' := Carry(ds, cap, shared, orders[n], run, events);
      ReachedMeans(run', events', ds, cap, shared);
      OneMoreObeyed(run, events, orders[..n], at, run', events', orders[n]);
      assert orders[..n] + [orders[n]] == orders[..n + 1];
      run, events, at := run', events', at + [|events'|];
    }
    assert orders[..|orders|] == orders;
    ReachedMeans(run, events, ds, cap, shared);
    TokensAreRouted(run, events, |events|, Publish(0));
    LoopsAreServed(ds, cap, shared);
  }

  lemma ReachedMeans<M, F>(run: seq<Net>, events: seq<Event>, ds: seq<Dispatcher<M, F>>, cap: nat, shared: Shared)
    ensures Reached(run, events, ds, cap, shared) <==>
              && Serving(ds, cap, shared) && IsRun(run, events) && |run| == |events| + 1
              && run[|events|] == NetOf(cap, ds, shared) && forall i :: 0 <= i < |run| ==> WithinLimit(run[i])
  {
  }

  lemma NothingObeyed<F>(run: seq<Net>)
    ensures AllObeyed<F>(run, [], [], [0])
  {
  }
}
