/** How any number of producers hand messages to one sleeping loop. */
module Wakeups {

  /** `Stop` ends a drain early; any other message carries who sent it. */
  datatype Message = Stop | Any(from: nat, body: nat)

  /** Where the loop is: about to look whether messages wait, polling (if nothing waited it may block),
      receiving, handling timers, or done. */
  datatype Pc = Check | Polling(block: bool) | Receiving | Timers | Stopped

  /** `notifiers` are the senders that exist, `waking` those that have sent and not yet woken the loop.
      `sent` and `handled` are the histories of all messages. */
  datatype World = World(pc: Pc, running: bool, queue: seq<Message>, latch: bool,
                         notifiers: set<nat>, waking: set<nat>, sent: seq<Message>, handled: seq<Message>)

  datatype Event =
    | Send(from: nat, msg: Message)
    | Wake(waker: nat)
    | Clone(of: nat, copy: nat)
    | DropNotifier(gone: nat)
    | Look
    | PollReturns(seen: bool, shuts: bool)
    | Receive(shutdown: bool)
    | Nothing
    | Fire(shut: bool)

  ghost predicate Initial(w: World) {
    w.pc.Check? && w.running && w.queue == [] && !w.latch && w.waking == {} && w.sent == [] && w.handled == []
  }

  /** Sending and waking are two steps of a producer, so anything can happen in between. A blocked poll
      may also return for a timeout or for an event of a socket; the latch is reset only when the wake
      event is among those reported. A handler of a socket event, of a message or of a timer may shut the
      loop down. */
  ghost predicate Step(w: World, e: Event, w': World) {
    match e
    case Send(p, m) =>
      && p in w.notifiers && p !in w.waking
      && w' == w.(queue := w.queue + [m], sent := w.sent + [m], waking := w.waking + {p})
    case Wake(p) =>
      p in w.waking && w' == w.(latch := true, waking := w.waking - {p})
    case Clone(p, q) =>
      p in w.notifiers && q !in w.notifiers && w' == w.(notifiers := w.notifiers + {q})
    case DropNotifier(p) =>
      p in w.notifiers && p !in w.waking && w' == w.(notifiers := w.notifiers - {p})
    case Look =>
      w.pc.Check? && w' == w.(pc := Polling(w.queue == []))
    case PollReturns(seen, shutdown) =>
      && w.pc.Polling? && (seen ==> w.latch)
      && w' == w.(pc := Receiving, latch := w.latch && !seen, running := w.running && !shutdown)
    case Receive(shutdown) =>
      && w.pc.Receiving? && w.queue != []
      && w' == w.(queue := w.queue[1..], handled := w.handled + [w.queue[0]], running := w.running && !shutdown,
                  pc := if w.queue[0].Stop? then Timers else Receiving)
    case Nothing =>
      && w.pc.Receiving? && w.queue == []
      && w' == w.(pc := Timers, running := w.running && w.notifiers != {})
    case Fire(shutdown) =>
      && w.pc.Timers?
      && var running := w.running && !shutdown;
         w' == w.(running := running, pc := if running then Check else Stopped)
  }

  ghost predicate Sound(w: World) {
    && w.handled + w.queue == w.sent
    && w.waking <= w.notifiers
    && (w.pc == Polling(true) && w.queue != [] ==> w.latch || w.waking != {})
    && (w.pc.Check? || w.pc.Polling? ==> w.running)
    && (w.pc.Stopped? ==> !w.running)
  }

  lemma StepIsSound(w: World, e: Event, w': World)
    requires Sound(w) && Step(w, e, w')
    ensures Sound(w')
  {
    if e.Send? {
      assert (w.handled + w.queue) + [e.msg] == w.handled + (w.queue + [e.msg]);
      assert e.from in w'.waking;
    } else if e.Receive? {
      assert w.queue == [w.queue[0]] + w.queue[1..];
      assert w.handled + ([w.queue[0]] + w.queue[1..]) == (w.handled + [w.queue[0]]) + w.queue[1..];
    }
  }

  ghost predicate IsRun(run: seq<World>, events: seq<Event>) {
    && |run| == |events| + 1 && Initial(run[0])
    && forall i :: 0 <= i < |events| ==> Step(run[i], events[i], run[i + 1])
  }

  lemma {:induction false} RunIsSound(run: seq<World>, events: seq<Event>, j: nat)
    requires IsRun(run, events) && j < |run|
    ensures Sound(run[j])
  {
    if j > 0 {
      RunIsSound(run, events, j - 1);
      StepIsSound(run[j - 1], events[j - 1], run[j]);
    }
  }

  /** No wake-up is lost: while the loop is committed to a poll that may block and messages wait,
      either the latch is set or some producer is about to set it. */
  lemma NoLostWakeup(run: seq<World>, events: seq<Event>, j: nat)
    requires IsRun(run, events) && j < |run|
    requires run[j].pc == Polling(true) && run[j].queue != []
    ensures run[j].latch || exists p :: p in run[j].waking
  {
    RunIsSound(run, events, j);
  }

  /** When everything is quiet, with the loop in a poll that may block, no wake-up pending and no
      producer in the middle of a notification, every message ever sent has been handled. */
  lemma QuietMeansHandled(run: seq<World>, events: seq<Event>, j: nat)
    requires IsRun(run, events) && j < |run|
    requires run[j].pc == Polling(true) && !run[j].latch && run[j].waking == {}
    ensures run[j].queue == [] && run[j].handled == run[j].sent
  {
    RunIsSound(run, events, j);
    assert run[j].handled + [] == run[j].handled;
  }

  /** The messages of one producer. */
  function From(msgs: seq<Message>, p: nat): seq<Message> {
    if msgs == [] then []
    else
      var n := |msgs| - 1;
      if msgs[n].Any? && msgs[n].from == p then From(msgs[..n], p) + [msgs[n]] else From(msgs[..n], p)
  }

  lemma {:induction false} FromOfConcat(a: seq<Message>, b: seq<Message>, p: nat)
    ensures From(a + b, p) == From(a, p) + From(b, p)
  {
    if b == [] {
      assert a + b == a;
    } else {
      var n := |b| - 1;
      FromOfConcat(a, b[..n], p);
      assert (a + b)[..|a| + n] == a + b[..n];
    }
  }

  /** The messages that are sent by these events. */
  ghost function Sends(events: seq<Event>): seq<Message> {
    if events == [] then []
    else
      var n := |events| - 1;
      if events[n].Send? then Sends(events[..n]) + [events[n].msg] else Sends(events[..n])
  }

  /** From `w` to `w'`, what was handled and what waits grows by what is sent, and nothing else. */
  ghost predicate Accounted(w: World, w': World, events: seq<Event>) {
    && w'.sent == w.sent + Sends(events)
    && w.handled <= w'.handled && w'.handled + w'.queue == w.handled + w.queue + Sends(events)
  }

  lemma StepAccounts(w: World, was: World, events: seq<Event>, e: Event, w': World)
    requires Accounted(w, was, events) && Step(was, e, w')
    ensures Accounted(w, w', events + [e])
  {
    assert (events + [e])[..|events|] == events;
    if e.Send? {
      var sends := Sends(events);
      assert (was.handled + was.queue) + [e.msg] == was.handled + (was.queue + [e.msg]);
      assert (w.handled + w.queue + sends) + [e.msg] == w.handled + w.queue + (sends + [e.msg]);
      assert (w.sent + sends) + [e.msg] == w.sent + (sends + [e.msg]);
    } else if e.Receive? {
      assert was.queue == [was.queue[0]] + was.queue[1..];
      assert was.handled + ([was.queue[0]] + was.queue[1..]) == (was.handled + [was.queue[0]]) + was.queue[1..];
    }
  }

  lemma NothingAccounts(w: World)
    ensures Accounted(w, w, [])
  {
  }

  lemma {:induction false} RunAccounts(run: seq<World>, events: seq<Event>, j: nat)
    requires IsRun(run, events) && j < |run|
    ensures Accounted(run[0], run[j], events[..j])
  {
    hide Step, Accounted;
    if j > 0 {
      RunAccounts(run, events, j - 1);
      assert Step(run[j - 1], events[j - 1], run[j]);
      StepAccounts(run[0], run[j - 1], events[..j - 1], events[j - 1], run[j]);
      assert events[..j - 1] + [events[j - 1]] == events[..j];
    } else {
      NothingAccounts(run[0]);
    }
  }

  /** Messages are conserved: at any time those handled and those that wait are all that producers have
      sent, in the order in which they were sent, and so are those of each producer. */
  lemma MessagesAreConserved(run: seq<World>, events: seq<Event>, j: nat, p: nat)
    requires IsRun(run, events) && j < |run|
    ensures run[j].sent == Sends(events[..j])
    ensures run[j].handled + run[j].queue == Sends(events[..j])
    ensures From(run[j].handled, p) + From(run[j].queue, p) == From(Sends(events[..j]), p)
  {
    RunAccounts(run, events, j);
    FromOfConcat(run[j].handled, run[j].queue, p);
    assert [] + Sends(events[..j]) == Sends(events[..j]) && run[0].handled + run[0].queue == [];
  }

  /** A look at the queue commits the loop to a poll that may block exactly if nothing waits. */
  lemma LookCommits(w: World, e: Event, w': World)
    requires Step(w, e, w') && w'.pc.Polling? && w.pc != w'.pc
    ensures e.Look? && (w'.pc.block <==> w.queue == [])
  {
  }

  /** The race is real: a message can come in after the look, so that a loop is committed to a blocking
      poll with a message waiting and the latch not set. Then the producer is about to wake it. */
  lemma MessageAfterLook(p: nat, m: Message) returns (run: seq<World>, events: seq<Event>)
    ensures IsRun(run, events) && |run| == 3
    ensures run[2].pc == Polling(true) && run[2].queue == [m] && !run[2].latch && run[2].waking == {p}
  {
    var w := World(Check, true, [], false, {p}, {}, [], []);
    var w1 := w.(pc := Polling(true));
    var w2 := w1.(queue := [m], sent := [m], waking := {p});
    run, events := [w, w1, w2], [Look, Send(p, m)];
    assert w1.queue + [m] == [m] && w1.sent + [m] == [m] && w1.waking + {p} == {p};
  }

  /** The step asks the loop to end: a handler shuts it down, or no sender is left. */
  ghost predicate AsksToEnd(w: World, e: Event) {
    match e
    case PollReturns(_, shuts) => shuts
    case Receive(shutdown) => shutdown
    case Fire(shut) => shut
    case Nothing => w.notifiers == {}
    case _ => false
  }

  /** The loop runs exactly until it is asked to end, and it stops only then. */
  lemma {:induction false} RunsUntilAsked(run: seq<World>, events: seq<Event>, j: nat)
    requires IsRun(run, events) && j < |run|
    ensures run[j].running <==> forall i :: 0 <= i < j ==> !AsksToEnd(run[i], events[i])
    ensures run[j].pc.Stopped? ==> !run[j].running
  {
    RunIsSound(run, events, j);
    if j > 0 {
      RunsUntilAsked(run, events, j - 1);
      assert Step(run[j - 1], events[j - 1], run[j]);
      assert run[j].running <==> run[j - 1].running && !AsksToEnd(run[j - 1], events[j - 1]);
    }
  }

  /** The steps that the loop takes by itself. A poll that may block ends by itself only if the wake-up
      has come. */
  ghost predicate LoopStep(w: World, e: Event, w': World) {
    && Step(w, e, w')
    && (e.Look? || e.PollReturns? || e.Receive? || e.Nothing? || e.Fire?)
    && (e.PollReturns? && w.pc == Polling(true) ==> w.latch)
  }

  /** How many steps the loop is away from receiving. */
  function Distance(w: World): nat {
    match w.pc
    case Receiving => 0
    case Polling(_) => 1
    case Check => 2
    case Timers => 3
    case Stopped => 4
  }

  /** The loop never gets stuck on waiting messages. It can always go on by itself unless it has been
      shut down or a producer has yet to wake it, and each of its steps handles the first message,
      comes nearer to handling it, or shuts the loop down. */
  lemma WaitingMessagesAreReached(run: seq<World>, events: seq<Event>, j: nat)
    requires IsRun(run, events) && j < |run| && run[j].queue != [] && !run[j].pc.Stopped?
    ensures run[j].waking == {} ==> exists e, w' :: LoopStep(run[j], e, w')
    ensures forall e, w' :: LoopStep(run[j], e, w') ==>
              || w'.handled == run[j].handled + [run[j].queue[0]]
              || (w'.queue == run[j].queue && w'.handled == run[j].handled && Distance(w') < Distance(run[j]))
              || (w'.pc.Stopped? && !w'.running)
  {
    RunIsSound(run, events, j);
    var w := run[j];
    if w.waking == {} {
      match w.pc
      case Check =>
        assert LoopStep(w, Look, w.(pc := Polling(w.queue == [])));
      case Polling(_) =>
        assert LoopStep(w, PollReturns(false, false), w.(pc := Receiving, latch := w.latch && !false,
                                                                    running := w.running && !false));
      case Receiving =>
        assert LoopStep(w, Receive(false), w.(queue := w.queue[1..], handled := w.handled + [w.queue[0]],
                                              running := w.running && !false,
                                              pc := if w.queue[0].Stop? then Timers else Receiving));
      case Timers =>
        var running := w.running && !false;
        assert LoopStep(w, Fire(false), w.(running := running, pc := if running then Check else Stopped));
    }
  }

  /** A path of steps from one state to another. */
  ghost predicate IsPath(path: seq<World>, events: seq<Event>) {
    && |path| == |events| + 1
    && forall i :: 0 <= i < |events| ==> Step(path[i], events[i], path[i + 1])
  }

  lemma Longer(path: seq<World>, events: seq<Event>, e: Event, w: World)
    requires |path| == |events| + 1 && IsPath(path, events) && Step(path[|events|], e, w)
    ensures IsPath(path + [w], events + [e])
  {
    var path', events' := path + [w], events + [e];
    forall i | 0 <= i < |events'|
      ensures Step(path'[i], events'[i], path'[i + 1])
    {
      if i < |events| {
        assert Step(path[i], events[i], path[i + 1]);
      }
    }
  }

  lemma NoSteps(w: World)
    ensures IsPath([w], [])
  {
  }

  lemma ReceiveSteps(w: World, shutdown: bool)
    requires w.pc.Receiving? && w.queue != []
    ensures Step(w, Receive(shutdown), w.(queue := w.queue[1..], handled := w.handled + [w.queue[0]],
                                          running := w.running && !shutdown,
                                          pc := if w.queue[0].Stop? then Timers else Receiving))
  {
  }

  lemma NothingSteps(w: World)
    requires w.pc.Receiving? && w.queue == []
    ensures Step(w, Nothing, w.(pc := Timers, running := w.running && w.notifiers != {}))
  {
  }

  /** No message from position `n` on makes its handler shut the loop down. */
  ghost predicate NoneShuts(msgs: seq<Message>, n: nat, shuts: Message -> bool) {
    forall i :: n <= i < |msgs| ==> !shuts(msgs[i])
  }

  lemma NoneShutsGrows(msgs: seq<Message>, n: nat, shuts: Message -> bool, m: Message)
    requires n <= |msgs|
    ensures NoneShuts(msgs, |msgs|, shuts)
    ensures NoneShuts(msgs + [m], n, shuts) <==> NoneShuts(msgs, n, shuts) && !shuts(m)
  {
    assert (msgs + [m])[|msgs|] == m;
    assert forall i :: 0 <= i < |msgs| ==> (msgs + [m])[i] == msgs[i];
  }

  /** What a producer does. It touches neither the loop nor what has been handled. */
  predicate ByProducer(e: Event) {
    e.Send? || e.Wake? || e.Clone? || e.DropNotifier?
  }

  /** Whether a producer can do this now. */
  predicate Enabled(w: World, e: Event)
    requires ByProducer(e)
  {
    match e
    case Send(p, _) => p in w.notifiers && p !in w.waking
    case Wake(p) => p in w.waking
    case Clone(p, q) => p in w.notifiers && q !in w.notifiers
    case DropNotifier(p) => p in w.notifiers && p !in w.waking
  }

  function Produced(w: World, e: Event): (w': World)
    requires ByProducer(e) && Enabled(w, e)
    ensures Step(w, e, w')
  {
    match e
    case Send(p, m) => w.(queue := w.queue + [m], sent := w.sent + [m], waking := w.waking + {p})
    case Wake(p) => w.(latch := true, waking := w.waking - {p})
    case Clone(p, q) => w.(notifiers := w.notifiers + {q})
    case DropNotifier(p) => w.(notifiers := w.notifiers - {p})
  }

  /** A turn of the receiving loop, or something that a producer wants to do between two turns. */
  datatype Slot = Turn | Producer(e: Event)

  /** The receiving loop of one step of the loop, among producers that go on sending meanwhile: `slots`
      says who comes next, and when it is used up the loop has all further turns. `shuts` says which
      messages make their handler shut the loop down. The loop handles everything up to the first Stop,
      or until it finds the queue empty, and then it ends if all notifiers are gone. Each turn is one
      step of the state machine. */
  method Drain(w: World, shuts: Message -> bool, slots: seq<Slot>)
    returns (w': World, ghost path: seq<World>, ghost events: seq<Event>)
    requires w.pc.Receiving?
    requires forall i :: 0 <= i < |slots| && slots[i].Producer? ==> ByProducer(slots[i].e)
    ensures |path| == |events| + 1 && IsPath(path, events) && path[0] == w && path[|events|] == w' && w'.pc.Timers?
    ensures Accounted(w, w', events)
    ensures forall i :: |w.handled| <= i < |w'.handled| - 1 ==> !w'.handled[i].Stop?
    ensures w'.queue != [] ==> |w.handled| < |w'.handled| && w'.handled[|w'.handled| - 1].Stop?
    ensures w'.running <==>
              && w.running && NoneShuts(w'.handled, |w.handled|, shuts)
              && (w'.notifiers != {} || (|w.handled| < |w'.handled| && w'.handled[|w'.handled| - 1].Stop?))
  {
    hide NoneShuts, IsPath, Step, Accounted;
    w', path, events := w, [w], [];
    NoSteps(w);
    NoneShutsGrows(w.handled, |w.handled|, shuts, Stop);
    NothingAccounts(w);
    var i := 0;
    while true
      invariant i <= |slots| && w'.pc.Receiving?
      invariant |path| == |events| + 1 && IsPath(path, events) && path[0] == w && path[|events|] == w'
      invariant Accounted(w, w', events) && |w.handled| <= |w'.handled|
      invariant forall i :: |w.handled| <= i < |w'.handled| ==> !w'.handled[i].Stop?
      invariant w'.running <==> w.running && NoneShuts(w'.handled, |w.handled|, shuts)
      decreases |slots| - i, |w'.queue|
    {
      ghost var was := w';
      if i < |slots| && slots[i].Producer? {
        var e := slots[i].e;
        i := i + 1;
        if Enabled(w', e) {
          w' := Produced(w', e);
          Longer(path, events, e, w');
          StepAccounts(w, was, events, e, w');
          path, events := path + [w'], events + [e];
        }
      } else if w'.queue != [] {
        i := if i < |slots| then i + 1 else i;
        var msg := w'.queue[0];
        w' := w'.(queue := w'.queue[1..], handled := w'.handled + [msg], running := w'.running && !shuts(msg),
                  pc := if msg.Stop? then Timers else Receiving);
        NoneShutsGrows(was.handled, |w.handled|, shuts, msg);
        ReceiveSteps(was, shuts(msg));
        Longer(path, events, Receive(shuts(msg)), w');
        StepAccounts(w, was, events, Receive(shuts(msg)), w');
        path, events := path + [w'], events + [Receive(shuts(msg))];
        if msg.Stop? {
          return;
        }
      } else {
        NothingSteps(was);
        w' := w'.(pc := Timers, running := w'.running && w'.notifiers != {});
        Longer(path, events, Nothing, w');
        StepAccounts(w, was, events, Nothing, w');
        path, events := path + [w'], events + [Nothing];
        return;
      }
    }
  }
}
