/** Any sequence of calls on a timer is a run in the sense of `Runs`. */
module Sessions {
  import Powers
  import opened Ticks
  import opened Agendas
  import opened Chains
  import opened Wheels
  import opened Timers
  import opened Runs

  /** The calls a client can make. A handle is named by the number of insertions before its own and is
      given away by its use. */
  datatype Call<T> = TimeoutAt(at: nat, interval: nat, token: T) | Cancel(id: nat) | TickTo(now: nat)

  /** A run of the timer so far, ending in its present state. */
  ghost predicate Recorded<T>(run: seq<Book<T>>, ops: seq<Op<T>>, agenda: Agenda<T>, handles: map<nat, Timeout>) {
    IsRun(run, ops) && run[|run| - 1] == Book(agenda, handles)
  }

  lemma OneMore<T>(run: seq<Book<T>>, ops: seq<Op<T>>, agenda: Agenda<T>, handles: map<nat, Timeout>,
                   op: Op<T>, b: Book<T>)
    requires Recorded(run, ops, agenda, handles) && Step(Book(agenda, handles), op, b)
    ensures Recorded(run + [b], ops + [op], b.agenda, b.handles)
  {
    var run', ops' := run + [b], ops + [op];
    forall i | 0 <= i < |ops'|
      ensures Step(run'[i], ops'[i], run'[i + 1])
    {
      if i < |ops| {
        assert Step(run[i], ops[i], run[i + 1]);
      }
    }
  }

  /** What a timer is built with and started at. */
  datatype Setting = Setting(capacity: nat, startMs: nat, tickMs: nat)

  /** From step `b` to step `e` of the run exactly this call is made: an insertion unless the timer is full,
      a cancellation if the handle was issued and not used, a move of the wheel always. */
  ghost predicate Answers<T>(run: seq<Book<T>>, ops: seq<Op<T>>, c: Call<T>, st: Setting, b: nat, e: nat) {
    && b <= e <= |ops| && |run| == |ops| + 1
    && match c
       case TimeoutAt(at, interval, token) =>
         if |run[b].agenda.live| < st.capacity then
           && e == b + 1 && ops[b].Insert? && ops[b].token == token && ops[b].interval == interval
           && st.tickMs > 0 && st.startMs <= at
           && ops[b].target == TargetTick(st.startMs, st.tickMs, run[b].agenda.tick, at)
         else e == b
       case Cancel(id) => if id in run[b].handles then e == b + 1 && ops[b] == Clear(id) else e == b
       case TickTo(now) => e == b + 1 && (ops[b] == Pass(now) || (ops[b].Fire? && ops[b].now == now))
  }

  /** These calls were made one after the other; call `k` took the steps from `at[k]` on. */
  ghost predicate AllAnswered<T>(run: seq<Book<T>>, ops: seq<Op<T>>, calls: seq<Call<T>>, st: Setting, at: seq<nat>) {
    && |at| == |calls| + 1 && at[0] == 0 && at[|calls|] == |ops|
    && forall k :: 0 <= k < |calls| ==> Answers(run, ops, calls[k], st, at[k], at[k + 1])
  }

  lemma NothingAnswered<T>(run: seq<Book<T>>, st: Setting)
    ensures AllAnswered(run, [], [], st, [0])
  {
  }

  lemma OneMoreAnswered<T>(run: seq<Book<T>>, ops: seq<Op<T>>, calls: seq<Call<T>>, st: Setting, at: seq<nat>,
                           run': seq<Book<T>>, ops': seq<Op<T>>, c: Call<T>)
    requires AllAnswered(run, ops, calls, st, at) && run <= run' && ops <= ops'
    requires |run| == |ops| + 1 && |run'| == |ops'| + 1
    requires Answers(run', ops', c, st, |ops|, |ops'|)
    ensures AllAnswered(run', ops', calls + [c], st, at + [|ops'|])
  {
    var calls', at' := calls + [c], at + [|ops'|];
    forall k | 0 <= k < |calls'|
      ensures Answers(run', ops', calls'[k], st, at'[k], at'[k + 1])
    {
      if k < |calls| {
        assert Answers(run, ops, calls[k], st, at[k], at[k + 1]);
      }
    }
  }

  /** Makes one call. */
  method Make<T>(timer: Timer<T>, c: Call<T>, handles: map<nat, Timeout>, inserted: nat,
                 ghost run: seq<Book<T>>, ghost ops: seq<Op<T>>)
    returns (handles': map<nat, Timeout>, inserted': nat, result: seq<Option<(T, nat)>>,
             ghost run': seq<Book<T>>, ghost ops': seq<Op<T>>)
    requires timer.Valid() && timer.tickMs > 0 && (c.TimeoutAt? ==> timer.startMs <= c.at)
    requires inserted == timer.agenda.stamps && |run| == |ops| + 1 && Recorded(run, ops, timer.agenda, handles)
    modifies timer, timer.wheel
    ensures timer.Valid() && timer.startMs == old(timer.startMs) && inserted' == timer.agenda.stamps
    ensures |run'| == |ops'| + 1 && Recorded(run', ops', timer.agenda, handles') && run <= run' && ops <= ops'
    ensures Results(run', ops') == Results(run, ops) + result
    ensures Answers(run', ops', c, Setting(timer.capacity, timer.startMs, timer.tickMs), |ops|, |ops'|)
  {
    hide Consistent, Recorded, Results;
    handles', inserted', result, run', ops' := handles, inserted, [], run, ops;
    ghost var was := Book(timer.agenda, handles);
    LastBook(run, ops, timer.agenda, handles);
    timer.AgendaFits();
    match c {
      case TimeoutAt(at, interval, token) =>
        var r := timer.TimeoutMsAt(at, interval, token);
        if r.Ok? {
          ghost var op := Insert(r.timeout.key, token, interval, r.timeout.tick);
          handles' := handles[inserted := r.timeout];
          inserted' := inserted + 1;
          OneMore(run, ops, was.agenda, was.handles, op, Book(timer.agenda, handles'));
          ResultsGrow(run, ops, op, Book(timer.agenda, handles'));
          run', ops' := run + [Book(timer.agenda, handles')], ops + [op];
        }
      case Cancel(id) =>
        if id in handles {
          var _ := timer.Clear(handles[id]);
          handles' := handles - {id};
          OneMore(run, ops, was.agenda, was.handles, Clear(id), Book(timer.agenda, handles'));
          ResultsGrow(run, ops, Clear(id), Book(timer.agenda, handles'));
          run', ops' := run + [Book(timer.agenda, handles')], ops + [Clear(id)];
        }
      case TickTo(now) =>
        var r, key, looks := timer.TickTo(now);
        ghost var op := if r.Some? then Fire(now, key) else Pass(now);
        OneMore(run, ops, was.agenda, was.handles, op, Book(timer.agenda, handles));
        ResultsGrow(run, ops, op, Book(timer.agenda, handles));
        result := [r];
        run', ops' := run + [Book(timer.agenda, handles)], ops + [op];
    }
  }

  /** Makes the calls in turn. A call that names no handle, and an insertion that finds the timer full,
      changes nothing; every other call is one step of the run. */
  method Drive<T>(timer: Timer<T>, calls: seq<Call<T>>)
    returns (results: seq<Option<(T, nat)>>, ghost run: seq<Book<T>>, ghost ops: seq<Op<T>>, ghost at: seq<nat>)
    requires timer.Valid() && timer.tickMs > 0 && Initial(Book(timer.agenda, map[]))
    requires forall c :: c in calls && c.TimeoutAt? ==> timer.startMs <= c.at
    modifies timer, timer.wheel
    ensures timer.Valid() && |run| > 0 && Recorded(run, ops, timer.agenda, run[|run| - 1].handles)
    ensures run[0].agenda == old(timer.agenda) && results == Results(run, ops)
    ensures AllAnswered(run, ops, calls, Setting(timer.capacity, old(timer.startMs), timer.tickMs), at)
  {
    hide Consistent, Recorded, Results, Answers, AllAnswered;
    var handles: map<nat, Timeout> := map[];
    var inserted: nat := 0;
    ghost var st := Setting(timer.capacity, timer.startMs, timer.tickMs);
    results := [];
    run, ops, at := [Book(timer.agenda, map[])], [], [0];
    Begin(timer.agenda);
    NothingAnswered(run, st);
    for i := 0 to |calls|
      invariant timer.Valid() && timer.startMs == old(timer.startMs) && inserted == timer.agenda.stamps
      invariant |run| == |ops| + 1 && Recorded(run, ops, timer.agenda, handles)
      invariant run[0].agenda == old(timer.agenda) && results == Results(run, ops)
      invariant AllAnswered(run, ops, calls[..i], st, at)
    {
      var result;
      ghost var run', ops';
      handles, inserted, result, run', ops' := Make(timer, calls[i], handles, inserted, run, ops);
      OneMoreAnswered(run, ops, calls[..i], st, at, run', ops', calls[i]);
      assert calls[..i] + [calls[i]] == calls[..i + 1];
      results := results + result;
      run, ops, at := run', ops', at + [|ops'|];
    }
    assert calls[..|calls|] == calls;
    LastBook(run, ops, timer.agenda, handles);
  }

  lemma Begin<T>(agenda: Agenda<T>)
    requires Initial(Book(agenda, map[]))
    ensures Recorded([Book(agenda, map[])], [], agenda, map[])
    ensures Results<T>([Book(agenda, map[])], []) == []
  {
  }

  lemma LastBook<T>(run: seq<Book<T>>, ops: seq<Op<T>>, agenda: Agenda<T>, handles: map<nat, Timeout>)
    requires Recorded(run, ops, agenda, handles)
    ensures |run| > 0 && run[|run| - 1] == Book(agenda, handles)
  {
  }

  /** What the moves of the wheel return in a run. */
  ghost function Results<T>(run: seq<Book<T>>, ops: seq<Op<T>>): seq<Option<(T, nat)>>
    requires |run| == |ops| + 1
  {
    if ops == [] then []
    else
      var n := |ops| - 1;
      var before := Results(run[..n + 1], ops[..n]);
      match ops[n]
      case Fire(_, key) =>
        before + [if key in run[n].agenda.live
                  then Some((run[n].agenda.live[key].token, run[n].agenda.live[key].interval)) else None]
      case Pass(_) => before + [None]
      case _ => before
  }

  lemma ResultsGrow<T>(run: seq<Book<T>>, ops: seq<Op<T>>, op: Op<T>, b: Book<T>)
    requires |run| == |ops| + 1
    ensures |run + [b]| == |ops + [op]| + 1
    ensures Results(run + [b], ops + [op]) == Results(run, ops) +
              match op
              case Fire(_, key) =>
                var live := run[|ops|].agenda.live;
                [if key in live then Some((live[key].token, live[key].interval)) else None]
              case Pass(_) => [None]
              case _ => []
  {
    assert (run + [b])[..|ops| + 1] == run && (ops + [op])[..|ops|] == ops;
  }

  /** On every timer handles can be confused, if times are requested that the wheel has passed: here the
      time at which it starts, twice. The first request fires after a whole rotation, the second gets the
      same key and the same tick, and the first handle cancels the second item. */
  method StaleHandleOnATimer<T>(tickMs: nat, slots: nat, cap: nat, token: T)
    returns (timer: Timer<T>, first: Timeout, second: Timeout, cancelled: bool)
    requires tickMs > 0 && Powers.NextPowerOfTwo(cap) < EMPTY
    ensures timer.Valid() && first == second && cancelled && timer.agenda.live == map[] && timer.agenda.stamps == 2
  {
    hide Consistent;
    timer := new Timer(tickMs, slots, cap);
    var n := timer.wheel.Length;
    var r, key, looks := timer.TickTo(0);
    CeilTickIsFirst(0, tickMs, 0, 0);
    EffectiveDueIsFirst(n, 1, 1);
    var one := timer.TimeoutMsAt(0, 0, token);
    first := one.timeout;
    r, key, looks := timer.TickTo(1 + n);
    timer.AgendaFits();
    EffectiveDueIsFirst(n, 1 + n, 1);
    var two := timer.TimeoutMsAt(0, 0, token);
    second := two.timeout;
    cancelled := timer.Clear(first);
  }
}
