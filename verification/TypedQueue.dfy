/** A buffer that is written and read by values of known width is a queue of values. */
module TypedQueues {
  import opened Codec
  import opened Buffers
  import opened Ticks

  datatype Typed = Typed(width: Width, val: int)

  /** A value that fits its width. */
  type Value = v: Typed | InRange(v.width, v.val) witness Typed(I8, 0)

  datatype Op = Push(value: Value) | Pop(width: Width)

  /** The queue after an operation, and what was popped. A value can be popped only with its width. */
  datatype Outcome = Outcome(queue: seq<Value>, popped: seq<int>)

  function Apply(q: seq<Value>, op: Op): Option<Outcome> {
    match op
    case Push(v) => Some(Outcome(q + [v], []))
    case Pop(w) => if q == [] || q[0].width != w then None else Some(Outcome(q[1..], [q[0].val]))
  }

  function ApplyAll(q: seq<Value>, ops: seq<Op>): Option<Outcome>
    decreases |ops|
  {
    if ops == [] then Some(Outcome(q, []))
    else match Apply(q, ops[0])
      case None => None
      case Some(o) =>
        match ApplyAll(o.queue, ops[1..])
        case None => None
        case Some(r) => Some(Outcome(r.queue, o.popped + r.popped))
  }

  /** The values of a queue, and those that operations push. */
  function Vals(q: seq<Value>): seq<int> { seq(|q|, i requires 0 <= i < |q| => q[i].val) }

  function Pushed(ops: seq<Op>): seq<int> {
    if ops == [] then []
    else (if ops[0].Push? then [ops[0].value.val] else []) + Pushed(ops[1..])
  }

  /** First in, first out: what was popped, followed by what is left, is what was there, followed by what
      was pushed. */
  lemma {:induction false} FirstInFirstOut(q: seq<Value>, ops: seq<Op>)
    requires ApplyAll(q, ops).Some?
    ensures var r := ApplyAll(q, ops).value; r.popped + Vals(r.queue) == Vals(q) + Pushed(ops)
    decreases |ops|
  {
    hide Vals, Apply;
    if ops == [] {
      assert [] + Vals(q) == Vals(q) + [];
    } else {
      var o := Apply(q, ops[0]).value;
      FirstInFirstOut(o.queue, ops[1..]);
      OneInOneOut(q, ops[0]);
      var r := ApplyAll(o.queue, ops[1..]).value;
      Chained(o.popped, r.popped, Vals(r.queue), Vals(o.queue), Pushed(ops[1..]), Vals(q),
              if ops[0].Push? then [ops[0].value.val] else []);
    }
  }

  lemma Chained(a: seq<int>, b: seq<int>, c: seq<int>, d: seq<int>, e: seq<int>, f: seq<int>, g: seq<int>)
    requires a + d == f + g && b + c == d + e
    ensures (a + b) + c == f + (g + e)
  {
    assert (a + b) + c == a + (b + c) == a + (d + e) == (a + d) + e == (f + g) + e == f + (g + e);
  }

  lemma OneInOneOut(q: seq<Value>, op: Op)
    requires Apply(q, op).Some?
    ensures var o := Apply(q, op).value;
            o.popped + Vals(o.queue) == Vals(q) + if op.Push? then [op.value.val] else []
  {
  }

  /** The bytes of all values of a queue. */
  function Wire(q: seq<Value>): seq<byte> {
    if q == [] then [] else Encode(q[0].width, q[0].val) + Wire(q[1..])
  }

  lemma {:induction false} WireOfPush(q: seq<Value>, v: Value)
    ensures Wire(q + [v]) == Wire(q) + Encode(v.width, v.val)
  {
    if q != [] {
      WireOfPush(q[1..], v);
      assert (q + [v])[1..] == q[1..] + [v];
    } else {
      assert (q + [v])[1..] == [];
    }
  }

  /** The bytes determine the values, given their widths. */
  lemma {:induction false} WireIsInjective(p: seq<Value>, q: seq<Value>)
    requires |p| == |q| && (forall i :: 0 <= i < |p| ==> p[i].width == q[i].width) && Wire(p) == Wire(q)
    ensures p == q
  {
    if p != [] {
      EncodeIsPrefixFree(p[0].width, p[0].val, q[0].val, Wire(p[1..]), Wire(q[1..]));
      WireIsInjective(p[1..], q[1..]);
      assert p == [p[0]] + p[1..] && q == [q[0]] + q[1..];
    }
  }

  method Perform(b: Buffer, op: Op, ghost q: seq<Value>) returns (popped: seq<int>)
    requires b.Valid() && b.Peek() == Wire(q) && Apply(q, op).Some?
    modifies b
    ensures b.Valid() && b.Peek() == Wire(Apply(q, op).value.queue) && popped == Apply(q, op).value.popped
  {
    match op {
      case Push(v) =>
        WireOfPush(q, v);
        b.AppendAs(v.width, v.val);
        popped := [];
      case Pop(w) =>
        var val := b.RetrieveAs(w);
        EncodeIsPrefixFree(w, q[0].val, val, Wire(q[1..]), b.Peek());
        popped := [val];
    }
  }

  lemma ApplyAllUnfolds(q: seq<Value>, ops: seq<Op>, i: nat)
    requires i <= |ops| && ApplyAll(q, ops[i..]).Some?
    ensures i == |ops| ==> ApplyAll(q, ops[i..]).value == Outcome(q, [])
    ensures i < |ops| ==>
              && Apply(q, ops[i]).Some?
              && var o := Apply(q, ops[i]).value;
              && ApplyAll(o.queue, ops[i + 1..]).Some?
              && var r := ApplyAll(o.queue, ops[i + 1..]).value;
              ApplyAll(q, ops[i..]).value == Outcome(r.queue, o.popped + r.popped)
  {
    assert i < |ops| ==> ops[i..][1..] == ops[i + 1..];
  }

  /** Whatever the buffer does with its storage in between, popping returns the values in the order in
      which they were pushed. */
  method Replay(b: Buffer, ops: seq<Op>, ghost q: seq<Value>) returns (popped: seq<int>)
    requires b.Valid() && b.Peek() == Wire(q) && ApplyAll(q, ops).Some?
    modifies b
    ensures b.Valid() && b.Peek() == Wire(ApplyAll(q, ops).value.queue) && popped == ApplyAll(q, ops).value.popped
  {
    hide ApplyAll, Wire;
    popped := [];
    ghost var all, now := ApplyAll(q, ops).value, q;
    var i := 0;
    assert ops[0..] == ops;
    while i < |ops|
      invariant 0 <= i <= |ops| && b.Valid() && b.Peek() == Wire(now)
      invariant ApplyAll(now, ops[i..]).Some?
      invariant ApplyAll(now, ops[i..]).value.queue == all.queue
      invariant popped + ApplyAll(now, ops[i..]).value.popped == all.popped
    {
      ApplyAllUnfolds(now, ops, i);
      var one := Perform(b, ops[i], now);
      now := Apply(now, ops[i]).value.queue;
      ghost var rest := ApplyAll(now, ops[i + 1..]).value.popped;
      assert popped + (one + rest) == popped + one + rest;
      popped := popped + one;
      i := i + 1;
    }
    ApplyAllUnfolds(now, ops, i);
  }
}
