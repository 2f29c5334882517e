/** The outgoing bytes of a connection: what was sent, what the socket accepted, what waits. */
module Streams {
  import opened Codec

  /** What the socket answers to a write. */
  datatype Io = Wrote(n: nat) | WouldBlock | Failed

  datatype Mode = Readable | Writable

  /** The bytes sent and the bytes accepted when a WriteComplete was issued. */
  datatype Notice = Notice(sent: seq<byte>, accepted: seq<byte>)

  /** `script` holds the answers the socket will give; when it is used up, every write would block. The
      empty set of interests stands for a socket that is not registered. `excess` counts the bytes that
      were handed over a second time. */
  datatype Stream = Stream(script: seq<Io>, accepted: seq<byte>, pending: seq<byte>, interests: set<Mode>,
                           halfClosed: bool, sent: seq<byte>, notices: seq<Notice>, excess: nat)
  {
    predicate Writing() { Writable in interests }

    function Noticed(): Stream {
      this.(notices := notices + [Notice(sent, accepted)])
    }
  }

  /** A write accepts no more than it is given. */
  function Clip(io: Io, len: nat): Io {
    if io.Wrote? && io.n > len then Wrote(len) else io
  }

  datatype Attempt = Attempt(written: nat, stop: Stop, used: nat)

  datatype Stop = Done | Blocked | Broken

  /** Writing `len` bytes until they are all accepted or an error comes. */
  function Try(script: seq<Io>, len: nat): (t: Attempt)
    ensures t.used <= |script| && t.written <= len && (t.stop.Done? ==> t.written == len)
    decreases |script|
  {
    if script == [] then Attempt(0, Blocked, 0)
    else match Clip(script[0], len)
      case WouldBlock => Attempt(0, Blocked, 1)
      case Failed => Attempt(0, Broken, 1)
      case Wrote(n) =>
        if n == len then Attempt(n, Done, 1)
        else
          var rest := Try(script[1..], len - n);
          Attempt(n + rest.written, rest.stop, 1 + rest.used)
  }

  /** What the socket offers to take in these answers. */
  function Offered(script: seq<Io>): nat {
    if script == [] then 0
    else Offered(script[..|script| - 1]) + if script[|script| - 1].Wrote? then script[|script| - 1].n else 0
  }

  lemma {:induction false} OfferedFromFront(script: seq<Io>)
    requires script != []
    ensures Offered(script) == (if script[0].Wrote? then script[0].n else 0) + Offered(script[1..])
  {
    if |script| > 1 {
      OfferedFromFront(script[..|script| - 1]);
      assert script[1..][..|script| - 2] == script[..|script| - 1][1..];
    }
  }

  /** How an attempt ends. The socket is asked until it has taken everything, refuses, or fails; what it took
      is what it offered, as far as there was something left. */
  ghost predicate Ends(script: seq<Io>, len: nat, t: Attempt) {
    && t.used <= |script|
    && t.written == (if Offered(script[..t.used]) < len then Offered(script[..t.used]) else len)
    && (forall i :: 0 <= i < t.used - 1 ==> script[i].Wrote?)
    && (1 < t.used ==> Offered(script[..t.used - 1]) < len)
    && match t.stop
       case Done => 0 < t.used && script[t.used - 1].Wrote? && len <= Offered(script[..t.used])
       case Blocked => if 0 < t.used && script[t.used - 1].WouldBlock? then true
                       else t.used == |script| && (0 < t.used ==> script[t.used - 1].Wrote? && t.written < len)
       case Broken => 0 < t.used && script[t.used - 1].Failed?
  }

  lemma OfferedFurther(script: seq<Io>, k: nat)
    requires 0 < k <= |script|
    ensures Offered(script[..k]) == (if script[0].Wrote? then script[0].n else 0) + Offered(script[1..][..k - 1])
    ensures Offered([]) == 0
  {
    OfferedFromFront(script[..k]);
    assert script[..k][1..] == script[1..][..k - 1];
  }

  lemma {:induction false} TryEnds(script: seq<Io>, len: nat)
    ensures Ends(script, len, Try(script, len))
    decreases |script|
  {
    hide Offered;
    var t := Try(script, len);
    NothingOffered(script);
    if script != [] {
      OfferedFurther(script, 1);
      if Clip(script[0], len).Wrote? && Clip(script[0], len).n < len {
        TryEnds(script[1..], len - script[0].n);
        EndsAfter(script, len, Try(script[1..], len - script[0].n));
      }
    }
  }

  lemma NothingOffered(script: seq<Io>)
    ensures script[..0] == [] && Offered([]) == 0
  {
  }

  lemma EndsAfter(script: seq<Io>, len: nat, rest: Attempt)
    requires script != [] && script[0].Wrote? && script[0].n < len && Ends(script[1..], len - script[0].n, rest)
    ensures Ends(script, len, Attempt(script[0].n + rest.written, rest.stop, 1 + rest.used))
  {
    hide Offered;
    OfferedFurther(script, rest.used + 1);
    if rest.used > 0 {
      OfferedFurther(script, rest.used);
      assert script[rest.used] == script[1..][rest.used - 1];
    }
    NothingOffered(script[1..]);
    forall i | 0 <= i < rest.used
      ensures script[i].Wrote?
    {
      assert i > 0 ==> script[i] == script[1..][i - 1];
    }
  }

  /** After an attempt the rest goes to the buffer, and after an error other than WouldBlock all of
      `data` goes there, also what was accepted already. */
  function Attempted(s: Stream, data: seq<byte>, t: Attempt): Stream
    requires t.used <= |s.script| && t.written <= |data|
  {
    var s := s.(script := s.script[t.used..], accepted := s.accepted + data[..t.written]);
    match t.stop
    case Done => s.Noticed()
    case Blocked => s.(pending := s.pending + data[t.written..], interests := s.interests + {Writable})
    case Broken =>
      s.(pending := s.pending + data, interests := s.interests + {Writable}, excess := s.excess + t.written)
  }

  /** The stream after one write was answered. */
  function Answered(s: Stream, r: Io, buf: seq<byte>): Stream
    requires r.Wrote? ==> r.n <= |buf|
  {
    var s := s.(script := if s.script == [] then [] else s.script[1..]);
    if r.Wrote? then s.(accepted := s.accepted + buf[..r.n]) else s
  }

  /** An attempt that has already written something, in some writes. */
  function After(written: nat, used: nat, rest: Attempt): Attempt {
    Attempt(written + rest.written, rest.stop, used + rest.used)
  }

  /** In the middle of an attempt: `written` bytes were accepted in `used` answers, and what is left of
      the script decides how the attempt ends. */
  ghost predicate Partway(s: Stream, data: seq<byte>, now: Stream, written: nat, used: nat) {
    && written <= |data| && used <= |s.script|
    && Try(s.script, |data|) == After(written, used, Try(s.script[used..], |data| - written))
    && now == s.(script := s.script[used..], accepted := s.accepted + data[..written])
  }

  lemma PartwayBegins(s: Stream, data: seq<byte>)
    ensures Partway(s, data, s, 0, 0)
  {
    assert s.accepted + data[..0] == s.accepted && s.script[0..] == s.script;
  }

  lemma TryUnfolds(script: seq<Io>, used: nat, len: nat)
    requires used <= |script|
    ensures used == |script| ==> script[used..] == [] && Try(script[used..], len) == Attempt(0, Blocked, 0)
    ensures used < |script| ==>
              && script[used..][0] == script[used] && script[used..][1..] == script[used + 1..]
              && Try(script[used..], len) ==
                 match Clip(script[used], len)
                 case WouldBlock => Attempt(0, Blocked, 1)
                 case Failed => Attempt(0, Broken, 1)
                 case Wrote(n) =>
                   if n == len then Attempt(n, Done, 1) else After(n, 1, Try(script[used + 1..], len - n))
  {
  }

  lemma TakeMore(front: seq<byte>, data: seq<byte>, written: nat, n: nat)
    requires written + n <= |data|
    ensures (front + data[..written]) + data[written..][..n] == front + data[..written + n]
  {
  }

  /** What each answer leads to. */
  lemma PartwayGoesOn(s: Stream, data: seq<byte>, now: Stream, written: nat, used: nat)
    requires Partway(s, data, now, written, used)
    ensures written <= |data|
    ensures var buf := data[written..];
            var r := if now.script == [] then WouldBlock else Clip(now.script[0], |buf|);
            var next, end := Answered(now, r, buf), Attempted(s, data, Try(s.script, |data|));
            match r
            case Wrote(n) =>
              if n == |buf| then end == next.Noticed() else Partway(s, data, next, written + n, used + 1)
            case WouldBlock =>
              end == next.(pending := next.pending + buf, interests := next.interests + {Writable})
            case Failed =>
              end == next.(pending := next.pending + data, interests := next.interests + {Writable},
                           excess := next.excess + written)
  {
    hide Try;
    TryUnfolds(s.script, used, |data| - written);
    if now.script != [] && Clip(now.script[0], |data| - written).Wrote? {
      TakeMore(s.accepted, data, written, Clip(now.script[0], |data| - written).n);
    }
  }

  /** Sends `data`: directly if nothing waits, else behind what waits. */
  function Send(s: Stream, data: seq<byte>): Stream {
    var s := s.(sent := s.sent + data);
    if s.Writing() then s.(pending := s.pending + data)
    else if s.pending != [] then s.(pending := s.pending + data, interests := s.interests + {Writable})
    else Attempted(s, data, Try(s.script, |data|))
  }

  /** The socket can be written to again. Errors are reported and the write is repeated. */
  function Flush(s: Stream): Stream
    decreases |s.script|
  {
    if s.script == [] then s
    else
      var rest := s.(script := s.script[1..]);
      match Clip(s.script[0], |s.pending|)
      case WouldBlock => rest
      case Failed => Flush(rest)
      case Wrote(n) =>
        var s' := rest.(accepted := s.accepted + s.pending[..n], pending := s.pending[n..]);
        if s'.pending == [] then s'.(interests := s.interests - {Writable}).Noticed() else Flush(s')
  }

  function Ready(s: Stream): Stream {
    if s.Writing() then Flush(s) else s
  }

  /** Closes the outgoing direction unless something waits to be written. */
  function Shutdown(s: Stream): Stream {
    if s.Writing() then s else s.(halfClosed := true)
  }

  datatype Op = DoSend(data: seq<byte>) | DoReady | DoShutdown | DoReading(on: bool)

  function Apply(s: Stream, op: Op): Stream {
    match op
    case DoSend(data) => Send(s, data)
    case DoReady => Ready(s)
    case DoShutdown => Shutdown(s)
    case DoReading(on) => s.(interests := if on then s.interests + {Readable} else s.interests - {Readable})
  }

  function Run(s: Stream, ops: seq<Op>): Stream {
    if ops == [] then s else Apply(Run(s, ops[..|ops| - 1]), ops[|ops| - 1])
  }

  function Fresh(script: seq<Io>, interests: set<Mode>): Stream {
    Stream(script, [], [], interests, false, [], [], 0)
  }

  /** Nothing is lost or repeated, and the order is kept. */
  predicate Conserved(s: Stream) {
    s.accepted + s.pending == s.sent
  }

  /** The data of all sends. */
  function Payload(ops: seq<Op>): seq<byte> {
    if ops == [] then []
    else
      var n := |ops| - 1;
      if ops[n].DoSend? then Payload(ops[..n]) + ops[n].data else Payload(ops[..n])
  }

  lemma {:induction false} FlushKeepsSent(s: Stream)
    ensures Flush(s).sent == s.sent && Flush(s).halfClosed == s.halfClosed
    ensures Flush(s).interests - {Writable} == s.interests - {Writable}
    decreases |s.script|
  {
    if s.script != [] {
      var rest := s.(script := s.script[1..]);
      match Clip(s.script[0], |s.pending|) {
        case WouldBlock =>
        case Failed => FlushKeepsSent(rest);
        case Wrote(n) =>
          var s' := rest.(accepted := s.accepted + s.pending[..n], pending := s.pending[n..]);
          if s'.pending != [] {
            FlushKeepsSent(s');
          }
      }
    }
  }

  /** What a stream remembers as sent is the data of all sends. */
  lemma {:induction false} SentIsPayload(s: Stream, ops: seq<Op>)
    ensures Run(s, ops).sent == s.sent + Payload(ops)
  {
    if ops != [] {
      var n := |ops| - 1;
      SentIsPayload(s, ops[..n]);
      FlushKeepsSent(Run(s, ops[..n]));
    }
  }

  /** An error other than WouldBlock comes after part of `data` was accepted. This is the branch in
      which `send` falls back to buffering all of it. */
  predicate BreaksHalfway(s: Stream, data: seq<byte>) {
    && !s.Writing() && s.pending == []
    && Try(s.script, |data|).stop == Broken && Try(s.script, |data|).written > 0
  }

  predicate EverBreaks(s: Stream, ops: seq<Op>) {
    ops != [] &&
    (EverBreaks(s, ops[..|ops| - 1])
     || (ops[|ops| - 1].DoSend? && BreaksHalfway(Run(s, ops[..|ops| - 1]), ops[|ops| - 1].data)))
  }

  /** What every operation keeps. As long as nothing was handed over twice the stream is conserved;
      otherwise it is too long for ever. What waits is always waited for. */
  ghost predicate Sound(s: Stream) {
    && |s.accepted| + |s.pending| == |s.sent| + s.excess
    && (s.excess == 0 ==>
          Conserved(s) && forall i :: 0 <= i < |s.notices| ==> s.notices[i].accepted == s.notices[i].sent)
    && (s.pending != [] ==> s.Writing())
  }

  lemma SendIsSound(s: Stream, data: seq<byte>)
    requires Sound(s)
    ensures Sound(Send(s, data))
    ensures Send(s, data).excess > s.excess <==> BreaksHalfway(s, data)
    ensures Send(s, data).excess >= s.excess
  {
    var t := Try(s.script, |data|);
    if s.excess == 0 {
      assert s.accepted + (s.pending + data) == (s.accepted + s.pending) + data;
      if s.pending == [] {
        assert s.accepted + s.pending == s.accepted;
        assert (s.accepted + data[..t.written]) + data[t.written..] == s.accepted + data;
        assert t.written == 0 ==> s.accepted + data[..t.written] == s.accepted;
        assert t.written == |data| ==> data[..t.written] == data;
      }
    }
  }

  lemma {:induction false} FlushIsSound(s: Stream)
    requires Sound(s) && s.Writing()
    ensures Sound(Flush(s)) && Flush(s).excess == s.excess
    decreases |s.script|
  {
    if s.script != [] {
      var rest := s.(script := s.script[1..]);
      match Clip(s.script[0], |s.pending|) {
        case WouldBlock =>
        case Failed => FlushIsSound(rest);
        case Wrote(n) =>
          var s' := rest.(accepted := s.accepted + s.pending[..n], pending := s.pending[n..]);
          assert s'.accepted + s'.pending == s.accepted + s.pending;
          if s'.pending != [] {
            FlushIsSound(s');
          } else {
            assert s'.accepted + s'.pending == s'.accepted;
          }
      }
    }
  }

  lemma {:induction false} RunIsSound(s: Stream, ops: seq<Op>)
    requires Sound(s)
    ensures Sound(Run(s, ops)) && Run(s, ops).excess >= s.excess
    ensures Run(s, ops).excess > s.excess <==> EverBreaks(s, ops)
  {
    if ops != [] {
      var n := |ops| - 1;
      RunIsSound(s, ops[..n]);
      var was := Run(s, ops[..n]);
      match ops[n] {
        case DoSend(data) => SendIsSound(was, data);
        case DoReady =>
          if was.Writing() {
            FlushIsSound(was);
          }
        case _ =>
      }
    }
  }

  /** Over any run against any socket, the bytes accepted followed by the bytes that wait are the data of
      all sends, if and only if no error other than WouldBlock ever came in the middle of a `send`. */
  lemma ConservedExactly(script: seq<Io>, interests: set<Mode>, ops: seq<Op>)
    ensures var s := Run(Fresh(script, interests), ops);
            && s.sent == Payload(ops)
            && (s.accepted + s.pending == Payload(ops) <==> !EverBreaks(Fresh(script, interests), ops))
  {
    RunIsSound(Fresh(script, interests), ops);
    SentIsPayload(Fresh(script, interests), ops);
    var s := Run(Fresh(script, interests), ops);
    assert [] + Payload(ops) == Payload(ops);
    if Conserved(s) {
      assert |s.accepted + s.pending| == |s.sent|;
    }
  }

  /** A socket that takes one byte of two and then fails: the first byte is handed over again. */
  lemma HalfwayRepeats(a: byte, b: byte, interests: set<Mode>)
    requires Writable !in interests
    ensures var s, ops := Fresh([Wrote(1), Failed], interests), [DoSend([a, b])];
            && EverBreaks(s, ops) && !Conserved(Run(s, ops))
            && Run(s, ops).sent == [a, b] && Run(s, ops).accepted == [a] && Run(s, ops).pending == [a, b]
  {
    var s, data := Fresh([Wrote(1), Failed], interests), [a, b];
    assert [DoSend(data)][..0] == [];
    assert s.script[1..] == [Failed];
    assert Try(s.script[1..], 1) == Attempt(0, Broken, 1);
    assert Try(s.script, 2) == Attempt(1, Broken, 2);
    assert [] + data[..1] == [a];
  }

  /** Whatever waits is waited for, every WriteComplete was issued with all bytes accepted, and
      where a Shutdown message may half-close the connection, all bytes are accepted. */
  lemma FlushObligation(script: seq<Io>, interests: set<Mode>, ops: seq<Op>)
    ensures var s := Run(Fresh(script, interests), ops);
            && (s.pending != [] ==> s.Writing())
            && (!EverBreaks(Fresh(script, interests), ops) ==>
                  && (forall i :: 0 <= i < |s.notices| ==> s.notices[i].accepted == s.notices[i].sent)
                  && (!s.Writing() ==> s.accepted == s.sent))
  {
    RunIsSound(Fresh(script, interests), ops);
    var s := Run(Fresh(script, interests), ops);
    if !EverBreaks(Fresh(script, interests), ops) && s.pending == [] {
      assert s.accepted + s.pending == s.accepted;
    }
  }

  /** Once the socket has accepted everything that waits, interest in writing ends with one more
      WriteComplete. */
  lemma {:induction false} FlushEndsWaiting(s: Stream)
    requires s.Writing()
    ensures Flush(s).Writing() <==> Flush(s).notices == s.notices
    ensures !Flush(s).Writing() ==> Flush(s).pending == [] && |Flush(s).notices| == |s.notices| + 1
    decreases |s.script|
  {
    if s.script != [] {
      var rest := s.(script := s.script[1..]);
      match Clip(s.script[0], |s.pending|) {
        case WouldBlock =>
        case Failed => FlushEndsWaiting(rest);
        case Wrote(n) =>
          var s' := rest.(accepted := s.accepted + s.pending[..n], pending := s.pending[n..]);
          if s'.pending != [] {
            FlushEndsWaiting(s');
          }
      }
    }
  }

  /** Writing out is tried again after every failure: any number of them changes nothing but uses up the
      answers, and with nothing but failures it goes on for as long as they last. */
  lemma {:induction false} FailuresAreRetried(s: Stream, n: nat, rest: seq<Io>)
    ensures Flush(s.(script := seq(n, _ => Failed) + rest)) == Flush(s.(script := rest))
    decreases n
  {
    var fails := seq(n, _ => Failed) + rest;
    if n > 0 {
      FailuresAreRetried(s, n - 1, rest);
      assert fails[1..] == seq(n - 1, _ => Failed) + rest;
    } else {
      assert fails == rest;
    }
  }

  /** How writing out ends: with nothing left, or at an answer that would block, or with the answers used up.
      Failures in between are passed over; each byte taken is the next one that waited. */
  ghost predicate FlushedTo(s: Stream, f: Stream, used: nat) {
    && used <= |s.script| && f.script == s.script[used..]
    && var offered := Offered(s.script[..used]);
       var n := if offered < |s.pending| then offered else |s.pending|;
    && f.accepted == s.accepted + s.pending[..n] && f.pending == s.pending[n..]
    && (forall i :: 0 <= i < used - 1 ==>
          !s.script[i].WouldBlock? && (s.script[i].Wrote? ==> Offered(s.script[..i + 1]) < |s.pending|))
    && var emptied := 0 < used && s.script[used - 1].Wrote? && |s.pending| <= offered;
    && (emptied || (0 < used && s.script[used - 1].WouldBlock?) || used == |s.script|)
    && f.interests == (if emptied then s.interests - {Writable} else s.interests)
    && f.notices == if emptied then s.notices + [Notice(f.sent, f.accepted)] else s.notices
  }

  lemma {:induction false} FlushEnds(s: Stream)
    ensures |Flush(s).script| <= |s.script|
    ensures FlushedTo(s, Flush(s), |s.script| - |Flush(s).script|)
    decreases |s.script|
  {
    hide FlushedTo, Offered;
    FlushStops(s);
    if s.script != [] {
      var rest := s.(script := s.script[1..]);
      match Clip(s.script[0], |s.pending|) {
        case WouldBlock =>
        case Failed =>
          FlushEnds(rest);
          FlushedAfter(s, rest, Flush(rest), 0, |rest.script| - |Flush(rest).script|);
        case Wrote(n) =>
          var s' := rest.(accepted := s.accepted + s.pending[..n], pending := s.pending[n..]);
          if s'.pending != [] {
            FlushEnds(s');
            FlushedAfter(s, s', Flush(s'), n, |rest.script| - |Flush(s').script|);
          }
      }
    }
  }

  /** The cases in which writing out ends at once. */
  lemma FlushStops(s: Stream)
    ensures s.script == [] ==> FlushedTo(s, s, 0)
    ensures s.script != [] && s.script[0].WouldBlock? ==> FlushedTo(s, s.(script := s.script[1..]), 1)
    ensures s.script != [] && s.script[0].Wrote? && |s.pending| <= s.script[0].n ==>
              FlushedTo(s, s.(script := s.script[1..], accepted := s.accepted + s.pending[..|s.pending|],
                              pending := s.pending[|s.pending|..], interests := s.interests - {Writable}).Noticed(), 1)
  {
    hide Offered;
    assert s.accepted + s.pending[..0] == s.accepted && s.pending[0..] == s.pending && s.script[0..] == s.script;
    if s.script == [] {
      NothingOffered(s.script);
    } else {
      OfferedFurther(s.script, 1);
      NothingOffered(s.script[1..]);
    }
  }

  lemma FlushedAfter(s: Stream, s': Stream, f: Stream, n: nat, used: nat)
    requires s.script != [] && n <= |s.pending| && FlushedTo(s', f, used)
    requires s' == s.(script := s.script[1..], accepted := s.accepted + s.pending[..n], pending := s.pending[n..])
             || (n == 0 && s' == s.(script := s.script[1..]))
    requires (s.script[0].Failed? && n == 0) || (s.script[0].Wrote? && n == s.script[0].n < |s.pending|)
    ensures FlushedTo(s, f, used + 1)
  {
    hide Offered;
    OfferedFurther(s.script, used + 1);
    assert s'.pending == s.pending[n..] && s'.accepted == s.accepted + s.pending[..n];
    GoesOnLonger(s.script, |s.pending|, used);
    assert used > 0 ==> s.script[used] == s.script[1..][used - 1];
    TakeFurther(s.accepted, s.pending, n, Offered(s'.script[..used]));
  }

  lemma GoesOnLonger(script: seq<Io>, len: nat, used: nat)
    requires script != [] && !script[0].WouldBlock? && used <= |script[1..]|
    requires script[0].Wrote? ==> script[0].n < len
    requires forall i :: 0 <= i < used - 1 ==>
               var n := if script[0].Wrote? then script[0].n else 0;
               !script[1..][i].WouldBlock? && (script[1..][i].Wrote? ==> n + Offered(script[1..][..i + 1]) < len)
    ensures forall i :: 0 <= i < used ==>
              !script[i].WouldBlock? && (script[i].Wrote? ==> Offered(script[..i + 1]) < len)
  {
    hide Offered;
    forall i | 0 <= i < used
      ensures !script[i].WouldBlock? && (script[i].Wrote? ==> Offered(script[..i + 1]) < len)
    {
      OfferedFurther(script, i + 1);
      NothingOffered(script[1..]);
      assert i > 0 ==> script[i] == script[1..][i - 1];
    }
  }

  lemma TakeFurther(front: seq<byte>, data: seq<byte>, n: nat, offered: nat)
    requires n <= |data|
    ensures var m := if offered < |data| - n then offered else |data| - n;
            && n + m == (if n + offered < |data| then n + offered else |data|)
            && front + data[..n] + data[n..][..m] == front + data[..n + m] && data[n..][m..] == data[n + m..]
  {
  }

  /** What a send does. Behind bytes that wait, or while interest in writing stands, it only queues; otherwise
      it asks the socket first. Either way nothing is asked for twice. */
  lemma SendActs(s: Stream, data: seq<byte>)
    ensures var s', t := Send(s, data), Try(s.script, |data|);
            && s'.sent == s.sent + data && s'.halfClosed == s.halfClosed && Ends(s.script, |data|, t)
            && if s.Writing() || s.pending != [] then Queued(s, data, s') else Tried(s, data, s', t)
  {
    hide Ends, Try;
    TryEnds(s.script, |data|);
    if !s.Writing() && s.pending == [] {
      AttemptedTries(s, data, Try(s.script, |data|));
    }
  }

  lemma AttemptedTries(s: Stream, data: seq<byte>, t: Attempt)
    requires s.pending == [] && t.used <= |s.script| && t.written <= |data|
    ensures var s0 := s.(sent := s.sent + data);
            && Attempted(s0, data, t).sent == s0.sent && Attempted(s0, data, t).halfClosed == s.halfClosed
            && Tried(s, data, Attempted(s0, data, t), t)
  {
    assert s.pending + data == data && s.pending + data[t.written..] == data[t.written..];
  }

  /** The socket was not asked; the data waits behind what waited. */
  ghost predicate Queued(s: Stream, data: seq<byte>, s': Stream) {
    && s'.script == s.script && s'.accepted == s.accepted && s'.pending == s.pending + data
    && s'.interests == s.interests + {Writable} && s'.notices == s.notices
  }

  /** The socket was asked, and the attempt ended like this. */
  ghost predicate Tried(s: Stream, data: seq<byte>, s': Stream, t: Attempt) {
    && t.used <= |s.script| && s'.script == s.script[t.used..]
    && t.written <= |data| && s'.accepted == s.accepted + data[..t.written]
    && s'.pending == (match t.stop case Done => [] case Blocked => data[t.written..] case Broken => data)
    && s'.interests == (if t.stop.Done? then s.interests else s.interests + {Writable})
    && s'.notices == if t.stop.Done? then s.notices + [Notice(s'.sent, s'.accepted)] else s.notices
  }

  /** Operation `i` is a Shutdown message that finds no interest in writing. */
  predicate ClosesAt(s: Stream, ops: seq<Op>, i: nat) {
    i < |ops| && ops[i].DoShutdown? && !Run(s, ops[..i]).Writing()
  }

  lemma ClosesAtPrefix(s: Stream, ops: seq<Op>, n: nat, i: nat)
    requires i < n <= |ops|
    ensures ClosesAt(s, ops[..n], i) <==> ClosesAt(s, ops, i)
  {
    assert ops[..n][..i] == ops[..i];
  }

  lemma ApplyCloses(s: Stream, op: Op)
    ensures Apply(s, op).halfClosed <==> s.halfClosed || (op.DoShutdown? && !s.Writing())
  {
    FlushKeepsSent(s);
  }

  /** The connection is half closed exactly if some Shutdown message found no interest in writing. */
  lemma {:induction false} HalfClosedExactly(script: seq<Io>, interests: set<Mode>, ops: seq<Op>)
    ensures var s := Fresh(script, interests); Run(s, ops).halfClosed <==> exists i: nat :: ClosesAt(s, ops, i)
  {
    hide ClosesAt, Apply;
    var s := Fresh(script, interests);
    if ops == [] {
      NothingCloses(s);
    } else {
      var n := |ops| - 1;
      HalfClosedExactly(script, interests, ops[..n]);
      ApplyCloses(Run(s, ops[..n]), ops[n]);
      LastCloses(s, ops);
      if i: nat :| ClosesAt(s, ops[..n], i) {
        ClosesWithin(s, ops[..n], i);
        ClosesAtPrefix(s, ops, n, i);
      }
      if i: nat :| ClosesAt(s, ops, i) {
        ClosesWithin(s, ops, i);
        if i < n {
          ClosesAtPrefix(s, ops, n, i);
        }
      }
    }
  }

  lemma ClosesWithin(s: Stream, ops: seq<Op>, i: nat)
    requires ClosesAt(s, ops, i)
    ensures i < |ops|
  {
  }

  lemma NothingCloses(s: Stream)
    ensures forall i: nat :: !ClosesAt(s, [], i)
  {
  }

  lemma LastCloses(s: Stream, ops: seq<Op>)
    requires ops != []
    ensures var n := |ops| - 1; ClosesAt(s, ops, n) <==> ops[n].DoShutdown? && !Run(s, ops[..n]).Writing()
  {
  }

  /** Every message that closes comes with all data of the sends before it accepted, unless a send broke. */
  lemma ClosedWithAllAccepted(script: seq<Io>, interests: set<Mode>, ops: seq<Op>, i: nat)
    requires ClosesAt(Fresh(script, interests), ops, i)
    ensures EverBreaks(Fresh(script, interests), ops[..i])
            || Run(Fresh(script, interests), ops[..i]).accepted == Payload(ops[..i])
  {
    FlushObligation(script, interests, ops[..i]);
    ConservedExactly(script, interests, ops[..i]);
  }

  /** What was last asked for about reading. */
  function LastAsked(was: bool, ops: seq<Op>): bool {
    if ops == [] then was
    else if ops[|ops| - 1].DoReading? then ops[|ops| - 1].on
    else LastAsked(was, ops[..|ops| - 1])
  }

  /** Interest in reading is what was last asked for. */
  lemma {:induction false} ReadingIsAsAsked(s: Stream, ops: seq<Op>)
    ensures Readable in Run(s, ops).interests <==> LastAsked(Readable in s.interests, ops)
  {
    if ops != [] {
      var n := |ops| - 1;
      ReadingIsAsAsked(s, ops[..n]);
      FlushKeepsReading(Run(s, ops[..n]));
    }
  }

  lemma FlushKeepsReading(s: Stream)
    ensures Readable in Flush(s).interests <==> Readable in s.interests
  {
    FlushKeepsSent(s);
    assert Readable in Flush(s).interests <==> Readable in Flush(s).interests - {Writable};
  }
}
