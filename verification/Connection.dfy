/** A connection that writes to its socket when it can and to its buffer when it must. */
module Connections {
  import opened Codec
  import opened Buffers
  import opened Streams

  /** The system's end of the connection. It answers writes by its script. */
  class Socket {
    var script: seq<Io>
    var accepted: seq<byte>
    var halfClosed: bool

    constructor (script: seq<Io>)
      ensures this.script == script && accepted == [] && !halfClosed
    {
      this.script := script;
      accepted := [];
      halfClosed := false;
    }

    method Write(buf: seq<byte>) returns (r: Io)
      modifies this`script, this`accepted
      ensures r == if old(script) == [] then WouldBlock else Clip(old(script)[0], |buf|)
      ensures script == if old(script) == [] then [] else old(script)[1..]
      ensures r.Wrote? ==> accepted == old(accepted) + buf[..r.n]
      ensures !r.Wrote? ==> accepted == old(accepted)
    {
      if script == [] {
        return WouldBlock;
      }
      r := Clip(script[0], |buf|);
      script := script[1..];
      if r.Wrote? {
        accepted := accepted + buf[..r.n];
      }
    }

    method Shutdown()
      modifies this`halfClosed
      ensures halfClosed
    {
      halfClosed := true;
    }
  }

  class TcpConnection {
    const io: Socket
    const output: Buffer
    var interests: set<Mode>
    var completions: nat    // WriteComplete messages given to the notifier

    ghost var sent: seq<byte>
    ghost var notices: seq<Notice>
    ghost var excess: nat

    ghost predicate Valid()
      reads this, output
    {
      output.Valid() && completions == |notices|
    }

    ghost function State(): Stream
      requires Valid()
      reads this, io, output
    {
      Stream(io.script, io.accepted, output.Peek(), interests, io.halfClosed, sent, notices, excess)
    }

    constructor (io: Socket, interests: set<Mode>)
      requires io.accepted == [] && !io.halfClosed
      ensures Valid() && State() == Fresh(io.script, interests) && this.io == io && fresh(output)
      ensures output.initial == 1024
    {
      this.io := io;
      this.interests := interests;
      output := new Buffer(1024);
      completions := 0;
      sent, notices, excess := [], [], 0;
    }

    method EnableIo(mode: Mode)
      requires Valid()
      modifies this`interests
      ensures Valid() && interests == old(interests) + {mode}
    {
      interests := interests + {mode};
    }

    method DisableIo(mode: Mode)
      requires Valid()
      modifies this`interests
      ensures Valid() && interests == old(interests) - {mode}
    {
      interests := interests - {mode};
    }

    method NotifyWriteComplete()
      requires Valid()
      modifies this`completions, this`notices
      ensures Valid() && State() == old(State()).Noticed()
      ensures completions == old(completions) + 1 && notices == old(notices) + [Notice(sent, io.accepted)]
    {
      completions := completions + 1;
      notices := notices + [Notice(sent, io.accepted)];
    }

    /** Sends bytes. What the socket does not take at once goes to the buffer. */
    method SendBytes(data: seq<byte>)
      requires Valid()
      modifies this, io, output
      ensures Valid() && State() == Send(old(State()), data)
      ensures sent == old(sent) + data && io.halfClosed == old(io.halfClosed)
      ensures Writable in old(interests) || old(output.Peek()) != [] ==> Queued(old(State()), data, State())
      ensures Writable !in old(interests) && old(output.Peek()) == [] ==>
                var t := Try(old(io.script), |data|);
                Ends(old(io.script), |data|, t) && Tried(old(State()), data, State(), t)
    {
      hide Try, Ends;
      SendActs(State(), data);
      sent := sent + data;
      if Writable !in interests {
        if output.ReadableBytes() == 0 {
          WriteThrough(data);
        } else {
          output.Append(data);
          EnableIo(Writable);
        }
      } else {
        output.Append(data);
      }
    }

    /** The loop of `SendBytes` that writes to the socket directly. */
    method WriteThrough(data: seq<byte>)
      requires Valid()
      modifies this, io, output
      ensures Valid() && State() == Attempted(old(State()), data, Try(old(io.script), |data|))
    {
      hide Try, Attempted, Partway;
      ghost var s := State();
      ghost var used := 0;
      var written := 0;
      PartwayBegins(s, data);
      while true
        invariant Valid() && Partway(s, data, State(), written, used)
        decreases |io.script|
      {
        ghost var now := State();
        PartwayGoesOn(s, data, now, written, used);
        used := used + 1;
        var buf := data[written..];
        var r := io.Write(buf);
        assert State() == Answered(now, r, buf);
        match r
        case Wrote(n) =>
          if n == |buf| {
            NotifyWriteComplete();
            break;
          } else {
            written := written + n;
          }
        case WouldBlock =>
          output.Append(data[written..]);
          EnableIo(Writable);
          break;
        case Failed =>
          output.Append(data);
          EnableIo(Writable);
          excess := excess + written;
          break;
      }
    }

    /** The poller reports that the socket can be written to. */
    method HandleWrite()
      requires Valid()
      modifies this, io, output
      ensures Valid() && State() == Ready(old(State()))
      ensures Writable !in old(interests) ==> State() == old(State())
      ensures Writable in old(interests) ==>
                && |io.script| <= |old(io.script)|
                && FlushedTo(old(State()), State(), |old(io.script)| - |io.script|)
    {
      hide FlushedTo;
      FlushEnds(State());
      if Writable in interests {
        while true
          invariant Valid() && Flush(State()) == Flush(old(State()))
          decreases |io.script|
        {
          var r := io.Write(output.Peek());
          match r
          case Wrote(n) =>
            output.Retrieve(n);
            if output.ReadableBytes() == 0 {
              DisableIo(Writable);
              NotifyWriteComplete();
              break;
            }
          case WouldBlock =>
            break;
          case Failed =>
        }
      }
    }

    /** The Shutdown message of the dispatcher. */
    method HandleShutdown()
      requires Valid()
      modifies io`halfClosed
      ensures Valid() && State() == Shutdown(old(State()))
      ensures io.halfClosed <==> old(io.halfClosed) || Writable !in interests
    {
      if Writable !in interests {
        io.Shutdown();
      }
    }

    /** Any run of these operations. */
    method Perform(ops: seq<Op>)
      requires Valid()
      modifies this, io, output
      ensures Valid() && State() == Run(old(State()), ops)
    {
      var i := 0;
      while i < |ops|
        invariant 0 <= i <= |ops| && Valid() && State() == Run(old(State()), ops[..i])
      {
        assert ops[..i + 1][..i] == ops[..i];
        match ops[i] {
          case DoSend(data) => SendBytes(data);
          case DoReady => HandleWrite();
          case DoShutdown => HandleShutdown();
          case DoReading(on) =>
            if on {
              EnableIo(Readable);
            } else {
              DisableIo(Readable);
            }
        }
        i := i + 1;
      }
      assert ops[..|ops|] == ops;
    }
  }
}
