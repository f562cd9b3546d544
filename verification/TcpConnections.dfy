/** The connection as an object over its channel and its output buffer. Every method is proved
    against the transition of `Connection` that it performs.
  */
module TcpConnections {
  import opened Bytes
  import opened Connection
  import ConnectionLogs
  import Buffer
  import Channel

  /** The steps of an uninterrupted call from another thread, when `n` calls are under way already. */
  function ForeignSend(data: seq<byte>, n: nat): seq<Step> {
    [BeginSend(data), Post(n)]
  }

  function ForeignClose(kind: CloseKind, n: nat): seq<Step> {
    [BeginClose(kind), Store(n), Post(n)]
  }

  lemma ForeignSendRun(c: Config, s: State, data: seq<byte>)
    ensures Run(c, s, ForeignSend(data, |s.calls|))
         == if s.state.Connected? then s.(accepted := s.accepted + [data], tasks := s.tasks + [SendTask(data)]) else s
  {
    RunTwo(c, s, BeginSend(data), Post(|s.calls|));
    hide Run;
    var calls := s.calls + [Sending(data)];
    assert calls[..|s.calls|] + calls[|s.calls| + 1..] == s.calls;
  }

  /** What an uninterrupted close from another thread amounts to. */
  function ClosePosted(s: State, kind: CloseKind): State {
    if !Passes(s, kind) then s
    else
      var s1 := s.(state := Disconnecting);
      match kind
      case HalfClosing => s1.(tasks := s.tasks + [ShutdownTask])
      case ForceClosing => s1.(tasks := s.tasks + [ForceCloseTask])
      case DelayedClosing => s1.(closeTimers := s.closeTimers + 1)
  }

  lemma ForeignCloseRun(c: Config, s: State, kind: CloseKind)
    ensures Run(c, s, ForeignClose(kind, |s.calls|)) == ClosePosted(s, kind)
  {
    var n := |s.calls|;
    RunTwo(c, s, BeginClose(kind), Store(n));
    RunSnoc(c, s, [BeginClose(kind), Store(n)], Post(n));
    assert [BeginClose(kind), Store(n)] + [Post(n)] == ForeignClose(kind, n);
    hide Run;
    if Passes(s, kind) {
      StoreAndPost(s, kind);
    }
  }

  lemma StoreAndPost(s: State, kind: CloseKind)
    requires Passes(s, kind)
    ensures var s1, n := s.(calls := s.calls + [Closing(kind, false)]), |s.calls|;
            AboutToStore(s1, n) && AboutToPost(StoreDisconnecting(s1, n), n)
              && PostCall(StoreDisconnecting(s1, n), n) == ClosePosted(s, kind)
  {
    var s1, n := s.(calls := s.calls + [Closing(kind, false)]), |s.calls|;
    var s2 := StoreDisconnecting(s1, n);
    assert s2.calls[..n] + s2.calls[n + 1..] == s.calls;
  }

  lemma DestroyRun(c: Config, s: State)
    requires !s.destroying
    ensures Run(c, s, if s.state.Connected? then [Destroy, Destroy] else [Destroy])
         == if s.state.Connected? then Connection.HandleClose(s) else s
  {
    if s.state.Connected? {
      RunTwo(c, s, Destroy, Destroy);
    } else {
      RunSnoc(c, s, [], Destroy);
    }
  }

  /** `pendingTasks` stands for what the connection has put on its loop's queue. */
  class TcpConnection {
    const config: Config
    const channel: Channel.Channel
    const inputBuffer: Buffer.Buffer
    const outputBuffer: Buffer.Buffer
    var state: ConnState
    var pendingTasks: seq<Task>
    var closeTimers: nat
    ghost var calls: seq<Call>
    ghost var wire: seq<byte>
    ghost var accepted: seq<seq<byte>>
    ghost var processed: seq<Payload>
    ghost var notices: nat
    ghost var falls: nat
    ghost var halfCloses: nat
    ghost var late: nat

    ghost predicate Valid()
      reads this, channel, inputBuffer, outputBuffer
    {
      && channel.Valid() && inputBuffer.Valid() && outputBuffer.Valid()
      && inputBuffer != outputBuffer && inputBuffer.data != outputBuffer.data
    }

    ghost function Abs(): State
      requires Valid()
      reads this, channel, inputBuffer, outputBuffer, outputBuffer.data
    {
      State(state, channel.IsReading(), channel.IsWriting(), outputBuffer.Contents(), pendingTasks, closeTimers,
            calls, false, wire, accepted, processed, notices, falls, halfCloses, late)
    }

    constructor (config: Config)
      ensures this.config == config && Valid() && Abs() == INITIAL
      ensures fresh(channel) && fresh(inputBuffer) && fresh(outputBuffer)
      ensures fresh(inputBuffer.data) && fresh(outputBuffer.data)
    {
      this.config := config;
      channel := new Channel.Channel();
      inputBuffer := new Buffer.Buffer(Buffer.INITIAL_SIZE);
      outputBuffer := new Buffer.Buffer(Buffer.INITIAL_SIZE);
      state, pendingTasks, closeTimers := Connecting, [], 0;
      calls, wire, accepted, processed, notices, falls, halfCloses, late := [], [], [], [], 0, 0, 0, 0;
    }

    method ConnectEstablished()
      requires Valid() && state.Connecting?
      modifies this`state, channel
      ensures Valid() && Abs() == Next(config, old(Abs()), Establish)
      ensures state == Connected && channel.IsReading() && channel.IsWriting() == old(channel.IsWriting())
    {
      state := Connected;
      channel.EnableReading();
    }

    /** Nothing is waiting to be written, so a send may write directly. */
    ghost predicate Idle()
      reads this, channel, outputBuffer, outputBuffer.data
      requires outputBuffer.Valid()
    {
      !channel.IsWriting() && outputBuffer.Contents() == []
    }

    /** `w` is the kernel's answer to the direct write, if there is one. The payload is dropped whole if
        the connection is gone or that answer is a broken pipe, and otherwise not a byte of it is lost. */
    method SendInLoop(data: seq<byte>, w: WriteResult)
      requires Valid()
      modifies this, channel, outputBuffer, outputBuffer.data
      ensures Valid() && (outputBuffer.data == old(outputBuffer.data) || fresh(outputBuffer.data))
      ensures Abs() == Connection.SendInLoop(config, old(Abs()), data, w)
      ensures var dropped := old(state).Disconnected? || (old(Idle()) && w.BrokenPipe?);
              var out, out' := old(outputBuffer.Contents()), outputBuffer.Contents();
              && wire + out' == old(wire) + out + (if dropped then [] else data)
              && wire == old(wire)
                   + (if !dropped && old(Idle()) && w.Wrote? then data[..Min(w.n, |data|)] else [])
              && (channel.IsWriting() <==> old(channel.IsWriting()) || |out'| > |out|)
              && channel.IsReading() == old(channel.IsReading()) && state == old(state)
              && pendingTasks == old(pendingTasks)
                   + (if !dropped && old(Idle()) && w.Wrote? && w.n >= |data| && config.writeComplete
                      then [WriteCompleteTask] else [])
                   + (if |out| < config.mark <= |out'| && config.highWater then [HighWaterTask(|out'|)] else [])
    {
      ConnectionLogs.SendEffect(config, Abs(), data, w);
      if state.Disconnected? {
        processed := processed + [Payload(data, Ignored)];
        return;
      }
      var nwrote, fault := TryDirectWrite(data, w);
      if !fault {
        AppendRemaining(data[nwrote..]);
      }
    }

    method TryDirectWrite(data: seq<byte>, w: WriteResult) returns (nwrote: nat, fault: bool)
      requires Valid()
      modifies this
      ensures Valid() && Abs() == WriteDirect(config, old(Abs()), data, w)
      ensures nwrote == Direct(old(Abs()), data, w) && fault == Fault(old(Abs()), w)
    {
      nwrote, fault := 0, false;
      if !channel.IsWriting() && outputBuffer.Readable() == 0 {
        if w.Wrote? {
          nwrote := Min(w.n, |data|);
          wire := wire + data[..nwrote];
          if nwrote == |data| && config.writeComplete {
            pendingTasks := pendingTasks + [WriteCompleteTask];
          }
        } else if w.BrokenPipe? {
          fault := true;
        }
      }
      processed := processed + [Payload(data, if fault then Faulted else Kept)];
    }

    method AppendRemaining(rest: seq<byte>)
      requires Valid()
      modifies this, channel, outputBuffer, outputBuffer.data
      ensures Valid() && (outputBuffer.data == old(outputBuffer.data) || fresh(outputBuffer.data))
      ensures Abs() == BufferRest(config, old(Abs()), rest)
    {
      ConnectionLogs.RestEffect(config, Abs(), rest);
      if |rest| > 0 {
        hide BufferRest;
        var oldLen, remaining := outputBuffer.Readable(), |rest|;
        if oldLen + remaining >= config.mark && oldLen < config.mark && config.highWater {
          pendingTasks := pendingTasks + [HighWaterTask(oldLen + remaining)];
          notices := notices + 1;
        }
        outputBuffer.Append(rest);
        if !channel.IsWriting() {
          channel.EnableWriting();
        }
      }
    }

    /** The socket is readable: `incoming` is what `readv` got (nothing at the end of the stream), unless
        it failed. The end of the stream closes the connection, which must still be open then. */
    method HandleRead(incoming: seq<byte>, fails: bool) returns (n: int)
      requires Valid() && |incoming| <= inputBuffer.Writable() + Buffer.EXTRA_SIZE
      requires incoming == [] && !fails ==> state.Connected? || state.Disconnecting?
      modifies this`state, channel, inputBuffer, inputBuffer.data
      ensures Valid() && n == if fails then -1 else |incoming|
      ensures inputBuffer.Contents() == old(inputBuffer.Contents()) + if fails then [] else incoming
      ensures Abs() == if n == 0 then Next(config, old(Abs()), PeerClosed) else old(Abs())
    {
      n := inputBuffer.ReadFd(incoming, fails);
      if n == 0 {
        HandleClose();
      }
    }

    /** The socket is writable; `w` is the kernel's answer to writing the whole output buffer. */
    method HandleWrite(w: WriteResult)
      requires Valid()
      modifies this, channel, outputBuffer
      ensures Valid() && outputBuffer.data == old(outputBuffer.data)
      ensures Abs() == Connection.HandleWrite(config, old(Abs()), w)
      ensures var out := old(outputBuffer.Contents());
              var n := if old(channel.IsWriting()) && w.Wrote? then Min(w.n, |out|) else 0;
              var emptied := 0 < n == |out|;
              && wire == old(wire) + out[..n] && outputBuffer.Contents() == out[n..]
              && (channel.IsWriting() <==> old(channel.IsWriting()) && !emptied)
              && channel.IsReading() == old(channel.IsReading()) && state == old(state)
              && pendingTasks
                 == old(pendingTasks) + (if emptied && config.writeComplete then [WriteCompleteTask] else [])
              && halfCloses == old(halfCloses) + (if emptied && old(state).Disconnecting? then 1 else 0)
    {
      ConnectionLogs.WriteEffect(config, Abs(), w);
      if channel.IsWriting() && w.Wrote? {
        var n := Min(w.n, outputBuffer.Readable());
        if n > 0 {
          Drain(n);
          if outputBuffer.Readable() == 0 {
            channel.DisableWriting();
            if config.writeComplete {
              pendingTasks := pendingTasks + [WriteCompleteTask];
            }
            if state.Disconnecting? {
              ShutdownInLoop();
            }
          }
        }
      }
    }

    /** `n` bytes have gone from the buffer to the wire. */
    method Drain(n: nat)
      requires Valid() && 0 < n <= |outputBuffer.Contents()|
      modifies this`wire, this`falls, outputBuffer
      ensures Valid() && outputBuffer.data == old(outputBuffer.data)
      ensures var s := old(Abs());
              Abs() == s.(wire := s.wire + s.out[..n], out := s.out[n..],
                          falls := s.falls + if |s.out| - n < config.mark <= |s.out| then 1 else 0)
    {
      ghost var out := outputBuffer.Contents();
      wire := wire + out[..n];
      falls := falls + if |out| - n < config.mark <= |out| then 1 else 0;
      outputBuffer.Retrieve(n);
    }

    method ShutdownInLoop()
      requires Valid()
      modifies this`halfCloses
      ensures Valid() && Abs() == Connection.ShutdownInLoop(old(Abs()))
      ensures halfCloses == old(halfCloses) + if channel.IsWriting() then 0 else 1
    {
      if !channel.IsWriting() {
        halfCloses := halfCloses + 1;
      }
    }

    method HandleClose()
      requires Valid() && (state.Connected? || state.Disconnecting?)
      modifies this`state, channel
      ensures Valid() && Abs() == Connection.HandleClose(old(Abs()))
      ensures state == Disconnected && !channel.IsReading() && !channel.IsWriting()
    {
      state := Disconnected;
      channel.DisableAll();
    }

    method ForceCloseInLoop()
      requires Valid()
      modifies this`state, channel
      ensures Valid() && Abs() == Connection.ForceCloseInLoop(old(Abs()))
      ensures state == if old(state).Connecting? then Connecting else Disconnected
      ensures old(state).Connected? || old(state).Disconnecting? ==> !channel.IsReading() && !channel.IsWriting()
    {
      if state.Connected? || state.Disconnecting? {
        HandleClose();
      }
    }

    /** From another thread: the test, and the post, uninterrupted. */
    method Send(inLoopThread: bool, data: seq<byte>, w: WriteResult)
      requires Valid()
      modifies this, channel, outputBuffer, outputBuffer.data
      ensures Valid() && (outputBuffer.data == old(outputBuffer.data) || fresh(outputBuffer.data))
      ensures Abs() == if inLoopThread then Next(config, old(Abs()), LoopSend(data, w))
                       else Run(config, old(Abs()), ForeignSend(data, |old(calls)|))
      ensures accepted == old(accepted) + if old(state).Connected? then [data] else []
      ensures !inLoopThread && old(state).Connected? ==> pendingTasks == old(pendingTasks) + [SendTask(data)]
      ensures !inLoopThread || !old(state).Connected? ==>
                wire == old(wire) && outputBuffer.Contents() == old(outputBuffer.Contents())
      ensures inLoopThread && old(state).Connected? ==>
                wire + outputBuffer.Contents() == old(wire) + old(outputBuffer.Contents())
                  + if old(Idle()) && w.BrokenPipe? then [] else data
    {
      ForeignSendRun(config, Abs(), data);
      if state.Connected? {
        accepted := accepted + [data];
        if inLoopThread {
          SendInLoop(data, w);
        } else {
          pendingTasks := pendingTasks + [SendTask(data)];
        }
      }
    }

    /** The overload that takes a buffer empties it. The buffer may be the connection's own input
        buffer, as in an echo. */
    method SendBuffer(inLoopThread: bool, buffer: Buffer.Buffer, w: WriteResult)
      requires Valid() && buffer.Valid()
      requires buffer != outputBuffer && buffer.data != outputBuffer.data
      modifies this, channel, outputBuffer, outputBuffer.data, buffer
      ensures Valid() && buffer.Valid()
      ensures buffer.Contents() == if old(state).Connected? then [] else old(buffer.Contents())
      ensures var data := old(buffer.Contents());
              Abs() == if inLoopThread then Next(config, old(Abs()), LoopSend(data, w))
                       else Run(config, old(Abs()), ForeignSend(data, |old(calls)|))
      ensures accepted == old(accepted) + if old(state).Connected? then [old(buffer.Contents())] else []
    {
      if state.Connected? {
        if inLoopThread {
          Send(true, buffer.data[buffer.reader..buffer.writer], w);
          buffer.RetrieveAll();
        } else {
          var message := buffer.RetrieveAllAsString();
          Send(false, message, w);
        }
      } else {
        ForeignSendRun(config, Abs(), buffer.Contents());
      }
    }

    /** From another thread: the test, the store and the post, uninterrupted. */
    method Shutdown(inLoopThread: bool)
      requires Valid()
      modifies this
      ensures Valid()
      ensures Abs() == if inLoopThread then Next(config, old(Abs()), LoopShutdown)
                       else Run(config, old(Abs()), ForeignClose(HalfClosing, |old(calls)|))
      ensures state == if old(state).Connected? then Disconnecting else old(state)
      ensures pendingTasks
              == old(pendingTasks) + if old(state).Connected? && !inLoopThread then [ShutdownTask] else []
      ensures halfCloses == old(halfCloses)
                + if old(state).Connected? && inLoopThread && !channel.IsWriting() then 1 else 0
    {
      ForeignCloseRun(config, Abs(), HalfClosing);
      if state.Connected? {
        state := Disconnecting;
        if inLoopThread {
          ShutdownInLoop();
        } else {
          pendingTasks := pendingTasks + [ShutdownTask];
        }
      }
    }

    method ForceClose(inLoopThread: bool)
      requires Valid()
      modifies this
      ensures Valid()
      ensures Abs() == if inLoopThread then Next(config, old(Abs()), LoopForceClose)
                       else Run(config, old(Abs()), ForeignClose(ForceClosing, |old(calls)|))
      ensures var open := old(state).Connected? || old(state).Disconnecting?;
              && state == (if open then Disconnecting else old(state))
              && pendingTasks == old(pendingTasks) + (if open then [ForceCloseTask] else [])
    {
      ForeignCloseRun(config, Abs(), ForceClosing);
      if state.Connected? || state.Disconnecting? {
        state := Disconnecting;
        pendingTasks := pendingTasks + [ForceCloseTask];
      }
    }

    method ForceCloseWithDelay(inLoopThread: bool)
      requires Valid()
      modifies this
      ensures Valid()
      ensures Abs() == if inLoopThread then Next(config, old(Abs()), LoopForceCloseWithDelay)
                       else Run(config, old(Abs()), ForeignClose(DelayedClosing, |old(calls)|))
      ensures var open := old(state).Connected? || old(state).Disconnecting?;
              && state == (if open then Disconnecting else old(state))
              && closeTimers == old(closeTimers) + (if open then 1 else 0)
    {
      ForeignCloseRun(config, Abs(), DelayedClosing);
      if state.Connected? || state.Disconnecting? {
        state := Disconnecting;
        closeTimers := closeTimers + 1;
      }
    }

    /** `channel_->remove()`, which follows, asserts that no interest is left. */
    method ConnectDestroyed() returns (idle: bool)
      requires Valid()
      modifies this`state, channel
      ensures Valid()
      ensures Abs() == Run(config, old(Abs()), if old(state).Connected? then [Destroy, Destroy] else [Destroy])
      ensures state == if old(state).Connected? then Disconnected else old(state)
      ensures old(state).Connected? ==> !channel.IsReading() && !channel.IsWriting()
      ensures idle <==> !channel.IsReading() && !channel.IsWriting()
    {
      DestroyRun(config, Abs());
      if state.Connected? {
        state := Disconnected;
        channel.DisableAll();
      }
      channel.NoneIff();
      idle := channel.IsNoneEvent();
    }
  }
}
