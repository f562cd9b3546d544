/** The logs of a connection read off the steps of a run: what `send` accepted, what became of every
    payload, and what the kernel took. Each condition is written out in the fields of the state in
    which the step is taken. Also: no forced close is forgotten.
  */
module ConnectionLogs {
  import opened Bytes
  import opened Connection

  // ----- One send, one write -----------------------------------------------------------------

  /** `sendInLoop` loses no byte, and adds none: on a connection that is not disconnected the wire and
      the buffer grow together by the whole payload, unless nothing was waiting and the kernel said
      that the pipe is broken. Only then is the payload dropped. */
  lemma SendEffect(c: Config, s: State, data: seq<byte>, w: WriteResult)
    ensures var s' := SendInLoop(c, s, data, w);
            var idle := !s.writing && s.out == [];
            var written := if idle && w.Wrote? then data[..Min(w.n, |data|)] else [];
            && (s.state.Disconnected? ==>
                  s' == s.(processed := s.processed + [Payload(data, Ignored)]))
            && (!s.state.Disconnected? && idle && w.BrokenPipe? ==>
                  s' == s.(processed := s.processed + [Payload(data, Faulted)]))
            && (!s.state.Disconnected? && !(idle && w.BrokenPipe?) ==>
                  && s'.processed == s.processed + [Payload(data, Kept)]
                  && s'.wire == s.wire + written
                  && s'.wire + s'.out == s.wire + s.out + data
                  && (s'.writing <==> s.writing || |written| < |data|)
                  && s'.tasks == s.tasks
                       + (if idle && w.Wrote? && w.n >= |data| && c.writeComplete then [WriteCompleteTask] else [])
                       + (if |s.out| < c.mark <= |s'.out| && c.highWater then [HighWaterTask(|s'.out|)] else []))
            && s'.state == s.state && s'.reading == s.reading && s'.closeTimers == s.closeTimers
            && s'.halfCloses == s.halfCloses && s'.accepted == s.accepted
  {
    hide WriteDirect, BufferRest;
    var s1, n := WriteDirect(c, s, data, w), Direct(s, data, w);
    if !s.state.Disconnected? {
      DirectEffect(c, s, data, w);
      RestEffect(c, s1, data[n..]);
      SplitPayload(s.wire, s.out, data, n);
    }
  }

  lemma DirectEffect(c: Config, s: State, data: seq<byte>, w: WriteResult)
    ensures var idle := !s.writing && s.out == [];
            var done := idle && w.Wrote? && w.n >= |data| && c.writeComplete;
            WriteDirect(c, s, data, w)
            == s.(wire := s.wire + data[..Direct(s, data, w)],
                  tasks := s.tasks + (if done then [WriteCompleteTask] else []),
                  processed := s.processed + [Payload(data, if idle && w.BrokenPipe? then Faulted else Kept)])
    ensures !s.writing && s.out == [] && w.BrokenPipe? ==>
              WriteDirect(c, s, data, w) == s.(processed := s.processed + [Payload(data, Faulted)])
  {
    assert data[..0] == [] && s.wire + [] == s.wire && s.tasks + [] == s.tasks;
  }

  lemma RestEffect(c: Config, s: State, rest: seq<byte>)
    ensures var s' := BufferRest(c, s, rest);
            var notify := c.highWater && |s.out| < c.mark <= |s.out| + |rest|;
            s' == s.(tasks := s.tasks + (if notify then [HighWaterTask(|s.out| + |rest|)] else []),
                     notices := s.notices + (if notify then 1 else 0),
                     out := s.out + rest,
                     writing := s.writing || |rest| > 0)
  {
    assert s.tasks + [] == s.tasks && s.out + [] == s.out;
  }

  /** What a writable event does: exactly the bytes that the kernel took go from the front of the
      buffer to the wire; with the last of them write interest ends, the completion callback is
      queued, and a connection that is disconnecting is half-closed. */
  lemma WriteEffect(c: Config, s: State, w: WriteResult)
    ensures var s' := HandleWrite(c, s, w);
            var n := if s.writing && w.Wrote? then Min(w.n, |s.out|) else 0;
            var emptied := 0 < n == |s.out|;
            && s'.wire == s.wire + s.out[..n] && s'.out == s.out[n..]
            && (s'.writing <==> s.writing && !emptied)
            && s'.tasks == s.tasks + (if emptied && c.writeComplete then [WriteCompleteTask] else [])
            && s'.halfCloses == s.halfCloses + (if emptied && s.state.Disconnecting? then 1 else 0)
            && s'.state == s.state && s'.reading == s.reading && s'.closeTimers == s.closeTimers
            && s'.accepted == s.accepted && s'.processed == s.processed
  {
    assert s.out[..0] == [] && s.wire + [] == s.wire && s.tasks + [] == s.tasks;
  }

  // ----- Logs of a run -----------------------------------------------------------------------

  /** The payload that a step hands to `sendInLoop`, if any. */
  function SentBy(s: State, step: Step): seq<seq<byte>> {
    if s.destroying then []
    else if step.LoopSend? && s.state == Connected then [step.data]
    else if step.RunTask? && s.tasks != [] && s.tasks[0].SendTask? then [s.tasks[0].data]
    else []
  }

  /** The kernel's answer that comes with a step. */
  function Answer(step: Step): WriteResult {
    match step
    case LoopSend(_, w) => w
    case RunTask(w) => w
    case Writable(w) => w
    case _ => WouldBlock
  }

  /** What becomes of it: ignored exactly if the connection is gone, and otherwise dropped exactly if
      nothing is waiting to be written and the kernel says that the pipe is broken. */
  function ProcessedBy(s: State, step: Step): seq<Payload> {
    if SentBy(s, step) == [] then []
    else
      var data := SentBy(s, step)[0];
      if s.state == Disconnected then [Payload(data, Ignored)]
      else if !s.writing && s.out == [] && Answer(step) == BrokenPipe then [Payload(data, Faulted)]
      else [Payload(data, Kept)]
  }

  /** The payload that a `send` accepts, on the loop thread or elsewhere. */
  function AcceptedBy(s: State, step: Step): seq<seq<byte>> {
    if s.state == Connected && (step.BeginSend? || (step.LoopSend? && !s.destroying)) then [step.data] else []
  }

  /** The bytes that the kernel takes: of a payload if nothing is waiting before it, of the buffer on a
      writable event. */
  function TakenBy(s: State, step: Step): seq<byte> {
    if s.destroying || !Answer(step).Wrote? then []
    else if SentBy(s, step) != [] && s.state != Disconnected && !s.writing && s.out == [] then
      First(SentBy(s, step)[0], Answer(step).n)
    else if step.Writable? && s.writing then First(s.out, Answer(step).n)
    else []
  }

  /** The first `n` of some bytes, or all of them. */
  function First(bytes: seq<byte>, n: nat): seq<byte> {
    if n <= |bytes| then bytes[..n] else bytes
  }

  function AcceptedIn(c: Config, s: State, steps: seq<Step>): seq<seq<byte>>
    decreases |steps|
  {
    if steps == [] then [] else AcceptedBy(s, steps[0]) + AcceptedIn(c, Next(c, s, steps[0]), steps[1..])
  }

  function ProcessedIn(c: Config, s: State, steps: seq<Step>): seq<Payload>
    decreases |steps|
  {
    if steps == [] then [] else ProcessedBy(s, steps[0]) + ProcessedIn(c, Next(c, s, steps[0]), steps[1..])
  }

  function TakenIn(c: Config, s: State, steps: seq<Step>): seq<byte>
    decreases |steps|
  {
    if steps == [] then [] else TakenBy(s, steps[0]) + TakenIn(c, Next(c, s, steps[0]), steps[1..])
  }

  predicate StepLogged(c: Config, s: State, step: Step) {
    var s' := Next(c, s, step);
    && s'.accepted == s.accepted + AcceptedBy(s, step)
    && s'.processed == s.processed + ProcessedBy(s, step)
    && s'.wire == s.wire + TakenBy(s, step)
  }

  lemma Nothing<T>(xs: seq<T>)
    ensures xs + [] == xs
  {
  }

  lemma FirstIs(bytes: seq<byte>, n: nat)
    ensures First(bytes, n) == bytes[..Min(n, |bytes|)]
  {
  }

  lemma SendLogged(c: Config, s: State, data: seq<byte>, w: WriteResult)
    ensures var s' := SendInLoop(c, s, data, w);
            && s'.accepted == s.accepted
            && s'.processed == s.processed
                 + (if s.state.Disconnected? then [Payload(data, Ignored)]
                    else if !s.writing && s.out == [] && w.BrokenPipe? then [Payload(data, Faulted)]
                    else [Payload(data, Kept)])
            && s'.wire == s.wire
                 + (if w.Wrote? && !s.state.Disconnected? && !s.writing && s.out == [] then First(data, w.n) else [])
  {
    SendEffect(c, s, data, w);
    Nothing(s.wire);
    if w.Wrote? {
      FirstIs(data, w.n);
    }
  }

  lemma LogsStep(c: Config, s: State, step: Step)
    ensures StepLogged(c, s, step)
  {
    hide SendInLoop, HandleWrite, First, KeptBytes;
    if Foreign(step) {
      ForeignLogged(c, s, step);
    } else if s.destroying || !MovesBytes(s, step) {
      OtherLogged(c, s, step);
    } else {
      match step
      case LoopSend(data, w) => LoopSendLogged(c, s, data, w);
      case RunTask(w) => SendLogged(c, s.(tasks := s.tasks[1..]), s.tasks[0].data, w);
      case Writable(w) =>
        WriteLogged(c, s, w);
        Nothing(s.accepted);
        Nothing(s.processed);
        Nothing(s.wire);
    }
  }

  lemma LoopSendLogged(c: Config, s: State, data: seq<byte>, w: WriteResult)
    requires !s.destroying
    ensures StepLogged(c, s, LoopSend(data, w))
  {
    hide SendInLoop, First;
    SendLogged(c, s.(accepted := s.accepted + [data]), data, w);
    Nothing(s.accepted);
    Nothing(s.processed);
    Nothing(s.wire);
  }

  lemma ForeignLogged(c: Config, s: State, step: Step)
    requires Foreign(step)
    ensures StepLogged(c, s, step)
  {
    ForeignMovesNothing(c, s, step);
    Nothing(s.accepted);
    Nothing(s.processed);
    Nothing(s.wire);
  }

  lemma OtherLogged(c: Config, s: State, step: Step)
    requires !Foreign(step) && (s.destroying || !MovesBytes(s, step))
    ensures StepLogged(c, s, step)
  {
    Nothing(s.accepted);
    Nothing(s.processed);
    Nothing(s.wire);
  }

  lemma WriteLogged(c: Config, s: State, w: WriteResult)
    ensures var s' := HandleWrite(c, s, w);
            && s'.accepted == s.accepted && s'.processed == s.processed
            && s'.wire == s.wire + if s.writing && w.Wrote? then First(s.out, w.n) else []
  {
    WriteEffect(c, s, w);
    if w.Wrote? {
      FirstIs(s.out, w.n);
    }
  }

  lemma {:induction false} RunLogs(c: Config, s: State, steps: seq<Step>)
    ensures var s' := Run(c, s, steps);
            && s'.accepted == s.accepted + AcceptedIn(c, s, steps)
            && s'.processed == s.processed + ProcessedIn(c, s, steps)
            && s'.wire == s.wire + TakenIn(c, s, steps)
    decreases |steps|
  {
    if steps == [] {
      Nothing(s.accepted);
      Nothing(s.processed);
      Nothing(s.wire);
    } else {
      hide Next, AcceptedBy, ProcessedBy, TakenBy;
      var n := Next(c, s, steps[0]);
      LogsStep(c, s, steps[0]);
      RunLogs(c, n, steps[1..]);
      Regroup(s.accepted, AcceptedBy(s, steps[0]), AcceptedIn(c, n, steps[1..]));
      Regroup(s.processed, ProcessedBy(s, steps[0]), ProcessedIn(c, n, steps[1..]));
      Regroup(s.wire, TakenBy(s, steps[0]), TakenIn(c, n, steps[1..]));
    }
  }

  lemma Regroup<T>(a: seq<T>, b: seq<T>, c: seq<T>)
    ensures a + b + c == a + (b + c)
  {
  }

  /** Over every interleaving, with the logs read off the steps: the bytes that the kernel took,
      followed by the bytes still buffered, are the payloads that reached `sendInLoop`, whole and in
      order, without those that met a broken pipe with nothing waiting or a connection that was gone. */
  lemma EveryByteAccounted(c: Config, steps: seq<Step>)
    ensures var s := Run(c, INITIAL, steps);
            && TakenIn(c, INITIAL, steps) + s.out == KeptBytes(ProcessedIn(c, INITIAL, steps))
            && s.wire == TakenIn(c, INITIAL, steps)
            && s.processed == ProcessedIn(c, INITIAL, steps)
            && s.accepted == AcceptedIn(c, INITIAL, steps)
  {
    ByteStreamConservation(c, steps);
    RunLogs(c, INITIAL, steps);
    EmptyFront(AcceptedIn(c, INITIAL, steps));
    EmptyFront(ProcessedIn(c, INITIAL, steps));
    EmptyFront(TakenIn(c, INITIAL, steps));
  }

  lemma EmptyFront<T>(xs: seq<T>)
    ensures [] + xs == xs
  {
  }

  // ----- No forced close is forgotten --------------------------------------------------------

  /** A forced close that is queued, on a timer, or about to be. */
  predicate ForceCloseDue(s: State) {
    || s.closeTimers > 0 || ForceCloseTask in s.tasks
    || Closing(ForceClosing, true) in s.calls || Closing(DelayedClosing, true) in s.calls
    || Closing(ForceClosing, false) in s.calls || Closing(DelayedClosing, false) in s.calls
  }

  /** The steps with which a forced close begins, on the loop thread or elsewhere. */
  predicate BeginsForceClose(s: State, step: Step) {
    && (s.state == Connected || s.state == Disconnecting)
    && (((step.LoopForceClose? || step.LoopForceCloseWithDelay?) && !s.destroying)
        || (step.BeginClose? && step.kind != HalfClosing))
  }

  lemma CallsGrow(calls: seq<Call>, k: Call)
    ensures k in calls + [k] && forall x :: x in calls ==> x in calls + [k]
  {
    assert (calls + [k])[|calls|] == k;
  }

  lemma TasksGrow(tasks: seq<Task>, t: Task)
    ensures t in tasks + [t] && forall x :: x in tasks ==> x in tasks + [t]
  {
    assert (tasks + [t])[|tasks|] == t;
  }

  lemma ForceCloseStarts(c: Config, s: State, step: Step)
    requires BeginsForceClose(s, step)
    ensures ForceCloseDue(Next(c, s, step)) && !Next(c, s, step).state.Connecting?
  {
    if step.BeginClose? {
      CallsGrow(s.calls, Closing(step.kind, false));
    } else {
      TasksGrow(s.tasks, ForceCloseTask);
    }
  }

  /** The queued task and the timer close every open connection. */
  lemma ForceCloseCloses(c: Config, s: State, step: Step)
    requires !s.destroying && !s.state.Connecting?
    requires (step.CloseTimerFires? && s.closeTimers > 0)
             || (step.RunTask? && s.tasks != [] && s.tasks[0] == ForceCloseTask)
    ensures var s' := Next(c, s, step);
            && s'.state == Disconnected
            && (s.state != Disconnected ==> !s'.reading && !s'.writing)
            && s'.wire == s.wire && s'.out == s.out && s'.halfCloses == s.halfCloses
  {
  }

  /** What holds from then on, until a late store. */
  predicate ClosedOrDue(s: State) {
    !s.state.Connecting? && (s.state.Disconnected? || ForceCloseDue(s))
  }

  lemma MoreTasks(s: State, s': State)
    requires ForceCloseDue(s) && s.tasks <= s'.tasks && s'.calls == s.calls && s'.closeTimers == s.closeTimers
    ensures ForceCloseDue(s')
  {
    assert forall t :: t in s.tasks ==> t in s'.tasks;
  }

  lemma SendKeepsClosing(c: Config, s: State, data: seq<byte>, w: WriteResult)
    requires ClosedOrDue(s)
    ensures ClosedOrDue(SendInLoop(c, s, data, w))
  {
    hide SendInLoop, ForceCloseDue;
    var s' := SendInLoop(c, s, data, w);
    SendEffect(c, s, data, w);
    SendInterest(c, s, data, w);
    if ForceCloseDue(s) {
      MoreTasks(s, s');
    }
  }

  lemma TaskKeepsClosing(c: Config, s: State, w: WriteResult)
    requires ClosedOrDue(s) && s.tasks != []
    ensures ClosedOrDue(Act(c, s, RunTask(w)))
  {
    hide SendInLoop;
    var t, rest := s.tasks[0], s.(tasks := s.tasks[1..]);
    assert s.tasks == [t] + rest.tasks;
    if t.SendTask? {
      assert ForceCloseTask in s.tasks ==> ForceCloseTask in rest.tasks;
      SendKeepsClosing(c, rest, t.data, w);
    }
  }

  lemma WriteKeepsClosing(c: Config, s: State, w: WriteResult)
    requires ClosedOrDue(s)
    ensures ClosedOrDue(HandleWrite(c, s, w))
  {
    hide HandleWrite, ForceCloseDue;
    WriteEffect(c, s, w);
    HandleWriteInterest(c, s, w);
    if ForceCloseDue(s) {
      MoreTasks(s, HandleWrite(c, s, w));
    }
  }

  lemma OthersRemain(calls: seq<Call>, i: nat, x: Call, k: Call)
    requires i < |calls| && k in calls && k != calls[i]
    ensures k in calls[..i] + calls[i + 1..] && k in calls[i := x]
  {
    var rest := calls[..i] + calls[i + 1..];
    var j :| 0 <= j < |calls| && calls[j] == k;
    assert k == if j < i then rest[j] else rest[j - 1];
    assert calls[i := x][j] == k;
  }

  /** The calls of other threads that will force a close. */
  predicate ForcingCall(k: Call) {
    k.Closing? && !k.kind.HalfClosing?
  }

  lemma DueByCall(s: State, k: Call)
    requires k in s.calls && ForcingCall(k)
    ensures ForceCloseDue(s)
  {
    assert k == Closing(k.kind, k.stored);
  }

  lemma DueHow(s: State) returns (k: Call)
    requires ForceCloseDue(s) && s.closeTimers == 0 && ForceCloseTask !in s.tasks
    ensures k in s.calls && ForcingCall(k)
  {
    k := if Closing(ForceClosing, true) in s.calls then Closing(ForceClosing, true)
         else if Closing(DelayedClosing, true) in s.calls then Closing(DelayedClosing, true)
         else if Closing(ForceClosing, false) in s.calls then Closing(ForceClosing, false)
         else Closing(DelayedClosing, false);
  }

  lemma StoreKeepsDue(s: State, i: nat)
    requires ForceCloseDue(s) && AboutToStore(s, i)
    ensures ForceCloseDue(StoreDisconnecting(s, i))
  {
    var s' := StoreDisconnecting(s, i);
    if s.closeTimers == 0 && ForceCloseTask !in s.tasks {
      hide ForceCloseDue;
      var k := DueHow(s);
      if k == s.calls[i] {
        assert s'.calls[i] == Closing(k.kind, true);
        DueByCall(s', Closing(k.kind, true));
      } else {
        OthersRemain(s.calls, i, s.calls[i].(stored := true), k);
        DueByCall(s', k);
      }
    }
  }

  lemma PostKeepsForceClose(s: State, i: nat)
    requires ForceCloseDue(s) && AboutToPost(s, i)
    ensures ForceCloseDue(PostCall(s, i))
  {
    var s' := PostCall(s, i);
    assert forall t :: t in s.tasks ==> t in s'.tasks;
    if s.closeTimers == 0 && ForceCloseTask !in s.tasks {
      hide ForceCloseDue;
      var k := DueHow(s);
      if k == s.calls[i] {
        PostForces(s, i);
      } else {
        OthersRemain(s.calls, i, k, k);
        DueByCall(s', k);
      }
    }
  }

  lemma PostForces(s: State, i: nat)
    requires AboutToPost(s, i) && ForcingCall(s.calls[i])
    ensures ForceCloseDue(PostCall(s, i))
  {
    TasksGrow(s.tasks, ForceCloseTask);
  }

  lemma ForeignKeepsClosing(c: Config, s: State, step: Step)
    requires ClosedOrDue(s) && Foreign(step) && !LateStore(s, step)
    ensures ClosedOrDue(Act(c, s, step))
  {
    hide PostCall;
    match step
    case BeginSend(data) => CallsGrow(s.calls, Sending(data));
    case BeginClose(kind) => CallsGrow(s.calls, Closing(kind, false));
    case Store(i) => if AboutToStore(s, i) { StoreKeepsDue(s, i); }
    case Post(i) => if AboutToPost(s, i) { PostKeepsClosing(s, i); }
  }

  lemma PostKeepsClosing(s: State, i: nat)
    requires ClosedOrDue(s) && AboutToPost(s, i)
    ensures ClosedOrDue(PostCall(s, i))
  {
    if !s.state.Disconnected? {
      PostKeepsForceClose(s, i);
    }
  }

  lemma NextKeepsClosing(c: Config, s: State, step: Step)
    requires ClosedOrDue(s) && !LateStore(s, step)
    ensures ClosedOrDue(Next(c, s, step))
  {
    hide SendInLoop, HandleWrite, Perform;
    if Foreign(step) {
      ForeignKeepsClosing(c, s, step);
    } else {
      match step
      case LoopSend(data, w) => SendKeepsClosing(c, s.(accepted := s.accepted + [data]), data, w);
      case LoopForceClose => TasksGrow(s.tasks, ForceCloseTask);
      case RunTask(w) => if s.tasks != [] { TaskKeepsClosing(c, s, w); }
      case Writable(w) => WriteKeepsClosing(c, s, w);
      case _ =>
    }
  }

  lemma {:induction false} RunKeepsClosing(c: Config, s: State, steps: seq<Step>)
    requires ClosedOrDue(s)
    ensures Run(c, s, steps).late >= s.late
    ensures Run(c, s, steps).late == s.late ==> ClosedOrDue(Run(c, s, steps))
    decreases |steps|
  {
    if steps != [] {
      hide Next, ClosedOrDue;
      var n := Next(c, s, steps[0]);
      NextInterest(c, s, steps[0]);
      if LateStore(s, steps[0]) {
        LateGrows(c, n, steps[1..]);
      } else {
        NextKeepsClosing(c, s, steps[0]);
        RunKeepsClosing(c, n, steps[1..]);
      }
    }
  }

  lemma {:induction false} LateGrows(c: Config, s: State, steps: seq<Step>)
    ensures Run(c, s, steps).late >= s.late
    decreases |steps|
  {
    if steps != [] {
      hide Next;
      NextInterest(c, s, steps[0]);
      LateGrows(c, Next(c, s, steps[0]), steps[1..]);
    }
  }

  /** A forced close is never lost: once it has begun on an open connection, and until a store comes
      late, the connection is disconnected whenever no task, timer or call of another thread is left. */
  lemma ForceCloseNotForgotten(c: Config, s: State, step: Step, steps: seq<Step>)
    requires BeginsForceClose(s, step)
    ensures var s' := Run(c, Next(c, s, step), steps);
            var idle := s'.tasks == [] && s'.calls == [] && s'.closeTimers == 0;
            idle && s'.late == s.late ==> s'.state == Disconnected
  {
    hide Next;
    ForceCloseStarts(c, s, step);
    NextInterest(c, s, step);
    LateGrows(c, Next(c, s, step), steps);
    RunKeepsClosing(c, Next(c, s, step), steps);
  }
}
