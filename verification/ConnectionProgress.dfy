/** What becomes of a connection: shutdowns are carried out, buffered output drains, high-water notices
    alternate with falls, and how a connection is taken down.
  */
module ConnectionProgress {
  import opened Bytes
  import opened Connection

  // ----- A shutdown is not forgotten ---------------------------------------------------------

  /** A close of another thread that has stored `kDisconnecting` and is about to post. */
  predicate StoredClose(calls: seq<Call>) {
    Closing(HalfClosing, true) in calls || Closing(ForceClosing, true) in calls
    || Closing(DelayedClosing, true) in calls
  }

  /** A connection that is disconnecting with nothing left to write has been half-closed, or
      something is queued or about to be that will half-close or close it. */
  predicate ShutdownDue(s: State) {
    s.state.Disconnecting? && s.out == [] ==>
      || s.halfCloses > 0 || s.closeTimers > 0
      || ShutdownTask in s.tasks || ForceCloseTask in s.tasks || StoredClose(s.calls)
  }

  lemma SendKeepsDue(c: Config, s: State, data: seq<byte>, w: WriteResult)
    requires ShutdownDue(s)
    ensures ShutdownDue(SendInLoop(c, s, data, w))
  {
    var s1 := WriteDirect(c, s, data, w);
    assert forall t :: t in s.tasks ==> t in s1.tasks;
    var s2 := BufferRest(c, s1, data[Direct(s, data, w)..]);
    assert forall t :: t in s1.tasks ==> t in s2.tasks;
  }

  lemma TaskKeepsDue(c: Config, s: State, w: WriteResult)
    requires ShutdownDue(s) && InterestSound(s) && s.tasks != []
    ensures ShutdownDue(Act(c, s, RunTask(w)))
  {
    hide SendInLoop;
    var t, rest := s.tasks[0], s.(tasks := s.tasks[1..]);
    assert s.tasks == [t] + rest.tasks;
    assert forall x :: x in s.tasks && x != t ==> x in rest.tasks;
    if t.SendTask? {
      assert ShutdownDue(rest);
      SendKeepsDue(c, rest, t.data, w);
    }
  }

  lemma WritableKeepsDue(c: Config, s: State, w: WriteResult)
    requires ShutdownDue(s) && InterestSound(s)
    ensures ShutdownDue(HandleWrite(c, s, w))
  {
  }

  lemma StoredHere(calls: seq<Call>, i: nat)
    requires i < |calls| && calls[i].Closing? && calls[i].stored
    ensures StoredClose(calls)
  {
    match calls[i].kind
    case HalfClosing => assert calls[i] == Closing(HalfClosing, true);
    case ForceClosing => assert calls[i] == Closing(ForceClosing, true);
    case DelayedClosing => assert calls[i] == Closing(DelayedClosing, true);
  }

  lemma StoredRemains(calls: seq<Call>, i: nat)
    requires i < |calls| && StoredClose(calls) && !(calls[i].Closing? && calls[i].stored)
    ensures StoredClose(calls[..i] + calls[i + 1..])
  {
    var rest := calls[..i] + calls[i + 1..];
    forall k | k in calls && k != calls[i]
      ensures k in rest
    {
      var j :| 0 <= j < |calls| && calls[j] == k;
      assert k == if j < i then rest[j] else rest[j - 1];
    }
  }

  lemma StoredAppend(calls: seq<Call>, k: Call)
    ensures StoredClose(calls) ==> StoredClose(calls + [k])
  {
    assert forall x :: x in calls ==> x in calls + [k];
  }

  lemma TasksAppend(tasks: seq<Task>, t: Task)
    ensures t in tasks + [t] && forall x :: x in tasks ==> x in tasks + [t]
  {
    assert (tasks + [t])[|tasks|] == t;
  }

  lemma PostKeepsDue(s: State, i: nat)
    requires ShutdownDue(s) && AboutToPost(s, i)
    ensures ShutdownDue(PostCall(s, i))
  {
    hide StoredClose;
    match s.calls[i]
    case Sending(data) =>
      TasksAppend(s.tasks, SendTask(data));
      if StoredClose(s.calls) {
        StoredRemains(s.calls, i);
      }
    case Closing(HalfClosing, _) => TasksAppend(s.tasks, ShutdownTask);
    case Closing(ForceClosing, _) => TasksAppend(s.tasks, ForceCloseTask);
    case Closing(DelayedClosing, _) =>
  }

  lemma ForeignKeepsDue(c: Config, s: State, step: Step)
    requires ShutdownDue(s) && Foreign(step)
    ensures ShutdownDue(Act(c, s, step))
  {
    hide PostCall, StoredClose;
    match step
    case BeginSend(data) => StoredAppend(s.calls, Sending(data));
    case BeginClose(kind) => StoredAppend(s.calls, Closing(kind, false));
    case Store(i) =>
      if AboutToStore(s, i) {
        StoredHere(StoreDisconnecting(s, i).calls, i);
      }
    case Post(i) => if AboutToPost(s, i) { PostKeepsDue(s, i); }
  }

  lemma NextKeepsDue(c: Config, s: State, step: Step)
    requires ShutdownDue(s) && InterestSound(s)
    ensures ShutdownDue(Next(c, s, step))
  {
    hide SendInLoop, HandleWrite, Perform, PostCall, StoreDisconnecting;
    if Foreign(step) {
      ForeignKeepsDue(c, s, step);
    } else {
      match step
      case LoopSend(data, w) => SendKeepsDue(c, s.(accepted := s.accepted + [data]), data, w);
      case RunTask(w) => if s.tasks != [] { TaskKeepsDue(c, s, w); }
      case Writable(w) => WritableKeepsDue(c, s, w);
      case _ =>
    }
  }

  lemma {:induction false} RunKeepsDue(c: Config, s: State, steps: seq<Step>)
    requires InterestSound(s) && ShutdownDue(s)
    ensures ShutdownDue(Run(c, s, steps))
    decreases |steps|
  {
    if steps != [] {
      NextInterest(c, s, steps[0]);
      NextKeepsDue(c, s, steps[0]);
      RunKeepsDue(c, Next(c, s, steps[0]), steps[1..]);
    }
  }

  /** `shutdown` is never lost: over every run, a connection that is disconnecting, has drained its
      output and has no task, timer or call of another thread left has been half-closed. */
  lemma ShutdownNotForgotten(c: Config, steps: seq<Step>)
    ensures var s := Run(c, INITIAL, steps);
            var idle := s.tasks == [] && s.calls == [] && s.closeTimers == 0;
            s.state.Disconnecting? && s.out == [] && idle ==> s.halfCloses > 0
  {
    RunKeepsDue(c, INITIAL, steps);
  }

  /** Writable events, with the kernel's answers. */
  function Writables(ws: seq<WriteResult>): seq<Step> {
    if ws == [] then [] else [Writable(ws[0])] + Writables(ws[1..])
  }

  lemma {:induction false} NothingToWrite(c: Config, s: State, ws: seq<WriteResult>)
    requires !s.writing
    ensures Run(c, s, Writables(ws)) == s
    decreases |ws|
  {
    if ws != [] {
      assert Writables(ws)[1..] == Writables(ws[1..]);
      NothingToWrite(c, s, ws[1..]);
    }
  }

  predicate AllProgress(ws: seq<WriteResult>) {
    forall i :: 0 <= i < |ws| ==> ws[i].Wrote? && ws[i].n > 0
  }

  /** Progress: if each writable event gets at least one byte out, as many events as there are
      buffered bytes drain the buffer onto the wire in order, switch write interest off, and then
      half-close a connection that is disconnecting, once. */
  lemma {:induction false} WritableDrains(c: Config, s: State, ws: seq<WriteResult>)
    requires !s.destroying && s.writing && s.out != [] && |ws| >= |s.out| && AllProgress(ws)
    ensures var n := Run(c, s, Writables(ws));
            && n.out == [] && !n.writing && n.state == s.state
            && n.wire == s.wire + s.out
            && n.halfCloses == s.halfCloses + if s.state.Disconnecting? then 1 else 0
    decreases |ws|
  {
    var k := Min(ws[0].n, |s.out|);
    var n := Next(c, s, Writable(ws[0]));
    assert Writables(ws)[1..] == Writables(ws[1..]);
    assert s.wire + s.out[..k] + s.out[k..] == s.wire + s.out;
    if n.out == [] {
      assert s.out[..k] == s.out;
      NothingToWrite(c, n, ws[1..]);
    } else {
      WritableDrains(c, n, ws[1..]);
    }
  }

  // ----- High-water mark and teardown ----------------------------------------------------------

  /** With the callback set and a positive mark, notifications and falls below the mark
      alternate: between two notifications the buffer must have dropped below the mark. */
  lemma HighWaterAlternates(c: Config, steps: seq<Step>)
    requires c.highWater && c.mark > 0
    ensures var s := Run(c, INITIAL, steps);
            s.notices == s.falls + if |s.out| >= c.mark then 1 else 0
  {
    RunKeepsInv(c, INITIAL, steps);
  }

  lemma NextKeepsConnecting(c: Config, s: State, step: Step)
    ensures Next(c, s, step).state.Connecting? ==> s.state.Connecting?
    ensures s == INITIAL ==> Next(c, s, step) == INITIAL || step.Establish?
  {
    hide SendInLoop, HandleWrite;
    match step
    case LoopSend(data, w) => SendInterest(c, s.(accepted := s.accepted + [data]), data, w);
    case Writable(w) => HandleWriteInterest(c, s, w); NothingToHandle(c, s, w);
    case RunTask(w) =>
      if s.tasks != [] && s.tasks[0].SendTask? {
        SendInterest(c, s.(tasks := s.tasks[1..]), s.tasks[0].data, w);
      }
    case _ =>
  }

  lemma NothingToHandle(c: Config, s: State, w: WriteResult)
    ensures !s.writing ==> HandleWrite(c, s, w) == s
  {
  }

  lemma {:induction false} ConnectingIsInitial(c: Config, s: State, steps: seq<Step>)
    requires s.state.Connecting? ==> s == INITIAL
    ensures var s' := Run(c, s, steps); s'.state.Connecting? ==> s' == INITIAL
    decreases |steps|
  {
    if steps != [] {
      NextKeepsConnecting(c, s, steps[0]);
      ConnectingIsInitial(c, Next(c, s, steps[0]), steps[1..]);
    }
  }

  /** `connectDestroyed` ends in `channel_->remove()`, which asserts that no event is enabled. The
      assertion holds exactly unless the connection was left half-way through a shutdown with an
      interest still on - and one still is on, if no store of `kDisconnecting` came late. */
  lemma DestroyAssertionIff(c: Config, steps: seq<Step>)
    ensures var s := Run(c, INITIAL, steps);
            var d := Next(c, s, Destroy);
            !d.destroying ==>
              && (!d.reading && !d.writing
                  <==> s.destroying || !(s.state.Disconnecting? && (s.reading || s.writing)))
              && (s.late == 0 ==> (!d.reading && !d.writing <==> s.destroying || !s.state.Disconnecting?))
  {
    RunKeepsInv(c, INITIAL, steps);
    ConnectingIsInitial(c, INITIAL, steps);
  }
}
