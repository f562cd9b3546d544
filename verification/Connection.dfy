/** A TCP connection: direct and buffered writes, write interest, half-close and forced close.

    The kernel's answer to each `write` is a parameter, so a run ranges over every legal short
    count and error. Sends and shutdowns that come from other threads travel through the loop's
    task queue, as do the callbacks that the connection queues for itself. Such a call tests
    `state_`, may store to it, and posts, each at a time of its own: `state_` has no lock, so the
    loop thread and other callers may act in between. As in `EventLoop`, a step that cannot happen
    leaves the state alone.
  */
module Connection {
  import opened Bytes

  datatype ConnState = Disconnected | Connecting | Connected | Disconnecting

  /** `write`: a count (cut to what was offered), EWOULDBLOCK, EPIPE or ECONNRESET, another errno. */
  datatype WriteResult = Wrote(n: nat) | WouldBlock | BrokenPipe | OtherError

  datatype Task =
    | SendTask(data: seq<byte>)
    | ShutdownTask
    | ForceCloseTask
    | WriteCompleteTask
    | HighWaterTask(length: nat)

  datatype CloseKind = HalfClosing | ForceClosing | DelayedClosing

  /** A call of another thread after its test of `state_`: a send about to post, or a shutdown or
      forced close about to store `kDisconnecting` or, once stored, about to post. */
  datatype Call = Sending(data: seq<byte>) | Closing(kind: CloseKind, stored: bool)

  /** What `sendInLoop` did with a payload: took it whole, lost it to a write fault, or ignored
      it because the connection was gone. */
  datatype Fate = Kept | Faulted | Ignored

  datatype Payload = Payload(data: seq<byte>, fate: Fate)

  /** The callbacks that are set, and the high-water mark. */
  datatype Config = Config(mark: nat, highWater: bool, writeComplete: bool)

  /** `calls` are those of other threads under way; `destroying` is set while `connectDestroyed`
      stands between its test of `state_` and its store. `wire` is all the kernel has accepted;
      `accepted` and `processed` are the logs of payloads taken by `send` and handled by
      `sendInLoop`; `notices` counts high-water notifications, `falls` the times the buffer dropped
      below the mark, `halfCloses` calls of `shutdownWrite`, and `late` the stores of
      `kDisconnecting` to a connection that was disconnected already. */
  datatype State = State(
    state: ConnState,
    reading: bool,
    writing: bool,
    out: seq<byte>,
    tasks: seq<Task>,
    closeTimers: nat,
    calls: seq<Call>,
    destroying: bool,
    wire: seq<byte>,
    accepted: seq<seq<byte>>,
    processed: seq<Payload>,
    notices: nat,
    falls: nat,
    halfCloses: nat,
    late: nat)

  const INITIAL := State(Connecting, false, false, [], [], 0, [], false, [], [], [], 0, 0, 0, 0)

  function Min(a: nat, b: nat): nat {
    if a <= b then a else b
  }

  /** The payload bytes that a direct write gets rid of. */
  function Direct(s: State, data: seq<byte>, w: WriteResult): (n: nat)
    ensures n <= |data|
  {
    if !s.writing && s.out == [] && w.Wrote? then Min(w.n, |data|) else 0
  }

  /** The first half of `sendInLoop`: with nothing buffered, the payload is offered to the
      kernel directly. */
  function WriteDirect(c: Config, s: State, data: seq<byte>, w: WriteResult): State {
    if s.writing || s.out != [] then
      s.(processed := s.processed + [Payload(data, Kept)])
    else
      var n := Direct(s, data, w);
      s.(
        wire := s.wire + data[..n],
        tasks := s.tasks + if w.Wrote? && n == |data| && c.writeComplete then [WriteCompleteTask] else [],
        processed := s.processed + [Payload(data, if w.BrokenPipe? then Faulted else Kept)])
  }

  /** The second half: what is left is appended to the output buffer. */
  function BufferRest(c: Config, s: State, rest: seq<byte>): State {
    if rest == [] then s
    else
      var notify := c.highWater && |s.out| < c.mark <= |s.out| + |rest|;
      s.(
        tasks := s.tasks + if notify then [HighWaterTask(|s.out| + |rest|)] else [],
        notices := s.notices + if notify then 1 else 0,
        out := s.out + rest,
        writing := true)
  }

  predicate Fault(s: State, w: WriteResult) {
    !s.writing && s.out == [] && w.BrokenPipe?
  }

  function SendInLoop(c: Config, s: State, data: seq<byte>, w: WriteResult): State {
    if s.state.Disconnected? then
      s.(processed := s.processed + [Payload(data, Ignored)])
    else
      var s1 := WriteDirect(c, s, data, w);
      if Fault(s, w) then s1 else BufferRest(c, s1, data[Direct(s, data, w)..])
  }

  function ShutdownInLoop(s: State): State {
    if s.writing then s else s.(halfCloses := s.halfCloses + 1)
  }

  function HandleWrite(c: Config, s: State, w: WriteResult): State {
    var n := if w.Wrote? then Min(w.n, |s.out|) else 0;
    if !s.writing || n == 0 then s
    else
      var s1 := s.(
        wire := s.wire + s.out[..n],
        out := s.out[n..],
        falls := s.falls + if |s.out| - n < c.mark <= |s.out| then 1 else 0);
      if s1.out != [] then s1
      else
        var s2 := s1.(
          writing := false,
          tasks := s1.tasks + if c.writeComplete then [WriteCompleteTask] else []);
        if s.state.Disconnecting? then ShutdownInLoop(s2) else s2
  }

  /** The states in which `handleClose` may be entered; elsewhere its assertion fails. */
  predicate Open(s: State) {
    s.state.Connected? || s.state.Disconnecting?
  }

  function HandleClose(s: State): State {
    s.(state := Disconnected, reading := false, writing := false)
  }

  function ForceCloseInLoop(s: State): State {
    if Open(s) then HandleClose(s) else s
  }

  /** `connectDestroyed`, up to its test and then from its store on. */
  function ConnectDestroyed(s: State): State {
    if s.destroying then HandleClose(s).(destroying := false)
    else if s.state.Connected? then s.(destroying := true)
    else s
  }

  /** `Store` and `Post` advance the i-th call under way. */
  datatype Step =
    | Establish
    | LoopSend(data: seq<byte>, w: WriteResult)
    | LoopShutdown
    | LoopForceClose
    | LoopForceCloseWithDelay
    | BeginSend(data: seq<byte>)
    | BeginClose(kind: CloseKind)
    | Store(i: nat)
    | Post(i: nat)
    | CloseTimerFires
    | RunTask(w: WriteResult)
    | Writable(w: WriteResult)
    | PeerClosed
    | Destroy

  function Perform(c: Config, s: State, t: Task, w: WriteResult): State {
    match t
    case SendTask(data) => SendInLoop(c, s, data, w)
    case ShutdownTask => ShutdownInLoop(s)
    case ForceCloseTask => ForceCloseInLoop(s)
    case _ => s
  }

  /** The test that a close from another thread begins with. */
  predicate Passes(s: State, kind: CloseKind) {
    if kind.HalfClosing? then s.state.Connected? else Open(s)
  }

  predicate AboutToStore(s: State, i: nat) {
    i < |s.calls| && s.calls[i].Closing? && !s.calls[i].stored
  }

  predicate AboutToPost(s: State, i: nat) {
    i < |s.calls| && (s.calls[i].Sending? || s.calls[i].stored)
  }

  function StoreDisconnecting(s: State, i: nat): State
    requires AboutToStore(s, i)
  {
    s.(state := Disconnecting, calls := s.calls[i := s.calls[i].(stored := true)],
       late := s.late + if s.state.Disconnected? then 1 else 0)
  }

  function PostCall(s: State, i: nat): State
    requires AboutToPost(s, i)
  {
    var s1 := s.(calls := s.calls[..i] + s.calls[i + 1..]);
    match s.calls[i]
    case Sending(data) => s1.(tasks := s.tasks + [SendTask(data)])
    case Closing(HalfClosing, _) => s1.(tasks := s.tasks + [ShutdownTask])
    case Closing(ForceClosing, _) => s1.(tasks := s.tasks + [ForceCloseTask])
    case Closing(DelayedClosing, _) => s1.(closeTimers := s.closeTimers + 1)
  }

  function Act(c: Config, s: State, step: Step): State {
    match step
    case Establish =>
      if s.state.Connecting? then s.(state := Connected, reading := true) else s
    case LoopSend(data, w) =>
      if s.state.Connected? then SendInLoop(c, s.(accepted := s.accepted + [data]), data, w) else s
    case LoopShutdown =>
      if s.state.Connected? then ShutdownInLoop(s.(state := Disconnecting)) else s
    case LoopForceClose =>
      if Open(s) then s.(state := Disconnecting, tasks := s.tasks + [ForceCloseTask]) else s
    case LoopForceCloseWithDelay =>
      if Open(s) then s.(state := Disconnecting, closeTimers := s.closeTimers + 1) else s
    case BeginSend(data) =>
      if s.state.Connected? then s.(accepted := s.accepted + [data], calls := s.calls + [Sending(data)]) else s
    case BeginClose(kind) =>
      if Passes(s, kind) then s.(calls := s.calls + [Closing(kind, false)]) else s
    case Store(i) => if AboutToStore(s, i) then StoreDisconnecting(s, i) else s
    case Post(i) => if AboutToPost(s, i) then PostCall(s, i) else s
    case CloseTimerFires =>
      if s.closeTimers > 0 then ForceCloseInLoop(s.(closeTimers := s.closeTimers - 1)) else s
    case RunTask(w) =>
      if s.tasks != [] then Perform(c, s.(tasks := s.tasks[1..]), s.tasks[0], w) else s
    case Writable(w) => HandleWrite(c, s, w)
    case PeerClosed => if Open(s) then HandleClose(s) else s
    case Destroy => ConnectDestroyed(s)
  }

  /** The steps of other threads. */
  predicate Foreign(step: Step) {
    step.BeginSend? || step.BeginClose? || step.Store? || step.Post?
  }

  /** While the loop thread is inside `connectDestroyed` it does nothing else. */
  function Next(c: Config, s: State, step: Step): State {
    if s.destroying && !Foreign(step) && !step.Destroy? then s else Act(c, s, step)
  }

  function Run(c: Config, s: State, steps: seq<Step>): State
    decreases |steps|
  {
    if steps == [] then s else Run(c, Next(c, s, steps[0]), steps[1..])
  }

  // ----- Invariant ---------------------------------------------------------------------

  /** The bytes of all payloads that were not dropped, in order. */
  function KeptBytes(ps: seq<Payload>): seq<byte> {
    if ps == [] then []
    else
      var last := ps[|ps| - 1];
      KeptBytes(ps[..|ps| - 1]) + if last.fate.Kept? then last.data else []
  }

  lemma KeptBytesSnoc(ps: seq<Payload>, p: Payload)
    ensures KeptBytes(ps + [p]) == KeptBytes(ps) + if p.fate.Kept? then p.data else []
  {
    assert (ps + [p])[..|ps|] == ps;
  }

  predicate Conserved(s: State) {
    s.wire + s.out == KeptBytes(s.processed)
  }

  /** Write interest is on exactly when there is something to write. */
  predicate WriteRight(s: State) {
    s.writing <==> s.out != [] && !s.state.Disconnected?
  }

  predicate InterestRight(s: State) {
    WriteRight(s) && (s.reading <==> Open(s))
  }

  /** The half of it that nothing can break: no interest is on that has no use. */
  predicate InterestSound(s: State) {
    && (s.writing ==> s.out != [] && !s.state.Disconnected?)
    && (s.reading ==> Open(s))
    && (s.destroying ==> Open(s))
    && (s.state.Connecting? ==> s.calls == [])
  }

  predicate NoticesRight(c: Config, s: State) {
    s.notices == if !c.highWater || c.mark == 0 then 0
                 else s.falls + if |s.out| >= c.mark then 1 else 0
  }

  predicate NoneIgnored(s: State) {
    !s.state.Disconnected? ==> forall i :: 0 <= i < |s.processed| ==> !s.processed[i].fate.Ignored?
  }

  function Datas(ps: seq<Payload>): seq<seq<byte>> {
    if ps == [] then [] else Datas(ps[..|ps| - 1]) + [ps[|ps| - 1].data]
  }

  lemma DatasSnoc(ps: seq<Payload>, p: Payload)
    ensures Datas(ps + [p]) == Datas(ps) + [p.data]
  {
    assert (ps + [p])[..|ps|] == ps;
  }

  function QueuedSends(ts: seq<Task>): seq<seq<byte>> {
    if ts == [] then []
    else (if ts[0].SendTask? then [ts[0].data] else []) + QueuedSends(ts[1..])
  }

  /** How often a payload occurs in a log. */
  function Count(xs: seq<seq<byte>>, d: seq<byte>): nat {
    if xs == [] then 0 else Count(xs[..|xs| - 1], d) + if xs[|xs| - 1] == d then 1 else 0
  }

  lemma CountSnoc(xs: seq<seq<byte>>, x: seq<byte>, d: seq<byte>)
    ensures Count(xs + [x], d) == Count(xs, d) + if x == d then 1 else 0
  {
    assert (xs + [x])[..|xs|] == xs;
  }

  lemma {:induction false} CountCons(x: seq<byte>, xs: seq<seq<byte>>, d: seq<byte>)
    ensures Count([x] + xs, d) == Count(xs, d) + if x == d then 1 else 0
  {
    if xs == [] {
      assert [x] + xs == [] + [x];
      CountSnoc([], x, d);
    } else {
      var init, last := xs[..|xs| - 1], xs[|xs| - 1];
      assert [x] + xs == ([x] + init) + [last];
      CountSnoc([x] + init, last, d);
      CountCons(x, init, d);
    }
  }

  lemma CountZero(xs: seq<seq<byte>>)
    requires forall d :: Count(xs, d) == 0
    ensures xs == []
  {
    if xs != [] {
      assert Count(xs, xs[|xs| - 1]) > 0;
    }
  }

  /** How many calls under way are about to post payload `d`. */
  function CallsWith(cs: seq<Call>, d: seq<byte>): nat {
    if cs == [] then 0 else (if cs[0] == Sending(d) then 1 else 0) + CallsWith(cs[1..], d)
  }

  lemma {:induction false} CallsAppend(a: seq<Call>, b: seq<Call>, d: seq<byte>)
    ensures CallsWith(a + b, d) == CallsWith(a, d) + CallsWith(b, d)
  {
    if a == [] {
      assert a + b == b;
    } else {
      assert (a + b)[1..] == a[1..] + b;
      CallsAppend(a[1..], b, d);
    }
  }

  lemma CallsSplit(cs: seq<Call>, i: nat, d: seq<byte>)
    requires i < |cs|
    ensures CallsWith(cs, d)
         == CallsWith(cs[..i], d) + (if cs[i] == Sending(d) then 1 else 0) + CallsWith(cs[i + 1..], d)
  {
    assert cs == cs[..i] + cs[i..] && cs[i..][1..] == cs[i + 1..];
    CallsAppend(cs[..i], cs[i..], d);
  }

  lemma CallsRemove(cs: seq<Call>, i: nat, d: seq<byte>)
    requires i < |cs|
    ensures CallsWith(cs, d) == CallsWith(cs[..i] + cs[i + 1..], d) + if cs[i] == Sending(d) then 1 else 0
  {
    CallsSplit(cs, i, d);
    CallsAppend(cs[..i], cs[i + 1..], d);
  }

  lemma CallsUpdate(cs: seq<Call>, i: nat, x: Call, d: seq<byte>)
    requires i < |cs| && !cs[i].Sending? && !x.Sending?
    ensures CallsWith(cs[i := x], d) == CallsWith(cs, d)
  {
    CallsSplit(cs, i, d);
    CallsSplit(cs[i := x], i, d);
    assert cs[i := x][..i] == cs[..i] && cs[i := x][i + 1..] == cs[i + 1..];
  }

  lemma CallsSnoc(cs: seq<Call>, x: Call, d: seq<byte>)
    ensures CallsWith(cs + [x], d) == CallsWith(cs, d) + if x == Sending(d) then 1 else 0
  {
    CallsAppend(cs, [x], d);
    assert [x][1..] == [];
  }

  /** Payload `d` was accepted as often as it was processed plus as often as it is still queued or
      about to be. */
  predicate Accounted(s: State, d: seq<byte>) {
    Count(s.accepted, d) == Count(Datas(s.processed), d) + Count(QueuedSends(s.tasks), d) + CallsWith(s.calls, d)
  }

  predicate Inv(c: Config, s: State) {
    && Conserved(s) && NoticesRight(c, s) && InterestSound(s)
    && (s.late == 0 ==> InterestRight(s) && NoneIgnored(s))
  }

  lemma {:induction false} QueuedSendsAppend(a: seq<Task>, b: seq<Task>)
    ensures QueuedSends(a + b) == QueuedSends(a) + QueuedSends(b)
  {
    if a == [] {
      assert a + b == b;
    } else {
      assert (a + b)[1..] == a[1..] + b;
      QueuedSendsAppend(a[1..], b);
      var first := if a[0].SendTask? then [a[0].data] else [];
      assert QueuedSends(a + b) == first + (QueuedSends(a[1..]) + QueuedSends(b));
    }
  }

  lemma QueuedSendsOne(ts: seq<Task>, t: Task)
    ensures t.SendTask? ==> QueuedSends(ts + [t]) == QueuedSends(ts) + [t.data]
    ensures !t.SendTask? ==> QueuedSends(ts + [t]) == QueuedSends(ts)
  {
    QueuedSendsAppend(ts, [t]);
    assert [t][1..] == [];
    assert QueuedSends([t]) == if t.SendTask? then [t.data] else [];
  }

  lemma QueueCallback(ts: seq<Task>, t: Task, b: bool)
    requires !t.SendTask?
    ensures QueuedSends(ts + if b then [t] else []) == QueuedSends(ts)
  {
    QueuedSendsOne(ts, t);
    assert ts + [] == ts;
  }

  lemma WriteDirectSplits(c: Config, s: State, data: seq<byte>, w: WriteResult)
    ensures var s1 := WriteDirect(c, s, data, w);
            var n := Direct(s, data, w);
            && s1.wire == s.wire + data[..n] && s1.out == s.out
            && s1.processed == s.processed + [Payload(data, if Fault(s, w) then Faulted else Kept)]
            && s1.state == s.state && s1.reading == s.reading && s1.writing == s.writing
            && s1.accepted == s.accepted && s1.halfCloses == s.halfCloses
            && s1.calls == s.calls && s1.late == s.late && s1.destroying == s.destroying
            && s1.notices == s.notices && s1.falls == s.falls
            && s1.tasks == s.tasks + (if w.Wrote? && n == |data| && c.writeComplete && !s.writing && s.out == []
                                      then [WriteCompleteTask] else [])
            && (Fault(s, w) ==> n == 0)
  {
    assert data[..0] == [];
    assert s.wire + [] == s.wire && s.tasks + [] == s.tasks;
  }

  lemma BufferRestAppends(c: Config, s: State, rest: seq<byte>)
    ensures var s' := BufferRest(c, s, rest);
            && s'.wire == s.wire && s'.out == s.out + rest && s'.processed == s.processed
            && s'.state == s.state && s'.reading == s.reading
            && (s'.writing <==> s.writing || rest != [])
            && s'.calls == s.calls && s'.late == s.late && s'.destroying == s.destroying
            && s'.accepted == s.accepted && s'.halfCloses == s.halfCloses && s'.falls == s.falls
            && s'.tasks == s.tasks + (if c.highWater && |s.out| < c.mark <= |s.out| + |rest|
                                      then [HighWaterTask(|s.out| + |rest|)] else [])
    ensures NoticesRight(c, s) ==> NoticesRight(c, BufferRest(c, s, rest))
  {
    assert s.tasks + [] == s.tasks;
  }

  lemma SendConserves(c: Config, s: State, data: seq<byte>, w: WriteResult)
    requires Conserved(s)
    ensures Conserved(SendInLoop(c, s, data, w))
  {
    hide WriteDirect, BufferRest;
    if s.state.Disconnected? {
      KeptBytesSnoc(s.processed, Payload(data, Ignored));
      assert s.wire + s.out + [] == s.wire + s.out;
    } else {
      var s1, n := WriteDirect(c, s, data, w), Direct(s, data, w);
      WriteDirectSplits(c, s, data, w);
      BufferRestAppends(c, s1, data[n..]);
      KeptBytesSnoc(s.processed, Payload(data, if Fault(s, w) then Faulted else Kept));
      SplitPayload(s.wire, s.out, data, n);
      assert data[..0] == [];
    }
  }

  lemma SendInterest(c: Config, s: State, data: seq<byte>, w: WriteResult)
    ensures var s' := SendInLoop(c, s, data, w);
            && (WriteRight(s) ==> WriteRight(s')) && (InterestRight(s) ==> InterestRight(s'))
            && (InterestSound(s) ==> InterestSound(s'))
            && s'.state == s.state && s'.late == s.late && s'.calls == s.calls && s'.destroying == s.destroying
  {
    hide WriteDirect, BufferRest;
    if !s.state.Disconnected? {
      var s1, n := WriteDirect(c, s, data, w), Direct(s, data, w);
      WriteDirectSplits(c, s, data, w);
      BufferRestAppends(c, s1, data[n..]);
    }
  }

  /** A direct write happens only with an empty buffer, so the split payload stays in order. */
  lemma SplitPayload(wire: seq<byte>, out: seq<byte>, data: seq<byte>, n: nat)
    requires n <= |data| && (n > 0 ==> out == [])
    ensures wire + data[..n] + (out + data[n..]) == wire + out + data
    ensures n == 0 ==> wire + data[..n] + out == wire + out + []
  {
    assert data[..n] + data[n..] == data;
  }

  lemma SendNotices(c: Config, s: State, data: seq<byte>, w: WriteResult)
    requires NoticesRight(c, s)
    ensures NoticesRight(c, SendInLoop(c, s, data, w))
    ensures NoneIgnored(s) ==> NoneIgnored(SendInLoop(c, s, data, w))
  {
    hide WriteDirect, BufferRest;
    if !s.state.Disconnected? {
      WriteDirectSplits(c, s, data, w);
      BufferRestAppends(c, WriteDirect(c, s, data, w), data[Direct(s, data, w)..]);
    }
  }

  lemma SendAccounts(c: Config, s: State, data: seq<byte>, w: WriteResult)
    ensures var s' := SendInLoop(c, s, data, w);
            && s'.accepted == s.accepted && s'.calls == s.calls
            && Datas(s'.processed) == Datas(s.processed) + [data]
            && QueuedSends(s'.tasks) == QueuedSends(s.tasks)
  {
    hide WriteDirect, BufferRest;
    var fate := if s.state.Disconnected? then Ignored else if Fault(s, w) then Faulted else Kept;
    DatasSnoc(s.processed, Payload(data, fate));
    if !s.state.Disconnected? {
      var n := Direct(s, data, w);
      var s1 := WriteDirect(c, s, data, w);
      WriteDirectSplits(c, s, data, w);
      BufferRestAppends(c, s1, data[n..]);
      QueueCallback(s.tasks, WriteCompleteTask,
                    w.Wrote? && n == |data| && c.writeComplete && !s.writing && s.out == []);
      QueueCallback(s1.tasks, HighWaterTask(|s1.out| + |data[n..]|),
                    c.highWater && |s1.out| < c.mark <= |s1.out| + |data[n..]|);
    }
  }

  lemma HandleWriteConserves(c: Config, s: State, w: WriteResult)
    requires Conserved(s)
    ensures Conserved(HandleWrite(c, s, w))
  {
    var n := if w.Wrote? then Min(w.n, |s.out|) else 0;
    assert s.out[..n] + s.out[n..] == s.out;
    assert s.wire + s.out[..n] + s.out[n..] == s.wire + s.out;
  }

  lemma HandleWriteInterest(c: Config, s: State, w: WriteResult)
    ensures var s' := HandleWrite(c, s, w);
            && (WriteRight(s) ==> WriteRight(s')) && (InterestRight(s) ==> InterestRight(s'))
            && (InterestSound(s) ==> InterestSound(s'))
            && s'.state == s.state && s'.late == s.late && s'.calls == s.calls && s'.destroying == s.destroying
  {
  }

  lemma HandleWriteAccounts(c: Config, s: State, w: WriteResult)
    ensures var s' := HandleWrite(c, s, w);
            && QueuedSends(s'.tasks) == QueuedSends(s.tasks)
            && s'.accepted == s.accepted && s'.processed == s.processed && s'.calls == s.calls
  {
    hide QueuedSends;
    QueueCallback(s.tasks, WriteCompleteTask, c.writeComplete);
    assert QueuedSends(HandleWrite(c, s, w).tasks) == QueuedSends(s.tasks);
  }

  /** The steps that carry bytes. */
  predicate MovesBytes(s: State, step: Step) {
    step.LoopSend? || step.Writable? || (step.RunTask? && s.tasks != [] && s.tasks[0].SendTask?)
  }

  lemma ForeignMovesNothing(c: Config, s: State, step: Step)
    requires Foreign(step)
    ensures var s' := Act(c, s, step);
            && s'.wire == s.wire && s'.out == s.out && s'.processed == s.processed
            && s'.notices == s.notices && s'.falls == s.falls && s'.halfCloses == s.halfCloses
            && s'.reading == s.reading && s'.writing == s.writing && s'.destroying == s.destroying
            && s'.state == (if step.Store? && AboutToStore(s, step.i) then Disconnecting else s.state)
            && s'.late == s.late + (if LateStore(s, step) then 1 else 0)
            && (s.calls == [] && (step.BeginSend? || step.BeginClose? ==> !Open(s)) ==> s'.calls == [])
  {
  }

  lemma OtherStepsMoveNothing(c: Config, s: State, step: Step)
    requires !MovesBytes(s, step)
    ensures var s' := Next(c, s, step);
            && s'.wire == s.wire && s'.out == s.out && s'.processed == s.processed
            && s'.notices == s.notices && s'.falls == s.falls
            && (s'.state.Disconnected? || !s.state.Disconnected? || LateStore(s, step))
  {
    hide SendInLoop, HandleWrite, PostCall, StoreDisconnecting;
    if Foreign(step) {
      ForeignMovesNothing(c, s, step);
    }
  }

  lemma TaskConserves(c: Config, s: State, w: WriteResult)
    requires Conserved(s)
    ensures Conserved(Act(c, s, RunTask(w)))
  {
    hide SendInLoop, KeptBytes;
    if s.tasks != [] && s.tasks[0].SendTask? {
      SendConserves(c, s.(tasks := s.tasks[1..]), s.tasks[0].data, w);
    }
  }

  lemma NextConserves(c: Config, s: State, step: Step)
    requires Conserved(s)
    ensures Conserved(Next(c, s, step))
  {
    hide SendInLoop, HandleWrite, Perform;
    if !MovesBytes(s, step) {
      OtherStepsMoveNothing(c, s, step);
    } else if step.LoopSend? {
      SendConserves(c, s.(accepted := s.accepted + [step.data]), step.data, step.w);
    } else if step.Writable? {
      HandleWriteConserves(c, s, step.w);
    } else {
      TaskConserves(c, s, step.w);
    }
  }

  // ----- Late stores -------------------------------------------------------------------------

  /** A store of `kDisconnecting` that comes after the connection was closed. */
  predicate LateStore(s: State, step: Step) {
    step.Store? && AboutToStore(s, step.i) && s.state.Disconnected?
  }

  lemma TaskInterest(c: Config, s: State, w: WriteResult)
    ensures var s' := Act(c, s, RunTask(w));
            && (WriteRight(s) ==> WriteRight(s')) && (InterestRight(s) ==> InterestRight(s'))
            && (!s.destroying && InterestSound(s) ==> InterestSound(s'))
            && s'.late == s.late && s'.calls == s.calls
  {
    hide SendInLoop;
    if s.tasks != [] && s.tasks[0].SendTask? {
      SendInterest(c, s.(tasks := s.tasks[1..]), s.tasks[0].data, w);
    }
  }

  lemma NextInterest(c: Config, s: State, step: Step)
    ensures InterestSound(s) ==> InterestSound(Next(c, s, step))
    ensures Next(c, s, step).late == s.late + if LateStore(s, step) then 1 else 0
  {
    hide SendInLoop, HandleWrite, Perform, PostCall, StoreDisconnecting;
    if Foreign(step) {
      ForeignMovesNothing(c, s, step);
      return;
    }
    match step
    case LoopSend(data, w) => SendInterest(c, s.(accepted := s.accepted + [data]), data, w);
    case Writable(w) => HandleWriteInterest(c, s, w);
    case RunTask(w) => TaskInterest(c, s, w);
    case _ =>
  }

  /** Exactly which steps break the interest bits: a store of `kDisconnecting` after the connection
      was closed. Write interest alone is broken if bytes were still waiting. */
  lemma InterestBreaksIff(c: Config, s: State, step: Step)
    requires InterestSound(s)
    ensures InterestRight(s) ==> (!InterestRight(Next(c, s, step)) <==> LateStore(s, step))
    ensures WriteRight(s) ==> (!WriteRight(Next(c, s, step)) <==> LateStore(s, step) && s.out != [])
  {
    hide SendInLoop, HandleWrite, Perform, PostCall, StoreDisconnecting;
    if Foreign(step) {
      ForeignMovesNothing(c, s, step);
      return;
    }
    match step
    case LoopSend(data, w) => SendInterest(c, s.(accepted := s.accepted + [data]), data, w);
    case Writable(w) => HandleWriteInterest(c, s, w);
    case RunTask(w) => TaskInterest(c, s, w);
    case _ =>
  }

  lemma TaskNotices(c: Config, s: State, w: WriteResult)
    requires NoticesRight(c, s)
    ensures NoticesRight(c, Act(c, s, RunTask(w)))
    ensures NoneIgnored(s) ==> NoneIgnored(Act(c, s, RunTask(w)))
  {
    if s.tasks != [] && s.tasks[0].SendTask? {
      SendNotices(c, s.(tasks := s.tasks[1..]), s.tasks[0].data, w);
    }
  }

  lemma HandleWriteNotices(c: Config, s: State, w: WriteResult)
    requires NoticesRight(c, s)
    ensures NoticesRight(c, HandleWrite(c, s, w))
    ensures NoneIgnored(s) ==> NoneIgnored(HandleWrite(c, s, w))
  {
  }

  lemma NextNotices(c: Config, s: State, step: Step)
    requires NoticesRight(c, s)
    ensures NoticesRight(c, Next(c, s, step))
    ensures NoneIgnored(s) && !LateStore(s, step) ==> NoneIgnored(Next(c, s, step))
  {
    hide SendInLoop, HandleWrite, Perform;
    if !MovesBytes(s, step) {
      OtherStepsMoveNothing(c, s, step);
    } else if step.LoopSend? {
      SendNotices(c, s.(accepted := s.accepted + [step.data]), step.data, step.w);
    } else if step.Writable? {
      HandleWriteNotices(c, s, step.w);
    } else {
      TaskNotices(c, s, step.w);
    }
  }

  lemma NextKeepsInv(c: Config, s: State, step: Step)
    requires Inv(c, s)
    ensures Inv(c, Next(c, s, step))
  {
    hide Next, Conserved, NoticesRight, InterestRight, InterestSound, NoneIgnored, LateStore;
    NextConserves(c, s, step);
    NextInterest(c, s, step);
    InterestBreaksIff(c, s, step);
    NextNotices(c, s, step);
  }

  lemma {:induction false} RunKeepsInv(c: Config, s: State, steps: seq<Step>)
    requires Inv(c, s)
    ensures Inv(c, Run(c, s, steps))
    decreases |steps|
  {
    if steps != [] {
      NextKeepsInv(c, s, steps[0]);
      RunKeepsInv(c, Next(c, s, steps[0]), steps[1..]);
    }
  }

  /** No other thread closes. */
  predicate ClosesFromLoopOnly(steps: seq<Step>) {
    forall i :: 0 <= i < |steps| ==> !steps[i].BeginClose?
  }

  predicate OnlySends(calls: seq<Call>) {
    forall i :: 0 <= i < |calls| ==> calls[i].Sending?
  }

  lemma LoopCloseStep(c: Config, s: State, step: Step)
    requires !step.BeginClose? && OnlySends(s.calls)
    ensures !LateStore(s, step) && OnlySends(Next(c, s, step).calls)
  {
    hide SendInLoop, HandleWrite, Perform;
    match step
    case LoopSend(data, w) => SendInterest(c, s.(accepted := s.accepted + [data]), data, w);
    case Writable(w) => HandleWriteInterest(c, s, w);
    case RunTask(w) => TaskInterest(c, s, w);
    case _ =>
  }

  /** Stores are never late if all shutdowns and forced closes come from the loop thread. */
  lemma {:induction false} LoopClosesAreNeverLate(c: Config, s: State, steps: seq<Step>)
    requires ClosesFromLoopOnly(steps) && OnlySends(s.calls)
    ensures Run(c, s, steps).late == s.late
    decreases |steps|
  {
    if steps != [] {
      LoopCloseStep(c, s, steps[0]);
      NextInterest(c, s, steps[0]);
      LoopClosesAreNeverLate(c, Next(c, s, steps[0]), steps[1..]);
    }
  }

  // ----- Accounting for payloads -------------------------------------------------------------

  /** A step that neither sends nor touches the task queue or the calls of other threads. */
  predicate Quiet(step: Step) {
    !step.LoopSend? && !step.LoopForceClose? && !Foreign(step) && !step.RunTask? && !step.Writable?
  }

  lemma QuietKeepsLogs(c: Config, s: State, step: Step)
    requires Quiet(step)
    ensures var s' := Next(c, s, step);
            s'.accepted == s.accepted && s'.processed == s.processed && s'.tasks == s.tasks && s'.calls == s.calls
  {
  }

  lemma LoopSendAccounts(c: Config, s: State, data: seq<byte>, w: WriteResult, d: seq<byte>)
    requires Accounted(s, d)
    ensures Accounted(Next(c, s, LoopSend(data, w)), d)
  {
    SendAccounts(c, s.(accepted := s.accepted + [data]), data, w);
    CountSnoc(s.accepted, data, d);
    CountSnoc(Datas(s.processed), data, d);
  }

  lemma BeginAccounts(c: Config, s: State, step: Step, d: seq<byte>)
    requires Accounted(s, d) && (step.BeginSend? || step.BeginClose?)
    ensures Accounted(Next(c, s, step), d)
  {
    match step
    case BeginSend(data) =>
      CountSnoc(s.accepted, data, d);
      CallsSnoc(s.calls, Sending(data), d);
    case BeginClose(kind) =>
      CallsSnoc(s.calls, Closing(kind, false), d);
  }

  lemma StoreAccounts(c: Config, s: State, i: nat, d: seq<byte>)
    requires Accounted(s, d)
    ensures Accounted(Next(c, s, Store(i)), d)
  {
    if AboutToStore(s, i) {
      CallsUpdate(s.calls, i, s.calls[i].(stored := true), d);
    }
  }

  lemma PostAccounts(c: Config, s: State, i: nat, d: seq<byte>)
    requires Accounted(s, d)
    ensures Accounted(Next(c, s, Post(i)), d)
  {
    if AboutToPost(s, i) {
      CallsRemove(s.calls, i, d);
      match s.calls[i]
      case Sending(data) =>
        QueuedSendsOne(s.tasks, SendTask(data));
        CountSnoc(QueuedSends(s.tasks), data, d);
      case Closing(HalfClosing, _) => QueuedSendsOne(s.tasks, ShutdownTask);
      case Closing(ForceClosing, _) => QueuedSendsOne(s.tasks, ForceCloseTask);
      case Closing(DelayedClosing, _) =>
    }
  }

  lemma QueuedSendsHead(ts: seq<Task>)
    requires ts != []
    ensures ts[0].SendTask? ==> QueuedSends(ts) == [ts[0].data] + QueuedSends(ts[1..])
    ensures !ts[0].SendTask? ==> QueuedSends(ts) == QueuedSends(ts[1..])
  {
    assert [] + QueuedSends(ts[1..]) == QueuedSends(ts[1..]);
  }

  lemma CallbackKeepsLogs(c: Config, s: State, w: WriteResult)
    requires s.tasks != [] && !s.tasks[0].SendTask?
    ensures var s' := Act(c, s, RunTask(w));
            && s'.accepted == s.accepted && s'.processed == s.processed && s'.tasks == s.tasks[1..]
            && s'.calls == s.calls
  {
  }

  lemma TaskAccounts(c: Config, s: State, w: WriteResult, d: seq<byte>)
    requires Accounted(s, d)
    ensures Accounted(Act(c, s, RunTask(w)), d)
  {
    if s.tasks != [] {
      QueuedSendsHead(s.tasks);
      if s.tasks[0].SendTask? {
        SendAccounts(c, s.(tasks := s.tasks[1..]), s.tasks[0].data, w);
        CountSnoc(Datas(s.processed), s.tasks[0].data, d);
        CountCons(s.tasks[0].data, QueuedSends(s.tasks[1..]), d);
      } else {
        CallbackKeepsLogs(c, s, w);
      }
    }
  }

  lemma NextAccounts(c: Config, s: State, step: Step, d: seq<byte>)
    requires Accounted(s, d)
    ensures Accounted(Next(c, s, step), d)
  {
    match step
    case LoopSend(data, w) => LoopSendAccounts(c, s, data, w, d);
    case LoopForceClose => QueuedSendsOne(s.tasks, ForceCloseTask);
    case BeginSend(data) => BeginAccounts(c, s, step, d);
    case BeginClose(kind) => BeginAccounts(c, s, step, d);
    case Store(i) => StoreAccounts(c, s, i, d);
    case Post(i) => PostAccounts(c, s, i, d);
    case Writable(w) => HandleWriteAccounts(c, s, w);
    case RunTask(w) => TaskAccounts(c, s, w, d);
    case _ => QuietKeepsLogs(c, s, step);
  }

  lemma {:induction false} RunAccounts(c: Config, s: State, steps: seq<Step>, d: seq<byte>)
    requires Accounted(s, d)
    ensures Accounted(Run(c, s, steps), d)
    decreases |steps|
  {
    if steps != [] {
      NextAccounts(c, s, steps[0], d);
      RunAccounts(c, Next(c, s, steps[0]), steps[1..], d);
    }
  }

  // ----- Byte-stream conservation ----------------------------------------------------------

  /** For every run, with any short writes and errors and any calls of other threads: the bytes on
      the wire followed by the output buffer are the payloads in order, without those dropped whole
      by a fault or a disconnected state, and no interest is on without a use. Until a store of
      `kDisconnecting` comes late, write interest is on exactly when the output buffer is non-empty
      and the connection is not disconnected. */
  lemma ByteStreamConservation(c: Config, steps: seq<Step>)
    ensures var s := Run(c, INITIAL, steps);
            && s.wire + s.out == KeptBytes(s.processed)
            && (s.writing ==> s.out != []) && (s.state.Disconnected? ==> !s.writing && !s.reading)
            && (s.late == 0 && !s.state.Disconnected? ==> (s.writing <==> s.out != []))
  {
    RunKeepsInv(c, INITIAL, steps);
  }

  lemma SendKeepsLogs(c: Config, s: State, data: seq<byte>, w: WriteResult)
    ensures var s' := SendInLoop(c, s, data, w);
            && s.processed <= s'.processed && |s'.processed| == |s.processed| + 1
            && s'.halfCloses == s.halfCloses
  {
    hide WriteDirect, BufferRest;
    if !s.state.Disconnected? {
      WriteDirectSplits(c, s, data, w);
      BufferRestAppends(c, WriteDirect(c, s, data, w), data[Direct(s, data, w)..]);
    }
  }

  lemma NextProcessesOne(c: Config, s: State, step: Step)
    ensures var s' := Next(c, s, step);
            s.processed <= s'.processed && |s'.processed| <= |s.processed| + 1
  {
    hide SendInLoop;
    if !MovesBytes(s, step) {
      OtherStepsMoveNothing(c, s, step);
    } else if step.LoopSend? {
      SendKeepsLogs(c, s.(accepted := s.accepted + [step.data]), step.data, step.w);
    } else if step.RunTask? {
      SendKeepsLogs(c, s.(tasks := s.tasks[1..]), s.tasks[0].data, step.w);
    }
  }

  lemma NextExtendsStream(c: Config, s: State, step: Step)
    ensures KeptBytes(s.processed) <= KeptBytes(Next(c, s, step).processed)
  {
    hide Next;
    var n := Next(c, s, step);
    NextProcessesOne(c, s, step);
    if n.processed != s.processed {
      var p := n.processed[|s.processed|];
      assert n.processed == s.processed + [p];
      KeptBytesSnoc(s.processed, p);
    }
  }

  /** What has been promised to the wire is never reordered or dropped later: an earlier
      wire-and-buffer content stays a prefix of every later one. */
  lemma {:induction false} StreamOnlyGrows(c: Config, s: State, steps: seq<Step>)
    requires Conserved(s)
    ensures var s' := Run(c, s, steps);
            s.wire + s.out <= s'.wire + s'.out
    decreases |steps|
  {
    if steps != [] {
      NextConserves(c, s, steps[0]);
      NextExtendsStream(c, s, steps[0]);
      StreamOnlyGrows(c, Next(c, s, steps[0]), steps[1..]);
    }
  }

  // ----- Half-close --------------------------------------------------------------------------

  /** The two ways to a half-close: the last byte drains, or a shutdown finds no write interest. */
  lemma HalfCloseShape(c: Config, s: State, step: Step)
    requires Next(c, s, step).halfCloses > s.halfCloses
    ensures var s' := Next(c, s, step);
            || (step.Writable? && s.writing && s'.out == [] && s'.state == s.state)
            || (!step.Writable? && !s.writing && s'.out == s.out
                && (s'.state.Disconnected? <==> s.state.Disconnected?))
  {
    hide SendInLoop;
    match step
    case LoopSend(data, w) => SendKeepsLogs(c, s.(accepted := s.accepted + [data]), data, w);
    case RunTask(w) =>
      if s.tasks != [] && s.tasks[0].SendTask? {
        SendKeepsLogs(c, s.(tasks := s.tasks[1..]), s.tasks[0].data, w);
      }
    case _ =>
  }

  lemma DrainedIff(wire: seq<byte>, out: seq<byte>)
    ensures out == [] <==> wire == wire + out
  {
  }

  /** Exactly when `shutdownWrite` on a connection that is not disconnected comes with an empty
      output buffer, so that every processed payload without a fault is on the wire whole: when the
      write interest was right. Only a late store can make it wrong (`InterestBreaksIff`). */
  lemma DrainBeforeHalfClose(c: Config, steps: seq<Step>, step: Step)
    ensures var s := Run(c, INITIAL, steps);
            var s' := Next(c, s, step);
            s'.halfCloses > s.halfCloses && !s'.state.Disconnected? ==>
              && (s'.out == [] <==> WriteRight(s))
              && (s'.wire == KeptBytes(s'.processed) <==> WriteRight(s))
              && (s.late == 0 ==> WriteRight(s) && NoneIgnored(s'))
  {
    hide Next;
    var s := Run(c, INITIAL, steps);
    var s' := Next(c, s, step);
    RunKeepsInv(c, INITIAL, steps);
    NextKeepsInv(c, s, step);
    NextInterest(c, s, step);
    if s'.halfCloses > s.halfCloses && !s'.state.Disconnected? {
      HalfCloseShape(c, s, step);
      DrainedIff(s'.wire, s'.out);
    }
  }

  ghost predicate AllProcessed(s: State) {
    forall d :: Count(Datas(s.processed), d) == Count(s.accepted, d)
  }

  predicate NoSends(calls: seq<Call>) {
    forall i :: 0 <= i < |calls| ==> !calls[i].Sending?
  }

  lemma {:induction false} NoSendsCount(calls: seq<Call>, d: seq<byte>)
    requires NoSends(calls)
    ensures CallsWith(calls, d) == 0
  {
    if calls != [] {
      assert !calls[0].Sending?;
      NoSendsCount(calls[1..], d);
    }
  }

  lemma AllProcessedIff(s: State)
    requires forall d :: Accounted(s, d)
    ensures AllProcessed(s) <==> QueuedSends(s.tasks) == [] && NoSends(s.calls)
  {
    forall d
      ensures Count(s.accepted, d)
           == Count(Datas(s.processed), d) + Count(QueuedSends(s.tasks), d) + CallsWith(s.calls, d)
    {
      assert Accounted(s, d);
    }
    if AllProcessed(s) {
      CountZero(QueuedSends(s.tasks));
      forall i | 0 <= i < |s.calls|
        ensures !s.calls[i].Sending?
      {
        if s.calls[i].Sending? {
          CallsSplit(s.calls, i, s.calls[i].data);
        }
      }
    } else if QueuedSends(s.tasks) == [] && NoSends(s.calls) {
      forall d
        ensures Count(Datas(s.processed), d) == Count(s.accepted, d)
      {
        NoSendsCount(s.calls, d);
      }
    }
  }

  /** Whether the half-close also waits for every payload that `send` accepted: every payload has
      been processed as often as it was accepted, exactly when no `sendInLoop` of another thread is
      still queued or about to be. */
  lemma DrainsAcceptedIff(c: Config, steps: seq<Step>)
    ensures var s := Run(c, INITIAL, steps);
            AllProcessed(s) <==> QueuedSends(s.tasks) == [] && NoSends(s.calls)
  {
    forall d
      ensures Accounted(Run(c, INITIAL, steps), d)
    {
      RunAccounts(c, INITIAL, steps, d);
    }
    AllProcessedIff(Run(c, INITIAL, steps));
  }

  predicate SendsFromLoopOnly(steps: seq<Step>) {
    forall i :: 0 <= i < |steps| ==> !steps[i].BeginSend?
  }

  predicate LoopProcessed(s: State) {
    s.accepted == Datas(s.processed) && QueuedSends(s.tasks) == [] && NoSends(s.calls)
  }

  lemma NoSendsRemove(calls: seq<Call>, i: nat)
    requires NoSends(calls) && i < |calls|
    ensures NoSends(calls[..i] + calls[i + 1..])
  {
  }

  lemma PostIsProcessed(s: State, i: nat)
    requires LoopProcessed(s) && AboutToPost(s, i)
    ensures LoopProcessed(PostCall(s, i))
  {
    hide QueuedSends, Datas, NoSends;
    NoSendsRemove(s.calls, i);
    assert !s.calls[i].Sending? by { NoSendsAt(s.calls, i); }
    match s.calls[i].kind
    case HalfClosing => QueuedSendsOne(s.tasks, ShutdownTask);
    case ForceClosing => QueuedSendsOne(s.tasks, ForceCloseTask);
    case DelayedClosing =>
  }

  lemma NoSendsAt(calls: seq<Call>, i: nat)
    requires NoSends(calls) && i < |calls|
    ensures !calls[i].Sending?
  {
  }

  lemma ForeignStepIsProcessed(c: Config, s: State, step: Step)
    requires Foreign(step) && !step.BeginSend? && LoopProcessed(s)
    ensures LoopProcessed(Act(c, s, step))
  {
    hide PostCall, Datas, QueuedSends;
    match step
    case Post(i) => if AboutToPost(s, i) { PostIsProcessed(s, i); }
    case _ =>
  }

  lemma LoopStepIsProcessed(c: Config, s: State, step: Step)
    requires !step.BeginSend? && LoopProcessed(s)
    ensures LoopProcessed(Next(c, s, step))
  {
    hide SendInLoop, HandleWrite, Perform, PostCall, StoreDisconnecting;
    if Foreign(step) {
      ForeignStepIsProcessed(c, s, step);
    } else {
      match step
      case LoopSend(data, w) => SendAccounts(c, s.(accepted := s.accepted + [data]), data, w);
      case LoopForceClose => QueuedSendsOne(s.tasks, ForceCloseTask);
      case Writable(w) => HandleWriteAccounts(c, s, w);
      case RunTask(w) =>
        if s.tasks != [] {
          QueuedSendsHead(s.tasks);
          CallbackKeepsLogs(c, s, w);
        }
      case _ => QuietKeepsLogs(c, s, step);
    }
  }

  lemma {:induction false} LoopSendsAreProcessed(c: Config, s: State, steps: seq<Step>)
    requires SendsFromLoopOnly(steps) && LoopProcessed(s)
    ensures LoopProcessed(Run(c, s, steps))
    decreases |steps|
  {
    if steps != [] {
      LoopStepIsProcessed(c, s, steps[0]);
      LoopSendsAreProcessed(c, Next(c, s, steps[0]), steps[1..]);
    }
  }

  /** When all sends and closes come from the loop thread, a half-close of a connection that is not
      disconnected comes after the whole of every accepted payload that no fault dropped. */
  lemma LoopSendsDrainBeforeHalfClose(c: Config, steps: seq<Step>, step: Step)
    requires SendsFromLoopOnly(steps + [step]) && ClosesFromLoopOnly(steps)
    ensures var s := Run(c, INITIAL, steps);
            var s' := Next(c, s, step);
            s'.halfCloses > s.halfCloses && !s'.state.Disconnected? ==>
              && s'.accepted == Datas(s'.processed)
              && s'.wire == KeptBytes(s'.processed)
  {
    DrainBeforeHalfClose(c, steps, step);
    LoopClosesAreNeverLate(c, INITIAL, steps);
    LoopSendsAreProcessed(c, INITIAL, steps + [step]);
    RunSnoc(c, INITIAL, steps, step);
  }

  lemma {:induction false} RunSnoc(c: Config, s: State, steps: seq<Step>, step: Step)
    ensures Run(c, s, steps + [step]) == Next(c, Run(c, s, steps), step)
    decreases |steps|
  {
    hide Next;
    if steps == [] {
      assert [step][1..] == [] && steps + [step] == [step];
    } else {
      assert (steps + [step])[1..] == steps[1..] + [step];
      RunSnoc(c, Next(c, s, steps[0]), steps[1..], step);
    }
  }

  lemma {:induction false} RunAppend(c: Config, s: State, a: seq<Step>, b: seq<Step>)
    ensures Run(c, s, a + b) == Run(c, Run(c, s, a), b)
    decreases |a|
  {
    hide Next;
    if a == [] {
      assert a + b == b;
    } else {
      assert (a + b)[1..] == a[1..] + b;
      RunAppend(c, Next(c, s, a[0]), a[1..], b);
    }
  }

  lemma RunTwo(c: Config, s: State, p: Step, q: Step)
    ensures Run(c, s, [p, q]) == Next(c, Next(c, s, p), q)
  {
    hide Next;
    RunSnoc(c, s, [], p);
    RunSnoc(c, s, [p], q);
  }

  lemma RunFive(c: Config, s: State, p: Step, q: Step, r: Step, t: Step, u: Step)
    ensures Run(c, s, [p, q, r, t, u]) == Next(c, Next(c, Next(c, Next(c, Next(c, s, p), q), r), t), u)
  {
    hide Next;
    assert [p, q, r, t, u][1..] == [q, r, t, u];
    assert [q, r, t, u] == [q, r] + [t, u];
    var n := Next(c, s, p);
    RunTwo(c, n, q, r);
    RunAppend(c, n, [q, r], [t, u]);
    RunTwo(c, Run(c, n, [q, r]), t, u);
  }

  /** A connection with one byte sent and one to send. */
  const PENDING := INITIAL.(state := Connected, reading := true, writing := true, out := [2], wire := [1],
                            accepted := [[1, 2]], processed := [Payload([1, 2], Kept)])

  const TO_PENDING := [Establish, LoopSend([1, 2], Wrote(1))]

  lemma PendingReached(c: Config)
    requires !c.highWater && !c.writeComplete
    ensures Run(c, INITIAL, TO_PENDING) == PENDING
  {
    var s1 := Next(c, INITIAL, Establish);
    var s2 := Next(c, s1, LoopSend([1, 2], Wrote(1)));
    assert s2.out == [2] && s2.wire == [1] && s2.tasks == [];
    RunSnoc(c, INITIAL, [], Establish);
    RunSnoc(c, INITIAL, [Establish], LoopSend([1, 2], Wrote(1)));
  }

  /** Sends and shutdown from one other thread, in that order, are not enough: if older bytes
      drain in between, the write handler already half-closes while the send is still queued. */
  lemma HalfCloseCanOvertakeQueuedSend(c: Config)
    requires !c.highWater && !c.writeComplete
    ensures var steps := [BeginSend([3]), Post(0), BeginClose(HalfClosing), Store(0), Writable(Wrote(1))];
            var s := Run(c, INITIAL, TO_PENDING + steps);
            s.halfCloses == 1 && s.wire == [1, 2] && s.tasks == [SendTask([3])]
  {
    PendingReached(c);
    RunAppend(c, INITIAL, TO_PENDING,
              [BeginSend([3]), Post(0), BeginClose(HalfClosing), Store(0), Writable(Wrote(1))]);
    RunFive(c, PENDING, BeginSend([3]), Post(0), BeginClose(HalfClosing), Store(0), Writable(Wrote(1)));
    hide Run, SendInLoop;
    var s2 := Next(c, Next(c, PENDING, BeginSend([3])), Post(0));
    PostedSend(c);
    CloseBehind(c, s2);
    var s4 := Next(c, Next(c, s2, BeginClose(HalfClosing)), Store(0));
    assert Next(c, s4, Writable(Wrote(1))).wire == [1] + [2];
  }

  lemma PostedSend(c: Config)
    ensures Next(c, Next(c, PENDING, BeginSend([3])), Post(0))
         == PENDING.(accepted := PENDING.accepted + [[3]], tasks := [SendTask([3])])
  {
    var s1 := Next(c, PENDING, BeginSend([3]));
    assert s1.calls == [Sending([3])] && s1.calls[..0] + s1.calls[1..] == [];
  }

  lemma CloseBehind(c: Config, s: State)
    requires s.state.Connected? && s.calls == []
    ensures Next(c, Next(c, s, BeginClose(HalfClosing)), Store(0))
         == s.(state := Disconnecting, calls := [Closing(HalfClosing, true)])
  {
    assert Next(c, s, BeginClose(HalfClosing)).calls == [Closing(HalfClosing, false)];
  }

  lemma LateStoreHere(c: Config)
    ensures Next(c, Next(c, Next(c, PENDING, BeginClose(HalfClosing)), PeerClosed), Store(0))
         == PENDING.(state := Disconnecting, reading := false, writing := false, late := 1,
                     calls := [Closing(HalfClosing, true)])
  {
    var s1 := Next(c, PENDING, BeginClose(HalfClosing));
    assert s1 == PENDING.(calls := [Closing(HalfClosing, false)]);
    assert Next(c, s1, PeerClosed)
           == PENDING.(calls := s1.calls, state := Disconnected, reading := false, writing := false);
  }

  lemma PostedShutdown(c: Config, s: State)
    requires s.calls == [Closing(HalfClosing, true)]
    ensures Next(c, s, Post(0)) == s.(calls := [], tasks := s.tasks + [ShutdownTask])
  {
    assert s.calls[..0] + s.calls[1..] == [];
  }

  /** What a late store does: the peer closes between the test and the store of a `shutdown` in
      another thread, and the half-close that it posts cuts off bytes still to be sent. The
      connection is then disconnecting with no interest on. */
  lemma LateShutdownCutsOutput(c: Config)
    requires !c.highWater && !c.writeComplete
    ensures var steps := [BeginClose(HalfClosing), PeerClosed, Store(0), Post(0), RunTask(WouldBlock)];
            var s := Run(c, INITIAL, TO_PENDING + steps);
            && s.late == 1 && s.halfCloses == 1 && s.state.Disconnecting?
            && s.wire == [1] && s.out == [2] && !s.writing && !s.reading
  {
    PendingReached(c);
    RunAppend(c, INITIAL, TO_PENDING,
              [BeginClose(HalfClosing), PeerClosed, Store(0), Post(0), RunTask(WouldBlock)]);
    RunFive(c, PENDING, BeginClose(HalfClosing), PeerClosed, Store(0), Post(0), RunTask(WouldBlock));
    hide Run, SendInLoop;
    var s3 := Next(c, Next(c, Next(c, PENDING, BeginClose(HalfClosing)), PeerClosed), Store(0));
    LateStoreHere(c);
    PostedShutdown(c, s3);
    var s4 := Next(c, s3, Post(0));
    assert Next(c, s4, RunTask(WouldBlock)) == ShutdownInLoop(s4.(tasks := []));
  }
}
