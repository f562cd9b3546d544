/** The reactor's functor queue and its eventfd wakeup, as interleaved atomic steps.

    One loop thread and any number of posters share `pendingFunctors_` (guarded by a mutex,
    so a push or the swap is one step) and the eventfd counter (a write or a read is one
    step). A step that its thread cannot take in the current state leaves the state alone, so
    a run is just any sequence of steps and every theorem about runs quantifies over all
    interleavings.
  */
module EventLoop {

  type Functor = nat
  type ThreadId = nat

  /** Where a post came from, which is what decides whether it is followed by a wakeup. */
  datatype Origin = OtherThread | EventHandler | RunningFunctor | TimerCallback | OutsideLoop

  datatype Post = Post(functor: Functor, origin: Origin)

  /** Program counter of the loop thread: outside `loop()`, at the `while` test, blocked in
      `poll`, dispatching events, between setting `callingPendingFunctors_` and the swap,
      running a batch, and running timers. */
  datatype Phase = Idle | LoopHead | Polling | Handling | Swapping | Calling | Timers

  /** An eventfd write that would exceed this value fails with EAGAIN and is ignored. */
  const COUNTER_MAX: nat := 0xFFFF_FFFF_FFFF_FFFE

  /** `owing` holds the other threads that stand between their push (or their `quit_ = true`)
      and their `wakeup()`; `loopOwes` says the same of the loop thread itself. `queued` and
      `executed` are the logs of pushes and of calls; `asked` says that a quit was requested since
      the loop last tested the flag. */
  datatype State = State(
    phase: Phase,
    quit: bool,
    pending: seq<Post>,
    batch: seq<Post>,
    counter: nat,
    owing: set<ThreadId>,
    loopOwes: bool,
    queued: seq<Post>,
    executed: seq<Post>,
    asked: bool)

  const INITIAL := State(Idle, false, [], [], 0, {}, false, [], [], false)

  datatype Step =
    | OtherPost(t: ThreadId, f: Functor)
    | OtherQuit(t: ThreadId)
    | OtherWakeup(t: ThreadId)
    | LoopPost(f: Functor)
    | LoopQuit
    | LoopWakeup
    | StartLoop
    | TestQuit
    | PollReturns
    | ReadWakeupFd
    | BeginBatch
    | Swap
    | RunNext
    | EndBatch
    | TimersDone

  /** The phases in which user code runs on the loop thread. */
  predicate UserCode(p: Phase) {
    p.Idle? || p.Handling? || p.Calling? || p.Timers?
  }

  function LoopOrigin(p: Phase): Origin {
    match p
    case Handling => EventHandler
    case Calling => RunningFunctor
    case Timers => TimerCallback
    case _ => OutsideLoop
  }

  function Push(s: State, p: Post): State {
    s.(pending := s.pending + [p], queued := s.queued + [p])
  }

  function Bump(counter: nat): nat {
    if counter < COUNTER_MAX then counter + 1 else counter
  }

  function Next(s: State, step: Step): State {
    match step
    case OtherPost(t, f) =>
      if t in s.owing then s else Push(s, Post(f, OtherThread)).(owing := s.owing + {t})
    case OtherQuit(t) =>
      if t in s.owing then s else s.(quit := true, asked := true, owing := s.owing + {t})
    case OtherWakeup(t) =>
      if t !in s.owing then s else s.(counter := Bump(s.counter), owing := s.owing - {t})
    case LoopPost(f) =>
      if !UserCode(s.phase) || s.loopOwes then s
      else Push(s, Post(f, LoopOrigin(s.phase))).(loopOwes := s.phase.Calling?)
    case LoopQuit =>
      if !UserCode(s.phase) || s.loopOwes then s else s.(quit := true, asked := true)
    case LoopWakeup =>
      if !s.loopOwes then s else s.(counter := Bump(s.counter), loopOwes := false)
    case StartLoop =>
      if !s.phase.Idle? then s else s.(phase := LoopHead, quit := false)
    case TestQuit =>
      if !s.phase.LoopHead? then s else s.(phase := if s.quit then Idle else Polling, asked := false)
    case PollReturns =>
      if !s.phase.Polling? then s else s.(phase := Handling)
    case ReadWakeupFd =>
      if !s.phase.Handling? then s else s.(counter := 0)
    case BeginBatch =>
      if !s.phase.Handling? then s else s.(phase := Swapping)
    case Swap =>
      if !s.phase.Swapping? then s else s.(phase := Calling, batch := s.pending, pending := [])
    case RunNext =>
      if !s.phase.Calling? || s.loopOwes || s.batch == [] then s
      else s.(executed := s.executed + [s.batch[0]], batch := s.batch[1..])
    case EndBatch =>
      if !s.phase.Calling? || s.loopOwes || s.batch != [] then s else s.(phase := Timers)
    case TimersDone =>
      if !s.phase.Timers? then s else s.(phase := LoopHead)
  }

  function Run(s: State, steps: seq<Step>): State
    decreases |steps|
  {
    if steps == [] then s else Run(Next(s, steps[0]), steps[1..])
  }

  lemma {:induction false} RunAppend(s: State, a: seq<Step>, b: seq<Step>)
    ensures Run(s, a + b) == Run(Run(s, a), b)
    decreases |a|
  {
    if a == [] {
      assert a + b == b;
    } else {
      assert (a + b)[1..] == a[1..] + b;
      RunAppend(Next(s, a[0]), a[1..], b);
    }
  }

  lemma RunOne(s: State, a: Step)
    ensures Run(s, [a]) == Next(s, a)
  {
    assert [a][1..] == [];
  }

  lemma RunTwo(s: State, a: Step, b: Step)
    ensures Run(s, [a, b]) == Next(Next(s, a), b)
  {
    assert [a, b][1..] == [b];
    RunOne(Next(s, a), b);
  }

  lemma RunThree(s: State, a: Step, b: Step, c: Step)
    ensures Run(s, [a, b, c]) == Next(Next(Next(s, a), b), c)
  {
    assert [a, b, c][1..] == [b, c];
    RunTwo(Next(s, a), b, c);
  }

  // ----- Invariant ---------------------------------------------------------------------

  /** Posts that the wakeup protocol covers. */
  predicate Covered(p: Post) {
    p.origin.OtherThread? || p.origin.EventHandler? || p.origin.RunningFunctor?
  }

  /** `poll` cannot block for long: the eventfd is readable, or a thread is about to make it so. */
  predicate WakeupDue(s: State) {
    s.counter > 0 || s.owing != {} || s.loopOwes
  }

  predicate HasCovered(posts: seq<Post>) {
    exists i :: 0 <= i < |posts| && Covered(posts[i])
  }

  predicate Ordered(s: State) {
    && s.executed + s.batch + s.pending == s.queued
    && (s.batch != [] ==> s.phase.Calling?)
    && (s.loopOwes ==> s.phase.Calling?)
  }

  predicate Guarded(s: State) {
    && (!s.phase.Handling? && !s.phase.Swapping? && HasCovered(s.pending) ==> WakeupDue(s))
    && (s.phase.Polling? && s.quit ==> WakeupDue(s))
    && (s.asked && !s.phase.LoopHead? ==> s.quit)
  }

  predicate Inv(s: State) {
    Ordered(s) && Guarded(s)
  }

  lemma NextKeepsOrdered(s: State, step: Step)
    requires Ordered(s)
    ensures Ordered(Next(s, step))
  {
    if step.RunNext? && s.batch != [] {
      assert [s.batch[0]] + s.batch[1..] == s.batch;
    }
  }

  lemma PushUncovered(posts: seq<Post>, p: Post)
    requires HasCovered(posts + [p]) && !Covered(p)
    ensures HasCovered(posts)
  {
    var i :| 0 <= i < |posts + [p]| && Covered((posts + [p])[i]);
    assert Covered(posts[i]);
  }

  lemma NextKeepsGuarded(s: State, step: Step)
    requires Ordered(s) && Guarded(s)
    ensures Guarded(Next(s, step))
  {
    if step.LoopPost? {
      var p := Post(step.f, LoopOrigin(s.phase));
      if HasCovered(s.pending + [p]) && !Covered(p) {
        PushUncovered(s.pending, p);
      }
    }
  }

  lemma NextKeepsInv(s: State, step: Step)
    requires Inv(s)
    ensures Inv(Next(s, step))
  {
    NextKeepsOrdered(s, step);
    NextKeepsGuarded(s, step);
  }

  lemma {:induction false} RunKeepsInv(s: State, steps: seq<Step>)
    requires Inv(s)
    ensures Inv(Run(s, steps))
    decreases |steps|
  {
    if steps != [] {
      NextKeepsInv(s, steps[0]);
      RunKeepsInv(Next(s, steps[0]), steps[1..]);
    }
  }

  // ----- No lost wakeup ----------------------------------------------------------------

  /** Whatever the interleaving, when the loop is in `poll` with an unreadable eventfd and no
      poster about to write it, nothing that the protocol covers is waiting: every functor still
      queued came from a timer callback or from the loop thread outside `loop()`, and nobody has
      asked it to quit since it last tested the flag. */
  lemma NoLostWakeup(steps: seq<Step>)
    ensures var s := Run(INITIAL, steps);
            s.phase.Polling? && s.counter == 0 && s.owing == {} ==>
              && !s.quit && !s.asked
              && forall i :: 0 <= i < |s.pending| ==>
                   s.pending[i].origin.TimerCallback? || s.pending[i].origin.OutsideLoop?
  {
    RunKeepsInv(INITIAL, steps);
    var s := Run(INITIAL, steps);
    if s.phase.Polling? && s.counter == 0 && s.owing == {} {
      forall i | 0 <= i < |s.pending|
        ensures s.pending[i].origin.TimerCallback? || s.pending[i].origin.OutsideLoop?
      {
        assert !Covered(s.pending[i]);
      }
    }
  }

  // ----- Quit requests -----------------------------------------------------------------

  /** A request that the next test of the flag will not see. */
  predicate QuitLost(s: State) {
    s.asked && !s.quit
  }

  /** Exactly which step loses a request: the start of `loop()`, which clears the flag. */
  lemma QuitLostIff(s: State, step: Step)
    requires !QuitLost(s)
    ensures QuitLost(Next(s, step)) <==> step.StartLoop? && s.phase.Idle? && s.asked
  {
  }

  predicate Asks(s: State, step: Step) {
    (step.OtherQuit? && step.t !in s.owing) || (step.LoopQuit? && UserCode(s.phase) && !s.loopOwes)
  }

  /** Nobody asks, and the loop does not test. */
  predicate NoQuitBusiness(steps: seq<Step>) {
    forall i :: 0 <= i < |steps| ==> !steps[i].OtherQuit? && !steps[i].LoopQuit? && !steps[i].TestQuit?
  }

  lemma {:induction false} FlagStaysIff(s: State, steps: seq<Step>)
    requires NoQuitBusiness(steps)
    ensures Run(s, steps).quit <==> s.quit && !(s.phase.Idle? && StartLoop in steps)
    decreases |steps|
  {
    if steps != [] {
      var rest := steps[1..];
      assert steps == [steps[0]] + rest;
      assert !steps[0].OtherQuit? && !steps[0].LoopQuit? && !steps[0].TestQuit?;
      forall i | 0 <= i < |rest|
        ensures rest[i] == steps[i + 1]
      {
      }
      FlagStaysIff(Next(s, steps[0]), rest);
    }
  }

  /** A quit request is honoured at the loop's next test of the flag, whatever happens in between, if
      and only if no start of `loop()` comes in between - so just the requests made before `loop()`
      runs are lost. */
  lemma QuitHonouredIff(s: State, request: Step, steps: seq<Step>)
    requires Asks(s, request) && NoQuitBusiness(steps)
    requires Run(Next(s, request), steps).phase.LoopHead?
    ensures var n := Next(Run(Next(s, request), steps), TestQuit);
            n.phase.Idle? <==> !(s.phase.Idle? && StartLoop in steps)
  {
    FlagStaysIff(Next(s, request), steps);
  }

  function Repeat(step: Step, n: nat): seq<Step> {
    if n == 0 then [] else [step] + Repeat(step, n - 1)
  }

  /** The steps that take the loop thread, left alone, from user code to its next `poll`. */
  function ToNextPoll(s: State): seq<Step> {
    match s.phase
    case Idle => [StartLoop, TestQuit]
    case Handling => [BeginBatch, Swap] + Repeat(RunNext, |s.pending|) + [EndBatch, TimersDone, TestQuit]
    case Calling => [LoopWakeup] + Repeat(RunNext, |s.batch|) + [EndBatch, TimersDone, TestQuit]
    case Timers => [TimersDone, TestQuit]
    case _ => []
  }

  lemma {:induction false} RunBatch(s: State)
    requires s.phase.Calling? && !s.loopOwes
    ensures Run(s, Repeat(RunNext, |s.batch|)) == s.(executed := s.executed + s.batch, batch := [])
    decreases |s.batch|
  {
    if s.batch == [] {
      assert s.executed + s.batch == s.executed;
    } else {
      var steps := Repeat(RunNext, |s.batch|);
      assert steps[0] == RunNext && steps[1..] == Repeat(RunNext, |s.batch| - 1);
      RunBatch(Next(s, RunNext));
      assert s.executed + [s.batch[0]] + s.batch[1..] == s.executed + s.batch;
    }
  }

  lemma FinishBatch(s: State)
    requires s.phase.Calling? && !s.loopOwes && !s.quit
    ensures Run(s, Repeat(RunNext, |s.batch|) + [EndBatch, TimersDone, TestQuit])
         == s.(phase := Polling, executed := s.executed + s.batch, batch := [], asked := false)
  {
    RunAppend(s, Repeat(RunNext, |s.batch|), [EndBatch, TimersDone, TestQuit]);
    RunBatch(s);
    RunThree(s.(executed := s.executed + s.batch, batch := []), EndBatch, TimersDone, TestQuit);
  }

  lemma PollAfterCalling(s: State)
    requires s.phase.Calling? && !s.quit
    ensures Run(s, ToNextPoll(s)) ==
            s.(phase := Polling, executed := s.executed + s.batch, batch := [], asked := false, loopOwes := false,
               counter := if s.loopOwes then Bump(s.counter) else s.counter)
  {
    var rest := Repeat(RunNext, |s.batch|) + [EndBatch, TimersDone, TestQuit];
    assert ToNextPoll(s) == [LoopWakeup] + rest;
    assert ToNextPoll(s)[1..] == rest;
    FinishBatch(Next(s, LoopWakeup));
  }

  lemma PollAfterHandling(s: State)
    requires s.phase.Handling? && !s.loopOwes && !s.quit && s.batch == []
    ensures Run(s, ToNextPoll(s)) ==
            s.(phase := Polling, executed := s.executed + s.pending, pending := [], asked := false)
  {
    var rest := Repeat(RunNext, |s.pending|) + [EndBatch, TimersDone, TestQuit];
    assert ToNextPoll(s) == [BeginBatch, Swap] + rest;
    assert ToNextPoll(s)[1..] == [Swap] + rest;
    assert ([Swap] + rest)[1..] == rest;
    FinishBatch(Next(Next(s, BeginBatch), Swap));
  }

  /** Exactly which posts of the loop thread can be slept on: from a state where nothing else
      would wake the loop, a post followed by the loop's own steps up to the next `poll` leaves
      the loop sleeping on that functor if and only if it was made by a timer callback or
      outside `loop()` - the two places where `queueInLoop` skips the wakeup and no swap comes
      before the next `poll`. */
  lemma SleepsOnOwnPostIff(s: State, f: Functor)
    requires Inv(s) && UserCode(s.phase) && !s.loopOwes
    requires s.counter == 0 && s.owing == {} && !s.quit
    ensures var posted := Next(s, LoopPost(f));
            var atPoll := Run(posted, ToNextPoll(posted));
            && atPoll.phase.Polling?
            && ((atPoll.counter == 0 && Post(f, LoopOrigin(s.phase)) in atPoll.pending)
                <==> (s.phase.Timers? || s.phase.Idle?))
  {
    var posted := Next(s, LoopPost(f));
    match s.phase
    case Idle =>
      assert ToNextPoll(posted)[1..] == [TestQuit] && [TestQuit][1..] == [];
      assert Post(f, OutsideLoop) == posted.pending[|s.pending|];
    case Timers =>
      assert ToNextPoll(posted)[1..] == [TestQuit] && [TestQuit][1..] == [];
      assert Post(f, TimerCallback) == posted.pending[|s.pending|];
    case Handling => PollAfterHandling(posted);
    case Calling => PollAfterCalling(posted);
  }

  // ----- Conservation, order and fairness ------------------------------------------------

  /** What has run, what is left of the batch and what is pending always spell out the log of
      posts: each functor runs at most once and in posting order. */
  lemma FunctorConservation(steps: seq<Step>)
    ensures var s := Run(INITIAL, steps);
            && s.executed + s.batch + s.pending == s.queued
            && s.executed <= s.queued
  {
    RunKeepsInv(INITIAL, steps);
    var s := Run(INITIAL, steps);
    assert s.executed + s.batch + s.pending == s.executed + (s.batch + s.pending);
  }

  /** The post that a step makes, if its thread can take it: another thread that does not still owe a
      wakeup, or the loop thread in user code. The origin follows from where the post is made. */
  function PostOf(s: State, step: Step): seq<Post> {
    match step
    case OtherPost(t, f) => if t in s.owing then [] else [Post(f, OtherThread)]
    case LoopPost(f) =>
      if s.loopOwes then []
      else if s.phase.Handling? then [Post(f, EventHandler)]
      else if s.phase.Calling? then [Post(f, RunningFunctor)]
      else if s.phase.Timers? then [Post(f, TimerCallback)]
      else if s.phase.Idle? then [Post(f, OutsideLoop)]
      else []
    case _ => []
  }

  /** The posts of a run, read off its steps. */
  function PostsOf(s: State, steps: seq<Step>): seq<Post>
    decreases |steps|
  {
    if steps == [] then [] else PostOf(s, steps[0]) + PostsOf(Next(s, steps[0]), steps[1..])
  }

  lemma QueuedStep(s: State, step: Step)
    ensures Next(s, step).queued == s.queued + PostOf(s, step)
  {
    assert s.queued + [] == s.queued;
  }

  lemma {:induction false} QueuedAreThePosts(s: State, steps: seq<Step>)
    ensures Run(s, steps).queued == s.queued + PostsOf(s, steps)
    decreases |steps|
  {
    if steps != [] {
      hide Next, PostOf;
      var n := Next(s, steps[0]);
      QueuedStep(s, steps[0]);
      QueuedAreThePosts(n, steps[1..]);
      assert s.queued + PostOf(s, steps[0]) + PostsOf(n, steps[1..]) == s.queued + PostsOf(s, steps);
    } else {
      assert s.queued + [] == s.queued;
    }
  }

  /** So nothing that is posted gets lost: over every interleaving, what has run, what is left of the
      batch and what is pending are the posts of the run, in the order in which they were made. */
  lemma EveryPostAccounted(steps: seq<Step>)
    ensures var s := Run(INITIAL, steps);
            s.executed + s.batch + s.pending == PostsOf(INITIAL, steps)
  {
    FunctorConservation(steps);
    QueuedAreThePosts(INITIAL, steps);
    assert [] + PostsOf(INITIAL, steps) == PostsOf(INITIAL, steps);
  }

  /** A batch is closed when it is swapped out: until it ends, nothing but its own functors
      runs, however many posts they or other threads make. */
  lemma {:induction false} BatchIsClosed(s: State, steps: seq<Step>)
    requires s.phase.Calling?
    requires EndBatch !in steps
    ensures var s' := Run(s, steps);
            && s'.phase.Calling?
            && s'.executed + s'.batch == s.executed + s.batch
    decreases |steps|
  {
    if steps != [] {
      var n := Next(s, steps[0]);
      if steps[0].RunNext? && n != s {
        assert s.executed + [s.batch[0]] + s.batch[1..] == s.executed + s.batch;
      }
      BatchIsClosed(n, steps[1..]);
    }
  }

  /** Hence a functor posted after the swap is not called by that batch: during the batch only
      posts that were already logged at the swap run, at most one call for each. */
  lemma PostedDuringBatchWaits(s: State, steps: seq<Step>)
    requires Inv(s) && s.phase.Swapping?
    requires EndBatch !in steps
    ensures Run(Next(s, Swap), steps).executed <= s.queued
  {
    var swapped := Next(s, Swap);
    BatchIsClosed(swapped, steps);
    var s' := Run(swapped, steps);
    assert s'.executed + s'.batch == s.executed + s.pending;
    assert s.batch == [];
    assert s.executed + s.batch + s.pending == s.executed + s.pending;
  }

  /** The first `n` posts of the log have run, or are committed to run before this iteration of
      the loop is over. */
  predicate RunsThisIteration(s: State, n: nat) {
    match s.phase
    case Polling => n <= |s.queued|
    case Handling => n <= |s.queued|
    case Swapping => n <= |s.queued|
    case Calling => n <= |s.executed| + |s.batch|
    case _ => n <= |s.executed|
  }

  lemma StepKeepsCommitted(s: State, step: Step, n: nat)
    requires Ordered(s) && RunsThisIteration(s, n)
    ensures RunsThisIteration(Next(s, step), n)
  {
    assert |s.queued| == |s.executed| + |s.batch| + |s.pending|;
  }

  /** Once `poll` returns, one trip round the loop calls every functor that was queued by then -
      also the ones a timer callback posted without a wakeup - whatever else is posted. */
  lemma {:induction false} IterationRunsAllQueued(s: State, steps: seq<Step>, n: nat)
    requires Inv(s) && RunsThisIteration(s, n)
    ensures var s' := Run(s, steps);
            && RunsThisIteration(s', n)
            && (s'.phase.Timers? || s'.phase.LoopHead? || s'.phase.Idle? ==> n <= |s'.executed|)
    decreases |steps|
  {
    if steps != [] {
      hide Next;
      NextKeepsInv(s, steps[0]);
      StepKeepsCommitted(s, steps[0], n);
      IterationRunsAllQueued(Next(s, steps[0]), steps[1..], n);
    }
  }

  // ----- The object ----------------------------------------------------------------------

  datatype Caller = LoopThread | Other(t: ThreadId)

  function PostScript(caller: Caller, f: Functor, calling: bool): seq<Step> {
    match caller
    case LoopThread => [LoopPost(f)] + (if calling then [LoopWakeup] else [])
    case Other(t) => [OtherPost(t, f), OtherWakeup(t)]
  }

  /** The calls a functor makes to `queueInLoop` while it runs. */
  function PostAll(fs: seq<Functor>): seq<Step> {
    if fs == [] then [] else PostScript(LoopThread, fs[0], true) + PostAll(fs[1..])
  }

  function BatchScript(batch: seq<Post>, posts: Functor -> seq<Functor>): seq<Step> {
    if batch == [] then [] else [RunNext] + PostAll(posts(batch[0].functor)) + BatchScript(batch[1..], posts)
  }

  lemma {:induction false} BatchScriptAppend(a: seq<Post>, p: Post, posts: Functor -> seq<Functor>)
    ensures BatchScript(a + [p], posts) == BatchScript(a, posts) + [RunNext] + PostAll(posts(p.functor))
  {
    if a == [] {
      assert a + [p] == [p] && [p][1..] == [];
      assert BatchScript([p], posts) == [RunNext] + PostAll(posts(p.functor)) + [];
    } else {
      assert (a + [p])[1..] == a[1..] + [p];
      BatchScriptAppend(a[1..], p, posts);
    }
  }

  lemma {:induction false} PostAllAppend(a: seq<Functor>, f: Functor)
    ensures PostAll(a + [f]) == PostAll(a) + PostScript(LoopThread, f, true)
  {
    if a == [] {
      assert a + [f] == [f] && [f][1..] == [];
      assert PostAll([f]) == PostScript(LoopThread, f, true) + [];
    } else {
      assert (a + [f])[1..] == a[1..] + [f];
      PostAllAppend(a[1..], f);
    }
  }

  /** Posts of the loop thread outside a batch: no wakeup follows. */
  function Plain(fs: seq<Functor>): seq<Step> {
    if fs == [] then [] else Plain(fs[..|fs| - 1]) + [LoopPost(fs[|fs| - 1])]
  }

  function PostsFrom(fs: seq<Functor>, origin: Origin): (r: seq<Post>)
    ensures |r| == |fs|
  {
    if fs == [] then [] else PostsFrom(fs[..|fs| - 1], origin) + [Post(fs[|fs| - 1], origin)]
  }

  /** What a batch posts while it runs. */
  function PostedBy(functors: seq<Post>, posts: Functor -> seq<Functor>): seq<Post> {
    if functors == [] then []
    else
      var last := functors[|functors| - 1];
      PostedBy(functors[..|functors| - 1], posts) + PostsFrom(posts(last.functor), RunningFunctor)
  }

  lemma PlainSnoc(s: State, fs: seq<Functor>, i: nat)
    requires i < |fs|
    ensures Run(s, Plain(fs[..i + 1])) == Next(Run(s, Plain(fs[..i])), LoopPost(fs[i]))
    ensures var origin := LoopOrigin(s.phase);
            PostsFrom(fs[..i + 1], origin) == PostsFrom(fs[..i], origin) + [Post(fs[i], origin)]
  {
    assert fs[..i + 1][..i] == fs[..i];
    RunAppend(s, Plain(fs[..i]), [LoopPost(fs[i])]);
    RunOne(Run(s, Plain(fs[..i])), LoopPost(fs[i]));
  }

  /** One trip round the loop, up to the end of event handling, the batch, and the timers. */
  function EventSteps(ready: bool, handled: seq<Functor>): seq<Step> {
    [TestQuit, PollReturns] + (if ready then [ReadWakeupFd] else []) + Plain(handled)
  }

  function BatchSteps(batch: seq<Post>, posts: Functor -> seq<Functor>): seq<Step> {
    [BeginBatch, Swap] + BatchScript(batch, posts) + [EndBatch]
  }

  function TimerSteps(timed: seq<Functor>): seq<Step> {
    Plain(timed) + [TimersDone]
  }

  lemma RunInThree(s: State, a: seq<Step>, b: seq<Step>, c: seq<Step>)
    ensures Run(s, a + b + c) == Run(Run(Run(s, a), b), c)
  {
    RunAppend(s, a + b, c);
    RunAppend(s, a, b);
  }

  lemma StartOfTrip(s: State, ready: bool, handled: seq<Functor>)
    ensures var s1 := Next(Next(s, TestQuit), PollReturns);
            var s2 := if ready then Next(s1, ReadWakeupFd) else s1;
            Run(s, EventSteps(ready, handled)) == Run(s2, Plain(handled))
  {
    var first := if ready then [ReadWakeupFd] else [];
    RunInThree(s, [TestQuit, PollReturns], first, Plain(handled));
    RunTwo(s, TestQuit, PollReturns);
    if ready {
      RunOne(Next(Next(s, TestQuit), PollReturns), ReadWakeupFd);
    }
  }

  lemma EndOfTrip(s: State, timed: seq<Functor>)
    ensures Run(s, TimerSteps(timed)) == Next(Run(s, Plain(timed)), TimersDone)
  {
    RunAppend(s, Plain(timed), [TimersDone]);
    RunOne(Run(s, Plain(timed)), TimersDone);
  }

  lemma NothingPosted(start: State)
    ensures Run(start, PostAll([])) == start
  {
  }

  lemma StartBatch(start: State, posts: Functor -> seq<Functor>)
    ensures Run(start, [BeginBatch, Swap] + BatchScript([], posts)) == Next(Next(start, BeginBatch), Swap)
  {
    assert [BeginBatch, Swap] + BatchScript([], posts) == [BeginBatch, Swap];
    RunTwo(start, BeginBatch, Swap);
  }

  lemma EndOfBatch(start: State, functors: seq<Post>, posts: Functor -> seq<Functor>)
    ensures Run(start, [BeginBatch, Swap] + BatchScript(functors, posts) + [EndBatch])
         == Next(Run(start, [BeginBatch, Swap] + BatchScript(functors, posts)), EndBatch)
  {
    RunAppend(start, [BeginBatch, Swap] + BatchScript(functors, posts), [EndBatch]);
    RunOne(Run(start, [BeginBatch, Swap] + BatchScript(functors, posts)), EndBatch);
  }

  lemma ContinueBatch(start: State, functors: seq<Post>, i: nat, posts: Functor -> seq<Functor>)
    requires i < |functors|
    ensures Run(start, [BeginBatch, Swap] + BatchScript(functors[..i + 1], posts))
         == Run(Next(Run(start, [BeginBatch, Swap] + BatchScript(functors[..i], posts)), RunNext),
                PostAll(posts(functors[i].functor)))
  {
    var before := [BeginBatch, Swap] + BatchScript(functors[..i], posts);
    var calls := PostAll(posts(functors[i].functor));
    assert functors[..i + 1] == functors[..i] + [functors[i]];
    BatchScriptAppend(functors[..i], functors[i], posts);
    assert [BeginBatch, Swap] + BatchScript(functors[..i + 1], posts) == before + [RunNext] + calls;
    RunAppend(start, before, [RunNext]);
    RunOne(Run(start, before), RunNext);
    RunAppend(start, before + [RunNext], calls);
  }

  /** The event loop's own fields; each method is the uninterrupted execution of the steps that
      its contract names, so the theorems above apply to it. */
  class Reactor {
    var quit: bool
    var callingPendingFunctors: bool
    var pendingFunctors: seq<Post>
    var wakeupCounter: nat
    var phase: Phase
    ghost var batch: seq<Post>
    ghost var owing: set<ThreadId>
    ghost var queued: seq<Post>
    ghost var executed: seq<Post>
    ghost var asked: bool

    ghost predicate Valid()
      reads this
    {
      callingPendingFunctors == (phase.Swapping? || phase.Calling?)
    }

    ghost function Abs(): State
      reads this
    {
      State(phase, quit, pendingFunctors, batch, wakeupCounter, owing, false, queued, executed, asked)
    }

    constructor ()
      ensures Valid() && Abs() == INITIAL
    {
      quit, callingPendingFunctors, pendingFunctors, wakeupCounter := false, false, [], 0;
      phase, batch, owing, queued, executed, asked := Idle, [], {}, [], [], false;
    }

    /** An eventfd write of 1. */
    method Wakeup()
      modifies this`wakeupCounter
      ensures wakeupCounter == Bump(old(wakeupCounter))
      ensures wakeupCounter == old(wakeupCounter) + if old(wakeupCounter) < 0xFFFF_FFFF_FFFF_FFFE then 1 else 0
    {
      if wakeupCounter < COUNTER_MAX {
        wakeupCounter := wakeupCounter + 1;
      }
    }

    /** An eventfd read: it takes the whole counter, or fails when the counter is zero. */
    method HandleRead()
      requires Valid() && phase.Handling?
      modifies this`wakeupCounter
      ensures Valid() && Abs() == Next(old(Abs()), ReadWakeupFd)
      ensures wakeupCounter == 0
    {
      wakeupCounter := 0;
    }

    method QueueInLoop(caller: Caller, f: Functor)
      requires Valid()
      requires caller.LoopThread? ==> UserCode(phase)
      requires caller.Other? ==> caller.t !in owing
      modifies this
      ensures Valid() && Abs() == Run(old(Abs()), PostScript(caller, f, old(callingPendingFunctors)))
      ensures phase == old(phase) && batch == old(batch) && executed == old(executed) && quit == old(quit)
      ensures owing == old(owing)
      ensures pendingFunctors == old(pendingFunctors) + [Post(f,
                if caller.Other? then OtherThread
                else if phase.Handling? then EventHandler
                else if phase.Calling? then RunningFunctor
                else if phase.Timers? then TimerCallback
                else OutsideLoop)]
      ensures wakeupCounter == old(wakeupCounter)
                + if (caller.Other? || phase.Calling?) && old(wakeupCounter) < 0xFFFF_FFFF_FFFF_FFFE then 1 else 0
    {
      var post := Post(f, if caller.LoopThread? then LoopOrigin(phase) else OtherThread);
      pendingFunctors := pendingFunctors + [post];
      queued := queued + [post];
      if !caller.LoopThread? || callingPendingFunctors {
        Wakeup();
      }
      if caller.Other? {
        assert owing + {caller.t} - {caller.t} == owing;
        RunTwo(old(Abs()), OtherPost(caller.t, f), OtherWakeup(caller.t));
      } else if callingPendingFunctors {
        RunTwo(old(Abs()), LoopPost(f), LoopWakeup);
        assert PostScript(caller, f, true) == [LoopPost(f), LoopWakeup];
      } else {
        RunOne(old(Abs()), LoopPost(f));
        assert PostScript(caller, f, false) == [LoopPost(f)];
      }
    }

    /** From the loop thread the functor is called at once and never enters the queue; from
        another thread it is posted. */
    method RunInLoop(caller: Caller, f: Functor) returns (calledNow: bool)
      requires Valid()
      requires caller.LoopThread? ==> UserCode(phase)
      requires caller.Other? ==> caller.t !in owing
      modifies this
      ensures calledNow == caller.LoopThread?
      ensures pendingFunctors == old(pendingFunctors) + if calledNow then [] else [Post(f, OtherThread)]
      ensures Valid() && Abs() == if calledNow then old(Abs())
                                  else Run(old(Abs()), PostScript(caller, f, old(callingPendingFunctors)))
    {
      if caller.LoopThread? {
        calledNow := true;
      } else {
        calledNow := false;
        QueueInLoop(caller, f);
      }
    }

    method Quit(caller: Caller)
      requires Valid()
      requires caller.LoopThread? ==> UserCode(phase)
      requires caller.Other? ==> caller.t !in owing
      modifies this`quit, this`asked, this`wakeupCounter
      ensures Valid() && quit
      ensures wakeupCounter == old(wakeupCounter)
                + if caller.Other? && old(wakeupCounter) < 0xFFFF_FFFF_FFFF_FFFE then 1 else 0
      ensures Abs() == Run(old(Abs()), if caller.LoopThread? then [LoopQuit]
                                       else [OtherQuit(caller.t), OtherWakeup(caller.t)])
    {
      quit, asked := true, true;
      if caller.Other? {
        Wakeup();
        assert owing + {caller.t} - {caller.t} == owing;
        RunTwo(old(Abs()), OtherQuit(caller.t), OtherWakeup(caller.t));
      } else {
        RunOne(old(Abs()), LoopQuit);
      }
    }

    /** `posts` says which functors a functor posts while it runs; the posts go to the list that
        replaced the swapped one, so the loop below ends even if every functor posts itself. */
    method DoPendingFunctors(posts: Functor -> seq<Functor>)
      requires Valid() && phase.Handling? && batch == []
      modifies this
      ensures Valid() && phase == Timers
      ensures executed == old(executed) + old(pendingFunctors)
      ensures pendingFunctors == PostedBy(old(pendingFunctors), posts)
      ensures Abs() == Run(old(Abs()), BatchSteps(old(pendingFunctors), posts))
    {
      hide Run, Next, BatchScript, PostedBy, PostsFrom, Bump;
      ghost var start := Abs();
      var functors := SwapOut();
      StartBatch(start, posts);
      CallAll(functors, posts, start);
      FinishBatch();
      EndOfBatch(start, functors, posts);
    }

    /** Under the lock: the list is exchanged for an empty one. */
    method SwapOut() returns (functors: seq<Post>)
      requires Valid() && phase.Handling? && batch == []
      modifies this`phase, this`callingPendingFunctors, this`pendingFunctors, this`batch
      ensures Valid() && phase == Calling && callingPendingFunctors
      ensures functors == old(pendingFunctors) && batch == functors && pendingFunctors == []
      ensures Abs() == Next(Next(old(Abs()), BeginBatch), Swap)
    {
      phase, callingPendingFunctors := Swapping, true;
      functors := pendingFunctors;
      phase, batch, pendingFunctors := Calling, functors, [];
    }

    method FinishBatch()
      requires Valid() && phase.Calling? && batch == []
      modifies this`phase, this`callingPendingFunctors
      ensures Valid() && phase == Timers && !callingPendingFunctors
      ensures Abs() == Next(old(Abs()), EndBatch)
    {
      phase, callingPendingFunctors := Timers, false;
    }

    /** The loop over the swapped-out list. */
    method CallAll(functors: seq<Post>, posts: Functor -> seq<Functor>, ghost start: State)
      requires Valid() && phase.Calling? && batch == functors && pendingFunctors == []
      requires Abs() == Run(start, [BeginBatch, Swap] + BatchScript([], posts))
      modifies this
      ensures Valid() && phase.Calling? && batch == []
      ensures executed == old(executed) + functors && pendingFunctors == PostedBy(functors, posts)
      ensures Abs() == Run(start, [BeginBatch, Swap] + BatchScript(functors, posts))
    {
      hide Run, BatchScript;
      var i := 0;
      assert functors[..0] == [];
      while i < |functors|
        invariant 0 <= i <= |functors|
        invariant Valid() && phase == Calling
        invariant batch == functors[i..]
        invariant executed == old(executed) + functors[..i] && pendingFunctors == PostedBy(functors[..i], posts)
        invariant Abs() == Run(start, [BeginBatch, Swap] + BatchScript(functors[..i], posts))
      {
        ContinueBatch(start, functors, i, posts);
        assert functors[..i + 1][..i] == functors[..i];
        CallFunctor(functors[i], posts(functors[i].functor));
        assert functors[..i + 1] == functors[..i] + [functors[i]];
        i := i + 1;
      }
      assert functors[..|functors|] == functors;
    }

    /** One call of a functor, whose body calls `queueInLoop` for each of `fs`. */
    method CallFunctor(post: Post, fs: seq<Functor>)
      requires Valid() && phase.Calling? && batch != [] && batch[0] == post
      modifies this
      ensures Valid() && Abs() == Run(Next(old(Abs()), RunNext), PostAll(fs))
      ensures phase == old(phase) && batch == old(batch)[1..] && executed == old(executed) + [post]
      ensures pendingFunctors == old(pendingFunctors) + PostsFrom(fs, RunningFunctor)
    {
      hide Run, PostAll, PostScript;
      executed, batch := executed + [post], batch[1..];
      ghost var start := Abs();
      assert fs[..0] == [];
      NothingPosted(start);
      var i := 0;
      while i < |fs|
        invariant 0 <= i <= |fs|
        invariant Valid() && Abs() == Run(start, PostAll(fs[..i]))
        invariant phase == start.phase && batch == start.batch && executed == start.executed
        invariant pendingFunctors == start.pending + PostsFrom(fs[..i], RunningFunctor)
      {
        assert fs[..i + 1][..i] == fs[..i];
        QueueInLoop(LoopThread, fs[i]);
        PostAllAppend(fs[..i], fs[i]);
        assert fs[..i] + [fs[i]] == fs[..i + 1];
        RunAppend(start, PostAll(fs[..i]), PostScript(LoopThread, fs[i], true));
        i := i + 1;
      }
      assert fs[..|fs|] == fs;
    }

    /** Event handlers and timer callbacks post without a wakeup. */
    method PostEach(fs: seq<Functor>)
      requires Valid() && (phase.Handling? || phase.Timers?)
      modifies this
      ensures Valid() && Abs() == Run(old(Abs()), Plain(fs))
      ensures phase == old(phase) && batch == old(batch) && executed == old(executed)
      ensures pendingFunctors == old(pendingFunctors) + PostsFrom(fs, LoopOrigin(phase))
    {
      ghost var start := Abs();
      assert fs[..0] == [] && Run(start, Plain([])) == start;
      hide Run, Plain, PostsFrom;
      assert PostsFrom([], LoopOrigin(phase)) == [];
      var i := 0;
      while i < |fs|
        invariant 0 <= i <= |fs|
        invariant Valid() && Abs() == Run(start, Plain(fs[..i]))
        invariant phase == start.phase && batch == start.batch && executed == start.executed
        invariant pendingFunctors == start.pending + PostsFrom(fs[..i], LoopOrigin(start.phase))
      {
        QueueInLoop(LoopThread, fs[i]);
        PlainSnoc(start, fs, i);
        RunOne(Run(start, Plain(fs[..i])), LoopPost(fs[i]));
        i := i + 1;
      }
      assert fs[..|fs|] == fs;
    }

    /** From the `while` test to the end of event handling. */
    method HandleEvents(ready: bool, handled: seq<Functor>)
      requires Valid() && phase.LoopHead? && batch == [] && !quit
      modifies this
      ensures Valid() && phase == Handling && batch == [] && executed == old(executed)
      ensures pendingFunctors == old(pendingFunctors) + PostsFrom(handled, EventHandler)
      ensures Abs() == Run(old(Abs()), EventSteps(ready, handled))
    {
      hide Run, Plain, EventSteps, PostsFrom;
      StartOfTrip(Abs(), ready, handled);
      phase, asked := Handling, false;
      if ready {
        HandleRead();
      }
      PostEach(handled);
    }

    method RunTimers(timed: seq<Functor>)
      requires Valid() && phase.Timers?
      modifies this
      ensures Valid() && phase == LoopHead && executed == old(executed)
      ensures pendingFunctors == old(pendingFunctors) + PostsFrom(timed, TimerCallback)
      ensures Abs() == Run(old(Abs()), TimerSteps(timed))
    {
      hide Run, Plain, TimerSteps, PostsFrom;
      EndOfTrip(Abs(), timed);
      PostEach(timed);
      phase := LoopHead;
    }

    /** The body of the `while` in `loop`: `ready` says whether the eventfd is among the active
        channels, `handled` and `timed` what the event handlers and the timer callbacks post, and
        `posts` what each functor posts. The batch is what was pending after the handlers; what it
        posts itself, and what the timers post, waits for the next trip. */
    method Iterate(ready: bool, handled: seq<Functor>, posts: Functor -> seq<Functor>, timed: seq<Functor>)
      returns (continues: bool)
      requires Valid() && phase.LoopHead? && batch == []
      modifies this
      ensures Valid() && continues == !old(quit)
      ensures !continues ==> Abs() == Next(old(Abs()), TestQuit)
      ensures continues ==> phase == LoopHead
      ensures continues ==> executed == old(executed) + old(pendingFunctors) + PostsFrom(handled, EventHandler)
      ensures continues ==>
        pendingFunctors == PostedBy(old(pendingFunctors) + PostsFrom(handled, EventHandler), posts)
                           + PostsFrom(timed, TimerCallback)
      ensures continues ==>
        Abs() == Run(old(Abs()), EventSteps(ready, handled)
                                 + BatchSteps(old(pendingFunctors) + PostsFrom(handled, EventHandler), posts)
                                 + TimerSteps(timed))
    {
      if quit {
        phase, asked := Idle, false;
        return false;
      }
      hide Run, BatchSteps, EventSteps, TimerSteps, PostsFrom, PostedBy;
      ghost var start := Abs();
      HandleEvents(ready, handled);
      ghost var functors := pendingFunctors;
      DoPendingFunctors(posts);
      RunTimers(timed);
      continues := true;
      RunInThree(start, EventSteps(ready, handled), BatchSteps(functors, posts), TimerSteps(timed));
      assert executed == start.executed + (start.pending + PostsFrom(handled, EventHandler));
    }
  }
}
