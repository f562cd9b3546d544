/** The blocking task queue: a mutex, a condition variable and a `stopped` flag. Everything a thread
    does between taking the mutex and giving it up (by returning or by waiting) is one step, so
    a run is any sequence of steps of any number of threads. A step that cannot be taken in a state
    leaves it alone.
  */
module TaskQueue {
  import opened Elements

  type Task = int
  type ThreadId = int

  /** Who took a task off the queue, and through which operation. */
  datatype Receiver = Popper(t: ThreadId) | TryPopper(t: ThreadId) | Drainer(t: ThreadId) | Discarded

  datatype Taken = Taken(task: Task, to: Receiver)

  /** `sleeping` threads are blocked in `wait`; `signalled` ones have been woken and have yet to get
      the mutex back; `timed` are the threads inside `popFor`. `pushed` and `taken` are logs. */
  datatype State = State(
    queue: seq<Task>,
    stopped: bool,
    sleeping: set<ThreadId>,
    signalled: set<ThreadId>,
    timed: set<ThreadId>,
    pushed: seq<Task>,
    taken: seq<Taken>)

  const INITIAL := State([], false, {}, {}, {}, [], [])

  /** `woken` is the choice of the condition variable: a notify wakes at least one sleeper if there
      is one. `Enter` is the first turn of `pop` or `popFor`, `Resume` a later one. */
  datatype Step =
    | Push(task: Task, woken: set<ThreadId>)
    | Enter(t: ThreadId, limited: bool)
    | Resume(t: ThreadId)
    | SpuriousWakeup(t: ThreadId)
    | Timeout(t: ThreadId)
    | TryPop(t: ThreadId)
    | PopAll(t: ThreadId)
    | Stop
    | Reset

  predicate Inside(s: State, t: ThreadId) {
    t in s.sleeping || t in s.signalled
  }

  predicate LegalNotify(s: State, woken: set<ThreadId>) {
    woken <= s.sleeping && (s.sleeping != {} ==> woken != {})
  }

  function TakeFirst(s: State, to: Receiver): State
    requires s.queue != []
  {
    s.(queue := s.queue[1..], taken := s.taken + [Taken(s.queue[0], to)])
  }

  function TakenAll(tasks: seq<Task>, to: Receiver): (r: seq<Taken>)
    ensures |r| == |tasks|
  {
    if tasks == [] then [] else TakenAll(tasks[..|tasks| - 1], to) + [Taken(tasks[|tasks| - 1], to)]
  }

  /** The body of the wait loop for a thread that holds the mutex and is neither asleep nor woken. */
  function Turn(s: State, t: ThreadId): State {
    if s.queue == [] && !s.stopped then s.(sleeping := s.sleeping + {t})
    else if s.stopped then s.(timed := s.timed - {t})
    else TakeFirst(s, Popper(t)).(timed := s.timed - {t})
  }

  function Next(s: State, step: Step): State {
    match step
    case Push(task, woken) =>
      if !LegalNotify(s, woken) then s
      else s.(queue := s.queue + [task], pushed := s.pushed + [task],
              sleeping := s.sleeping - woken, signalled := s.signalled + woken)
    case Enter(t, limited) =>
      if Inside(s, t) then s else Turn(s.(timed := if limited then s.timed + {t} else s.timed - {t}), t)
    case Resume(t) =>
      if t !in s.signalled then s else Turn(s.(signalled := s.signalled - {t}), t)
    case SpuriousWakeup(t) =>
      if t !in s.sleeping then s
      else s.(sleeping := s.sleeping - {t}, signalled := s.signalled + {t})
    case Timeout(t) =>
      if t !in s.sleeping || t !in s.timed then s
      else s.(sleeping := s.sleeping - {t}, timed := s.timed - {t})
    case TryPop(t) =>
      if s.queue == [] then s else TakeFirst(s, TryPopper(t))
    case PopAll(t) =>
      s.(queue := [], taken := s.taken + TakenAll(s.queue, Drainer(t)))
    case Stop =>
      s.(stopped := true, sleeping := {}, signalled := s.signalled + s.sleeping)
    case Reset =>
      s.(stopped := false, queue := [], taken := s.taken + TakenAll(s.queue, Discarded))
  }

  function Run(s: State, steps: seq<Step>): State
    decreases |steps|
  {
    if steps == [] then s else Run(Next(s, steps[0]), steps[1..])
  }

  // ----- Invariant --------------------------------------------------------------------------------

  function Tasks(log: seq<Taken>): (r: seq<Task>)
    ensures |r| == |log|
  {
    if log == [] then [] else Tasks(log[..|log| - 1]) + [log[|log| - 1].task]
  }

  /** Nothing is lost, doubled or reordered. */
  predicate Conserved(s: State) {
    Tasks(s.taken) + s.queue == s.pushed
  }

  /** While the queue runs, each queued task beyond those that awake poppers will take implies that
      nobody sleeps. */
  predicate Served(s: State) {
    && s.sleeping !! s.signalled
    && (s.stopped ==> s.sleeping == {})
    && (s.sleeping != {} ==> |s.queue| <= |s.signalled|)
  }

  predicate Inv(s: State) {
    Conserved(s) && Served(s)
  }

  lemma {:induction false} TasksSnoc(log: seq<Taken>, x: Taken)
    ensures Tasks(log + [x]) == Tasks(log) + [x.task]
  {
    assert (log + [x])[..|log|] == log;
  }

  lemma {:induction false} TasksOfTakenAll(log: seq<Taken>, tasks: seq<Task>, to: Receiver)
    ensures Tasks(log + TakenAll(tasks, to)) == Tasks(log) + tasks
    decreases |tasks|
  {
    if tasks == [] {
      assert log + [] == log;
    } else {
      var n := |tasks| - 1;
      TasksOfTakenAll(log, tasks[..n], to);
      TasksSnoc(log + TakenAll(tasks[..n], to), Taken(tasks[n], to));
      assert log + TakenAll(tasks, to) == log + TakenAll(tasks[..n], to) + [Taken(tasks[n], to)];
      assert tasks[..n] + [tasks[n]] == tasks;
    }
  }

  lemma TakeFirstKeepsConserved(s: State, to: Receiver)
    requires Conserved(s) && s.queue != []
    ensures Conserved(TakeFirst(s, to))
  {
    TasksSnoc(s.taken, Taken(s.queue[0], to));
    assert [s.queue[0]] + s.queue[1..] == s.queue;
  }

  lemma TurnKeepsConserved(s: State, t: ThreadId)
    requires Conserved(s)
    ensures Conserved(Turn(s, t))
  {
    if s.queue != [] && !s.stopped {
      TakeFirstKeepsConserved(s, Popper(t));
    }
  }

  lemma NextKeepsConserved(s: State, step: Step)
    requires Conserved(s)
    ensures Conserved(Next(s, step))
  {
    match step {
      case Push(task, woken) =>
        assert Tasks(s.taken) + (s.queue + [task]) == Tasks(s.taken) + s.queue + [task];
      case Enter(t, limited) =>
        TurnKeepsConserved(s.(timed := if limited then s.timed + {t} else s.timed - {t}), t);
      case Resume(t) =>
        TurnKeepsConserved(s.(signalled := s.signalled - {t}), t);
      case TryPop(t) =>
        if s.queue != [] {
          TakeFirstKeepsConserved(s, TryPopper(t));
        }
      case PopAll(t) =>
        TasksOfTakenAll(s.taken, s.queue, Drainer(t));
      case Reset =>
        TasksOfTakenAll(s.taken, s.queue, Discarded);
      case _ =>
    }
  }

  lemma NextKeepsServed(s: State, step: Step)
    requires Served(s)
    ensures Served(Next(s, step))
  {
    match step {
      case Push(task, woken) =>
        if LegalNotify(s, woken) {
          assert |s.signalled + woken| == |s.signalled| + |woken|;
        }
      case SpuriousWakeup(t) =>
        if t in s.sleeping {
          assert |s.signalled + {t}| == |s.signalled| + 1;
        }
      case _ =>
    }
  }

  lemma {:induction false} RunKeepsInv(s: State, steps: seq<Step>)
    requires Inv(s)
    ensures Inv(Run(s, steps))
    decreases |steps|
  {
    if steps != [] {
      NextKeepsConserved(s, steps[0]);
      NextKeepsServed(s, steps[0]);
      RunKeepsInv(Next(s, steps[0]), steps[1..]);
    }
  }

  // ----- Theorems ---------------------------------------------------------------------------------

  /** Over every interleaving: the tasks taken off, in the order they were taken, followed by those
      still queued are the tasks pushed. */
  lemma TaskConservation(steps: seq<Step>)
    ensures var s := Run(INITIAL, steps);
            Tasks(s.taken) + s.queue == s.pushed
  {
    RunKeepsInv(INITIAL, steps);
  }

  /** No lost wakeup: while the queue is not stopped, a popper sleeps unsignalled only if there are at
      least as many awake poppers as queued tasks; in particular tasks and sleepers never coexist
      without an awake popper. */
  lemma NoStuckSleeper(steps: seq<Step>)
    ensures var s := Run(INITIAL, steps);
            s.sleeping != {} ==> !s.stopped && |s.queue| <= |s.signalled| && (s.queue != [] ==> s.signalled != {})
  {
    RunKeepsInv(INITIAL, steps);
  }

  // ----- The logs read off the steps --------------------------------------------------------------

  /** The task that a step puts into the queue: every `push` does, with whatever sleepers its notify
      can wake. */
  function PushedBy(s: State, step: Step): seq<Task> {
    if step.Push? && step.woken <= s.sleeping && (s.sleeping == {} || step.woken != {}) then [step.task] else []
  }

  /** What a step takes off the queue, and for whom. A popper takes the first task when it has the mutex
      and the queue is not stopped, a `tryPop` even then; `popAll` and `reset` take everything. */
  function TakenBy(s: State, step: Step): seq<Taken> {
    match step
    case Enter(t, _) =>
      if t !in s.sleeping && t !in s.signalled && !s.stopped && s.queue != [] then [Taken(s.queue[0], Popper(t))]
      else []
    case Resume(t) => if t in s.signalled && !s.stopped && s.queue != [] then [Taken(s.queue[0], Popper(t))] else []
    case TryPop(t) => if s.queue != [] then [Taken(s.queue[0], TryPopper(t))] else []
    case PopAll(t) => Everything(s.queue, Drainer(t))
    case Reset => Everything(s.queue, Discarded)
    case _ => []
  }

  function Everything(tasks: seq<Task>, to: Receiver): seq<Taken> {
    seq(|tasks|, i requires 0 <= i < |tasks| => Taken(tasks[i], to))
  }

  function PushedIn(s: State, steps: seq<Step>): seq<Task>
    decreases |steps|
  {
    if steps == [] then [] else PushedBy(s, steps[0]) + PushedIn(Next(s, steps[0]), steps[1..])
  }

  function TakenIn(s: State, steps: seq<Step>): seq<Taken>
    decreases |steps|
  {
    if steps == [] then [] else TakenBy(s, steps[0]) + TakenIn(Next(s, steps[0]), steps[1..])
  }

  lemma {:induction false} TakenAllIsEverything(tasks: seq<Task>, to: Receiver)
    ensures TakenAll(tasks, to) == Everything(tasks, to)
    decreases |tasks|
  {
    if tasks != [] {
      TakenAllIsEverything(tasks[..|tasks| - 1], to);
    }
  }

  lemma LogsStep(s: State, step: Step)
    ensures Next(s, step).pushed == s.pushed + PushedBy(s, step)
    ensures Next(s, step).taken == s.taken + TakenBy(s, step)
  {
    assert s.pushed + [] == s.pushed && s.taken + [] == s.taken;
    match step {
      case PopAll(t) => TakenAllIsEverything(s.queue, Drainer(t));
      case Reset => TakenAllIsEverything(s.queue, Discarded);
      case _ =>
    }
  }

  /** No other step changes the logs. */
  lemma {:induction false} RunLogs(s: State, steps: seq<Step>)
    ensures Run(s, steps).pushed == s.pushed + PushedIn(s, steps)
    ensures Run(s, steps).taken == s.taken + TakenIn(s, steps)
    decreases |steps|
  {
    if steps == [] {
      assert s.pushed + [] == s.pushed && s.taken + [] == s.taken;
    } else {
      hide Next, PushedBy, TakenBy;
      var n := Next(s, steps[0]);
      LogsStep(s, steps[0]);
      RunLogs(n, steps[1..]);
      Regroup(s.pushed, PushedBy(s, steps[0]), PushedIn(n, steps[1..]));
      Regroup(s.taken, TakenBy(s, steps[0]), TakenIn(n, steps[1..]));
    }
  }

  lemma Regroup<T>(a: seq<T>, b: seq<T>, c: seq<T>)
    ensures a + b + c == a + (b + c)
  {
  }

  /** Over every interleaving, with both logs read off the steps: the tasks that were taken, followed by
      those still queued, are the tasks that were pushed, each once and in order. */
  lemma EveryTaskAccounted(steps: seq<Step>)
    ensures Tasks(TakenIn(INITIAL, steps)) + Run(INITIAL, steps).queue == PushedIn(INITIAL, steps)
  {
    TaskConservation(steps);
    RunLogs(INITIAL, steps);
    assert [] + PushedIn(INITIAL, steps) == PushedIn(INITIAL, steps);
    assert [] + TakenIn(INITIAL, steps) == TakenIn(INITIAL, steps);
  }

  predicate Resets(steps: seq<Step>) {
    exists i :: 0 <= i < |steps| && steps[i].Reset?
  }

  /** The tasks that went out through `pop` and `popFor`. */
  function Received(log: seq<Taken>): seq<Taken> {
    if log == [] then []
    else if log[|log| - 1].to.Popper? then Received(log[..|log| - 1]) + [log[|log| - 1]]
    else Received(log[..|log| - 1])
  }

  lemma {:induction false} ReceivedNothing(log: seq<Taken>, tasks: seq<Task>, to: Receiver)
    requires !to.Popper?
    ensures Received(log + TakenAll(tasks, to)) == Received(log)
    decreases |tasks|
  {
    if tasks == [] {
      assert log + [] == log;
    } else {
      var n := |tasks| - 1;
      var before := log + TakenAll(tasks[..n], to);
      ReceivedNothing(log, tasks[..n], to);
      assert log + TakenAll(tasks, to) == before + [Taken(tasks[n], to)];
      assert (before + [Taken(tasks[n], to)])[..|before|] == before;
    }
  }

  lemma StoppedStep(s: State, step: Step)
    requires Served(s) && s.stopped && !step.Reset?
    ensures var n := Next(s, step);
            n.stopped && n.sleeping == {} && Received(n.taken) == Received(s.taken)
  {
    match step {
      case TryPop(t) =>
        if s.queue != [] {
          assert (s.taken + [Taken(s.queue[0], TryPopper(t))])[..|s.taken|] == s.taken;
        }
      case PopAll(t) =>
        ReceivedNothing(s.taken, s.queue, Drainer(t));
      case _ =>
    }
  }

  /** Once stopped, and until a reset, nobody sleeps and no `pop` or `popFor` receives a task: those
      left can only be taken by `tryPop` and `popAll`. */
  lemma {:induction false} StoppedStaysStopped(s: State, steps: seq<Step>)
    requires Inv(s) && s.stopped && !Resets(steps)
    ensures var n := Run(s, steps);
            n.stopped && n.sleeping == {} && Received(n.taken) == Received(s.taken)
    decreases |steps|
  {
    if steps != [] {
      assert !steps[0].Reset?;
      StoppedStep(s, steps[0]);
      NextKeepsConserved(s, steps[0]);
      NextKeepsServed(s, steps[0]);
      forall i | 0 <= i < |steps[1..]|
        ensures !steps[1..][i].Reset?
      {
        assert steps[1..][i] == steps[i + 1];
      }
      StoppedStaysStopped(Next(s, steps[0]), steps[1..]);
    }
  }

  /** Whatever happened before and whoever waits, after `stop` everyone is on the way out. */
  lemma StopWakesAll(before: seq<Step>, after: seq<Step>)
    requires !Resets(after)
    ensures var s := Next(Run(INITIAL, before), Stop);
            var n := Run(s, after);
            n.sleeping == {} && Received(n.taken) == Received(s.taken)
  {
    var s := Run(INITIAL, before);
    RunKeepsInv(INITIAL, before);
    NextKeepsConserved(s, Stop);
    NextKeepsServed(s, Stop);
    StoppedStaysStopped(Next(s, Stop), after);
  }

  /** Each of `ts` gets its turn. */
  function Turns(s: State, ts: seq<ThreadId>): State
    decreases |ts|
  {
    if ts == [] then s else Turns(Next(s, Resume(ts[0])), ts[1..])
  }

  lemma ResumeOne(s: State, t: ThreadId)
    requires !s.stopped && t in s.signalled
    ensures var n := Next(s, Resume(t));
            && !n.stopped && n.signalled == s.signalled - {t}
            && |n.queue| == if s.queue == [] then 0 else |s.queue| - 1
  {
  }

  /** Progress: once all woken poppers have had their turn, in any order, the queue has been emptied
      as far as there were poppers, and either no task is left or nobody sleeps. */
  lemma {:induction false} AwakePoppersServe(s: State, ts: seq<ThreadId>)
    requires Inv(s) && !s.stopped && Distinct(ts) && s.signalled == ElementsOf(ts)
    ensures var n := Turns(s, ts);
            && Inv(n) && n.signalled == {}
            && |n.queue| == (if |s.queue| <= |ts| then 0 else |s.queue| - |ts|)
            && (n.queue == [] || n.sleeping == {})
    decreases |ts|
  {
    if ts != [] {
      var n := Next(s, Resume(ts[0]));
      ResumeOne(s, ts[0]);
      NextKeepsConserved(s, Resume(ts[0]));
      NextKeepsServed(s, Resume(ts[0]));
      assert s.signalled - {ts[0]} == ElementsOf(ts[1..]);
      AwakePoppersServe(n, ts[1..]);
    }
  }

  // ----- The object --------------------------------------------------------------------------------

  /** What a turn of `pop`, `popFor` or `tryPop` comes to: the thread waits, leaves with nothing, or
      leaves with a task. */
  datatype Outcome = Waits | Nothing | Got(task: Task)

  class Queue {
    var tasks: seq<Task>
    var stopped: bool
    var sleeping: set<ThreadId>
    var signalled: set<ThreadId>
    ghost var timed: set<ThreadId>
    ghost var pushed: seq<Task>
    ghost var taken: seq<Taken>

    ghost function Abs(): State
      reads this
    {
      State(tasks, stopped, sleeping, signalled, timed, pushed, taken)
    }

    constructor ()
      ensures Abs() == INITIAL
    {
      tasks, stopped, sleeping, signalled := [], false, {}, {};
      timed, pushed, taken := {}, [], [];
    }

    method Push(task: Task, woken: set<ThreadId>)
      requires LegalNotify(Abs(), woken)
      modifies this
      ensures Abs() == Next(old(Abs()), Step.Push(task, woken))
      ensures tasks == old(tasks) + [task] && stopped == old(stopped)
      ensures sleeping == old(sleeping) - woken && signalled == old(signalled) + woken
    {
      tasks := tasks + [task];
      pushed := pushed + [task];
      sleeping, signalled := sleeping - woken, signalled + woken;
    }

    /** What follows the lock in `pop` and `popFor`, on entry and after each wait. */
    method WaitLoopTurn(t: ThreadId) returns (o: Outcome)
      modifies this
      ensures Abs() == Turn(old(Abs()), t)
      ensures o == if old(stopped) then Nothing else if old(tasks) == [] then Waits else Got(old(tasks)[0])
      ensures tasks == if o.Got? then old(tasks)[1..] else old(tasks)
      ensures taken == old(taken) + if o.Got? then [Taken(old(tasks)[0], Popper(t))] else []
      ensures sleeping == old(sleeping) + if o.Waits? then {t} else {}
      ensures stopped == old(stopped) && signalled == old(signalled) && pushed == old(pushed)
    {
      if tasks == [] && !stopped {
        sleeping := sleeping + {t};
        return Waits;
      }
      timed := timed - {t};
      if stopped {
        return Nothing;
      }
      o := Got(tasks[0]);
      taken := taken + [Taken(tasks[0], Popper(t))];
      tasks := tasks[1..];
    }

    method Enter(t: ThreadId, limited: bool) returns (o: Outcome)
      requires !Inside(Abs(), t)
      modifies this
      ensures Abs() == Next(old(Abs()), Step.Enter(t, limited))
      ensures o == if old(stopped) then Nothing else if old(tasks) == [] then Waits else Got(old(tasks)[0])
      ensures tasks == if o.Got? then old(tasks)[1..] else old(tasks)
      ensures t in sleeping <==> o.Waits?
    {
      timed := if limited then timed + {t} else timed - {t};
      o := WaitLoopTurn(t);
    }

    method Resume(t: ThreadId) returns (o: Outcome)
      requires t in signalled
      modifies this
      ensures Abs() == Next(old(Abs()), Step.Resume(t))
      ensures o == if old(stopped) then Nothing else if old(tasks) == [] then Waits else Got(old(tasks)[0])
      ensures tasks == if o.Got? then old(tasks)[1..] else old(tasks)
      ensures sleeping == old(sleeping) + if o.Waits? then {t} else {}
      ensures signalled == old(signalled) - {t}
    {
      signalled := signalled - {t};
      o := WaitLoopTurn(t);
    }

    method TryPop(ghost t: ThreadId) returns (o: Outcome)
      modifies this
      ensures Abs() == Next(old(Abs()), Step.TryPop(t))
      ensures o == if old(tasks) == [] then Nothing else Got(old(tasks)[0])
      ensures tasks == if o.Got? then old(tasks)[1..] else []
    {
      if tasks == [] {
        return Nothing;
      }
      o := Got(tasks[0]);
      taken := taken + [Taken(tasks[0], TryPopper(t))];
      tasks := tasks[1..];
    }

    method PopAll(ghost t: ThreadId) returns (all: seq<Task>)
      modifies this
      ensures Abs() == Next(old(Abs()), Step.PopAll(t))
      ensures all == old(tasks) && tasks == []
    {
      all := tasks;
      taken := taken + TakenAll(tasks, Drainer(t));
      tasks := [];
    }

    method Stop()
      modifies this
      ensures Abs() == Next(old(Abs()), Step.Stop)
      ensures stopped && tasks == old(tasks)
      ensures sleeping == {} && signalled == old(signalled) + old(sleeping)
    {
      stopped := true;
      sleeping, signalled := {}, signalled + sleeping;
    }

    /** The pops of `reset`, one by one. */
    method Reset()
      modifies this
      ensures Abs() == Next(old(Abs()), Step.Reset)
      ensures !stopped && tasks == []
    {
      stopped := false;
      while tasks != []
        invariant tasks == old(tasks)[|old(tasks)| - |tasks|..] && |tasks| <= |old(tasks)|
        invariant !stopped && sleeping == old(sleeping) && signalled == old(signalled)
        invariant timed == old(timed) && pushed == old(pushed)
        invariant taken == old(taken) + TakenAll(old(tasks)[..|old(tasks)| - |tasks|], Discarded)
        decreases |tasks|
      {
        ghost var n := |old(tasks)| - |tasks|;
        assert old(tasks)[..n + 1][..n] == old(tasks)[..n];
        taken := taken + [Taken(tasks[0], Discarded)];
        tasks := tasks[1..];
      }
      assert old(tasks)[..|old(tasks)|] == old(tasks);
    }
  }
}
