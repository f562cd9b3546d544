/** The MySQL connection pool: an idle queue, the list of all connections and a condition variable
    under one mutex. What a thread does while it holds the mutex is one step; whether a connect or a
    ping succeeds, and whom a notify wakes, is part of the step. Connections are numbered in the
    order of their creation, and a borrower gives back only what it holds.
  */
module ConnectionPool {
  import opened Elements

  type Conn = int
  type ThreadId = int

  datatype Config = Config(minConnections: nat, maxConnections: nat)

  /** `lent` is held by borrowers, `dropped` was given up after a failed reconnect. `waiting` threads
      are blocked in `getConnection`; `signalled` ones have been woken and have yet to get the mutex
      back. `next` is the number of the next connection. */
  datatype State = State(
    running: bool,
    idle: seq<Conn>,
    all: seq<Conn>,
    lent: set<Conn>,
    dropped: set<Conn>,
    waiting: set<ThreadId>,
    signalled: set<ThreadId>,
    next: int)

  const INITIAL := State(false, [], [], {}, {}, {}, {}, 0)

  /** What the database does during a turn of `getConnection`. */
  datatype Answers = Answers(connects: bool, pings: bool, reconnects: bool)

  /** In `Init`, `connects` is how many connects succeed before the first that fails. */
  datatype Step =
    | Init(connects: nat)
    | Get(t: ThreadId, answers: Answers)
    | Resume(t: ThreadId, answers: Answers)
    | Timeout(t: ThreadId)
    | SpuriousWakeup(t: ThreadId)
    | Return(c: Conn, woken: set<ThreadId>)
    | Close

  /** `count` new connections, numbered from `next`. */
  function Created(next: int, count: nat): (r: seq<Conn>)
    ensures |r| == count
  {
    if count == 0 then [] else Created(next, count - 1) + [next + count - 1]
  }

  function Opened(config: Config, connects: nat): nat {
    if connects < config.minConnections then connects else config.minConnections
  }

  function InitNext(config: Config, s: State, connects: nat): State {
    if s.running then s
    else
      var n := Opened(config, connects);
      s.(running := connects >= config.minConnections,
         idle := s.idle + Created(s.next, n),
         all := s.all + Created(s.next, n),
         next := s.next + n)
  }

  /** A turn of the wait loop, by a thread that is neither waiting nor signalled. */
  function Turn(config: Config, s: State, t: ThreadId, a: Answers): State {
    if s.idle == [] then
      if |s.all| < config.maxConnections && a.connects then
        s.(all := s.all + [s.next], lent := s.lent + {s.next}, next := s.next + 1)
      else
        s.(waiting := s.waiting + {t})
    else if a.pings || a.reconnects then
      s.(idle := s.idle[1..], lent := s.lent + {s.idle[0]})
    else
      s.(idle := s.idle[1..], dropped := s.dropped + {s.idle[0]})
  }

  /** What a turn means to its thread: it waits, leaves with nothing, or holds a connection. */
  datatype Lease = Waits | NoConnection | Leased(c: Conn)

  function Granted(config: Config, s: State, a: Answers): Lease {
    if s.idle == [] then
      if |s.all| < config.maxConnections && a.connects then Leased(s.next) else Waits
    else if a.pings || a.reconnects then Leased(s.idle[0])
    else NoConnection
  }

  predicate LegalNotify(s: State, woken: set<ThreadId>) {
    woken <= s.waiting && (s.waiting != {} ==> woken != {})
  }

  function ReturnNext(s: State, c: Conn, woken: set<ThreadId>): State {
    if c !in s.lent then s
    else if !s.running then s.(lent := s.lent - {c})
    else if !LegalNotify(s, woken) then s
    else s.(lent := s.lent - {c}, idle := s.idle + [c],
            waiting := s.waiting - woken, signalled := s.signalled + woken)
  }

  function Next(config: Config, s: State, step: Step): State {
    match step
    case Init(connects) => InitNext(config, s, connects)
    case Get(t, a) =>
      if !s.running || t in s.waiting || t in s.signalled then s else Turn(config, s, t, a)
    case Resume(t, a) =>
      if t !in s.signalled then s else Turn(config, s.(signalled := s.signalled - {t}), t, a)
    case Timeout(t) =>
      if t !in s.waiting then s else s.(waiting := s.waiting - {t})
    case SpuriousWakeup(t) =>
      if t !in s.waiting then s else s.(waiting := s.waiting - {t}, signalled := s.signalled + {t})
    case Return(c, woken) => ReturnNext(s, c, woken)
    case Close =>
      s.(running := false, idle := [], all := [], waiting := {}, signalled := s.signalled + s.waiting)
  }

  function Run(config: Config, s: State, steps: seq<Step>): State
    decreases |steps|
  {
    if steps == [] then s else Run(config, Next(config, s, steps[0]), steps[1..])
  }

  // ----- Exclusivity ------------------------------------------------------------------------------

  /** A connection is in the idle queue at most once, and not also with a borrower or dropped. */
  predicate Exclusive(s: State) {
    && Distinct(s.idle)
    && ElementsOf(s.idle) !! s.lent
    && ElementsOf(s.idle) !! s.dropped
    && s.lent !! s.dropped
  }

  predicate Below(q: set<Conn>, next: int) {
    forall c :: c in q ==> c < next
  }

  predicate Numbered(s: State) {
    && Below(ElementsOf(s.idle), s.next)
    && Below(ElementsOf(s.all), s.next)
    && Below(s.lent, s.next)
    && Below(s.dropped, s.next)
  }

  /** The list of all connections is accounted for. */
  predicate Accounted(s: State) {
    Distinct(s.all) && ElementsOf(s.all) == ElementsOf(s.idle) + s.lent + s.dropped
  }

  predicate Safe(s: State) {
    Exclusive(s) && Numbered(s)
  }

  function WithIdle(s: State, n: nat): State {
    s.(idle := s.idle + Created(s.next, n), all := s.all + Created(s.next, n), next := s.next + n)
  }

  /** One more connection in the loop of `init`. */
  lemma OneMore(s: State)
    requires Safe(s)
    ensures var r := s.(idle := s.idle + [s.next], all := s.all + [s.next], next := s.next + 1);
            Safe(r) && (Accounted(s) ==> Accounted(r))
  {
    ElementsSnoc(s.idle, s.next);
    ElementsSnoc(s.all, s.next);
  }

  lemma {:induction false} WithIdleSafe(s: State, n: nat)
    requires Safe(s)
    ensures Safe(WithIdle(s, n))
    ensures Accounted(s) ==> Accounted(WithIdle(s, n))
  {
    if n == 0 {
      assert s.idle + [] == s.idle && s.all + [] == s.all;
    } else {
      var p := WithIdle(s, n - 1);
      WithIdleSafe(s, n - 1);
      OneMore(p);
      assert p.idle + [p.next] == WithIdle(s, n).idle;
      assert p.all + [p.next] == WithIdle(s, n).all;
    }
  }

  lemma TurnSafe(config: Config, s: State, t: ThreadId, a: Answers)
    requires Safe(s)
    ensures Safe(Turn(config, s, t, a))
    ensures Accounted(s) ==> Accounted(Turn(config, s, t, a))
  {
    ElementsSnoc(s.all, s.next);
  }

  lemma ReturnSafe(s: State, c: Conn, woken: set<ThreadId>)
    requires Safe(s)
    ensures Safe(ReturnNext(s, c, woken))
    ensures s.running && Accounted(s) ==> Accounted(ReturnNext(s, c, woken))
  {
    ElementsSnoc(s.idle, c);
  }

  lemma InitSafe(config: Config, s: State, connects: nat)
    requires Safe(s)
    ensures Safe(InitNext(config, s, connects))
    ensures Accounted(s) ==> Accounted(InitNext(config, s, connects))
  {
    WithIdleSafe(s, Opened(config, connects));
  }

  lemma NextSafe(config: Config, s: State, step: Step)
    requires Safe(s)
    ensures Safe(Next(config, s, step))
  {
    match step {
      case Init(connects) => InitSafe(config, s, connects);
      case Get(t, a) => TurnSafe(config, s, t, a);
      case Resume(t, a) => TurnSafe(config, s.(signalled := s.signalled - {t}), t, a);
      case Return(c, woken) => ReturnSafe(s, c, woken);
      case _ =>
    }
  }

  lemma {:induction false} RunSafe(config: Config, s: State, steps: seq<Step>)
    requires Safe(s)
    ensures Safe(Run(config, s, steps))
    decreases |steps|
  {
    if steps != [] {
      NextSafe(config, s, steps[0]);
      RunSafe(config, Next(config, s, steps[0]), steps[1..]);
    }
  }

  lemma GrantedIsFree(config: Config, s: State, a: Answers)
    requires Safe(s) && Granted(config, s, a).Leased?
    ensures Granted(config, s, a).c !in s.lent
  {
  }

  /** Over every run, with failed inits, closes and re-inits: no connection is lent while it is idle,
      queued twice, or handed to a borrower while another holds it. */
  lemma LeaseExclusivity(config: Config, steps: seq<Step>, a: Answers)
    ensures var s := Run(config, INITIAL, steps);
            Exclusive(s) && (Granted(config, s, a).Leased? ==> Granted(config, s, a).c !in s.lent)
  {
    RunSafe(config, INITIAL, steps);
    var s := Run(config, INITIAL, steps);
    if Granted(config, s, a).Leased? {
      GrantedIsFree(config, s, a);
    }
  }

  // ----- Accounting -------------------------------------------------------------------------------

  /** Exactly which steps leave the list unaccounted for: a close while connections are lent or were
      dropped, which empties the list but not the borrowers' hands, and a return to a pool that is
      not running, which loses the connection. */
  lemma AccountedIff(config: Config, s: State, step: Step)
    requires Safe(s) && Accounted(s)
    ensures Accounted(Next(config, s, step))
       <==> !(step.Close? && s.lent + s.dropped != {}) && !(step.Return? && step.c in s.lent && !s.running)
  {
    match step {
      case Init(connects) => InitSafe(config, s, connects);
      case Get(t, a) => TurnSafe(config, s, t, a);
      case Resume(t, a) => TurnSafe(config, s.(signalled := s.signalled - {t}), t, a);
      case Return(c, woken) =>
        ReturnSafe(s, c, woken);
        if c in s.lent && !s.running {
          assert c in ElementsOf(s.all) && c !in ElementsOf(s.idle) + (s.lent - {c}) + s.dropped;
        }
      case Close =>
        assert ElementsOf([]) == {};
      case _ =>
    }
  }

  /** A connection that was lent over a close: it is not in the list any more. */
  predicate Stray(s: State, c: Conn) {
    c !in ElementsOf(s.all)
  }

  predicate IdleListed(s: State) {
    ElementsOf(s.idle) <= ElementsOf(s.all)
  }

  lemma WithIdleListed(s: State, n: nat)
    requires IdleListed(s)
    ensures IdleListed(WithIdle(s, n))
  {
    ElementsAppend(s.idle, Created(s.next, n));
    ElementsAppend(s.all, Created(s.next, n));
  }

  /** Exactly how an idle connection comes to be missing from the list, and so from the count of
      connections: it was lent over a close and is returned after the next `init`. */
  lemma IdleListedIff(config: Config, s: State, step: Step)
    requires IdleListed(s)
    ensures IdleListed(Next(config, s, step))
       <==> !(step.Return? && step.c in s.lent && s.running && LegalNotify(s, step.woken) && Stray(s, step.c))
  {
    match step {
      case Init(connects) => WithIdleListed(s, Opened(config, connects));
      case Get(t, a) => ElementsSnoc(s.all, s.next);
      case Resume(t, a) => ElementsSnoc(s.all, s.next);
      case Return(c, woken) => ElementsSnoc(s.idle, c);
      case _ =>
    }
  }

  /** And only a close makes a stray. */
  lemma StraysFromClose(config: Config, s: State, step: Step, c: Conn)
    requires Stray(Next(config, s, step), c) && !Stray(s, c)
    ensures step.Close?
  {
    match step {
      case Init(connects) => ElementsAppend(s.all, Created(s.next, Opened(config, connects)));
      case Get(t, a) => ElementsSnoc(s.all, s.next);
      case Resume(t, a) => ElementsSnoc(s.all, s.next);
      case _ =>
    }
  }

  predicate Closes(steps: seq<Step>) {
    exists i :: 0 <= i < |steps| && steps[i].Close?
  }

  lemma ClosesLater(steps: seq<Step>)
    requires steps != [] && !Closes(steps)
    ensures !steps[0].Close? && !Closes(steps[1..])
  {
    forall i | 0 <= i < |steps[1..]|
      ensures !steps[1..][i].Close?
    {
      assert steps[1..][i] == steps[i + 1];
    }
  }

  /** Before the first successful `init` nothing has been handed out and nobody waits. */
  predicate Open(s: State) {
    Accounted(s) && (!s.running ==> s.lent == {} && s.waiting == {} && s.signalled == {})
  }

  lemma NextKeepsOpen(config: Config, s: State, step: Step)
    requires Safe(s) && Open(s) && !step.Close?
    ensures Open(Next(config, s, step))
  {
    AccountedIff(config, s, step);
  }

  lemma {:induction false} RunKeepsOpen(config: Config, s: State, steps: seq<Step>)
    requires Safe(s) && Open(s) && !Closes(steps)
    ensures Safe(Run(config, s, steps)) && Open(Run(config, s, steps))
    decreases |steps|
  {
    if steps != [] {
      ClosesLater(steps);
      NextSafe(config, s, steps[0]);
      NextKeepsOpen(config, s, steps[0]);
      RunKeepsOpen(config, Next(config, s, steps[0]), steps[1..]);
    }
  }

  /** Until it is closed, every connection the pool lists is idle, lent or dropped, and only one of
      these; the three account for the whole list. This holds across failed inits too. */
  lemma EveryConnectionAccounted(config: Config, steps: seq<Step>)
    requires !Closes(steps)
    ensures var s := Run(config, INITIAL, steps);
            && Exclusive(s)
            && ElementsOf(s.all) == ElementsOf(s.idle) + s.lent + s.dropped
            && |s.all| == |s.idle| + |s.lent| + |s.dropped|
  {
    RunKeepsOpen(config, INITIAL, steps);
    var s := Run(config, INITIAL, steps);
    ElementsCount(s.all);
    ElementsCount(s.idle);
    assert |ElementsOf(s.idle) + s.lent| == |ElementsOf(s.idle)| + |s.lent|;
    assert |ElementsOf(s.idle) + s.lent + s.dropped| == |ElementsOf(s.idle) + s.lent| + |s.dropped|;
  }

  // ----- Waiting borrowers ------------------------------------------------------------------------

  /** If anyone waits, the idle connections are all claimed by borrowers that are awake. */
  predicate Served(s: State) {
    s.waiting != {} ==> |s.idle| <= |s.signalled|
  }

  predicate Waiters(s: State) {
    s.waiting !! s.signalled && Served(s)
  }

  /** An `init` that fills the queue past the awake borrowers while others wait. They are there only
      after a close: a waiter that `close` wakes may wait again, and `init` notifies nobody. */
  predicate Strands(config: Config, s: State, step: Step) {
    step.Init? && !s.running && s.waiting != {} && |s.idle| + Opened(config, step.connects) > |s.signalled|
  }

  /** Exactly which steps leave a borrower asleep beside an idle connection that nobody awake will
      take. */
  lemma StrandsIff(config: Config, s: State, step: Step)
    requires Waiters(s)
    ensures Served(Next(config, s, step)) <==> !Strands(config, s, step)
    ensures Next(config, s, step).waiting !! Next(config, s, step).signalled
  {
    match step {
      case Return(c, woken) =>
        if LegalNotify(s, woken) {
          assert |s.signalled + woken| == |s.signalled| + |woken|;
        }
      case SpuriousWakeup(t) =>
        if t in s.waiting {
          assert |s.signalled + {t}| == |s.signalled| + 1;
        }
      case _ =>
    }
  }

  /** No step of the run strands a borrower. */
  predicate StrandsNobody(config: Config, s: State, steps: seq<Step>)
    decreases |steps|
  {
    steps == [] || (!Strands(config, s, steps[0]) && StrandsNobody(config, Next(config, s, steps[0]), steps[1..]))
  }

  lemma {:induction false} RunServes(config: Config, s: State, steps: seq<Step>)
    requires Waiters(s) && StrandsNobody(config, s, steps)
    ensures Waiters(Run(config, s, steps))
    decreases |steps|
  {
    if steps != [] {
      StrandsIff(config, s, steps[0]);
      RunServes(config, Next(config, s, steps[0]), steps[1..]);
    }
  }

  /** Over every run, with closes and re-inits, none of whose inits strands a borrower, a borrower
      sleeps only if the idle connections are all claimed by borrowers that are awake. */
  lemma NoStuckBorrower(config: Config, steps: seq<Step>)
    requires StrandsNobody(config, INITIAL, steps)
    ensures Served(Run(config, INITIAL, steps))
  {
    RunServes(config, INITIAL, steps);
  }

  lemma {:induction false} UnclosedStrandsNobody(config: Config, s: State, steps: seq<Step>)
    requires Safe(s) && Open(s) && !Closes(steps)
    ensures StrandsNobody(config, s, steps)
    decreases |steps|
  {
    if steps != [] {
      ClosesLater(steps);
      NextSafe(config, s, steps[0]);
      NextKeepsOpen(config, s, steps[0]);
      UnclosedStrandsNobody(config, Next(config, s, steps[0]), steps[1..]);
    }
  }

  /** In particular nobody is stranded before the first close. */
  lemma NoStuckBorrowerUntilClosed(config: Config, steps: seq<Step>)
    requires !Closes(steps)
    ensures Served(Run(config, INITIAL, steps))
  {
    UnclosedStrandsNobody(config, INITIAL, steps);
    NoStuckBorrower(config, steps);
  }

  /** A run in which one is: woken by a close, waiting again, and the next `init` fills the queue. */
  lemma InitCanStrandABorrower()
    ensures var config := Config(1, 1);
            var get, fails := Get(1, Answers(false, false, false)), Answers(false, false, false);
            var s := Run(config, INITIAL,
                         [Init(1), Get(0, Answers(true, true, true)), get, Close, Resume(1, fails), Init(1)]);
            s.running && s.waiting == {1} && s.signalled == {} && s.idle == [1]
  {
    var config := Config(1, 1);
    var fails := Answers(false, false, false);
    var s1 := Next(config, INITIAL, Init(1));
    assert Created(0, 1) == [0];
    var s2 := Next(config, s1, Get(0, Answers(true, true, true)));
    assert s2.idle == [] && s2.all == [0];
    var s3 := Next(config, s2, Get(1, fails));
    assert s3.waiting == {1};
    var s4 := Next(config, s3, Close);
    var s5 := Next(config, s4, Resume(1, fails));
    assert s5.waiting == {1} && s5.signalled == {};
    var s6 := Next(config, s5, Init(1));
    assert Created(1, 1) == [1] && s6.idle == [1];
    var steps := [Init(1), Get(0, Answers(true, true, true)), Get(1, fails), Close, Resume(1, fails), Init(1)];
    assert steps[1..] == [Get(0, Answers(true, true, true)), Get(1, fails), Close, Resume(1, fails), Init(1)];
    assert steps[1..][1..] == [Get(1, fails), Close, Resume(1, fails), Init(1)];
    assert steps[1..][1..][1..] == [Close, Resume(1, fails), Init(1)];
    assert steps[1..][1..][1..][1..] == [Resume(1, fails), Init(1)];
    assert steps[1..][1..][1..][1..][1..] == [Init(1)];
    assert steps[1..][1..][1..][1..][1..][1..] == [];
    assert Run(config, s6, []) == s6;
    assert Run(config, s5, [Init(1)]) == s6;
    assert Run(config, s4, [Resume(1, fails), Init(1)]) == s6;
    assert Run(config, s3, [Close, Resume(1, fails), Init(1)]) == s6;
    assert Run(config, s2, steps[1..][1..]) == s6;
    assert Run(config, s1, steps[1..]) == s6;
  }

  // ----- The number of connections ----------------------------------------------------------------

  function Limit(config: Config): nat {
    if config.minConnections < config.maxConnections then config.maxConnections else config.minConnections
  }

  /** Exactly which steps push the list over max(minConnections, maxConnections): an `init` of a pool
      whose list was left with more connections than there is room for besides the new ones. */
  lemma ExceedsIff(config: Config, s: State, step: Step)
    requires |s.all| <= Limit(config)
    ensures |Next(config, s, step).all| > Limit(config)
       <==> step.Init? && !s.running && |s.all| + Opened(config, step.connects) > Limit(config)
  {
  }

  /** Every `init` of the run that is not refused starts with room for its connections. */
  predicate RoomyInits(config: Config, s: State, steps: seq<Step>)
    decreases |steps|
  {
    steps == [] ||
    (&& (steps[0].Init? && !s.running ==> |s.all| + Opened(config, steps[0].connects) <= Limit(config))
     && RoomyInits(config, Next(config, s, steps[0]), steps[1..]))
  }

  /** So over any run, with closes and re-inits, the total stays within the limit if no `init` is
      short of room. */
  lemma {:induction false} TotalBound(config: Config, s: State, steps: seq<Step>)
    requires |s.all| <= Limit(config) && RoomyInits(config, s, steps)
    ensures |Run(config, s, steps).all| <= Limit(config)
    decreases |steps|
  {
    if steps != [] {
      ExceedsIff(config, s, steps[0]);
      TotalBound(config, Next(config, s, steps[0]), steps[1..]);
    }
  }

  /** How many connections the failed inits of a run have opened. */
  function LeftByFailedInits(steps: seq<Step>): nat {
    if steps == [] then 0
    else (if steps[0].Init? then steps[0].connects else 0) + LeftByFailedInits(steps[1..])
  }

  /** All inits fail, and the pool is not closed. */
  predicate NeverOpens(config: Config, steps: seq<Step>) {
    forall i :: 0 <= i < |steps| ==>
      !steps[i].Close? && (steps[i].Init? ==> steps[i].connects < config.minConnections)
  }

  predicate NotYetOpen(s: State) {
    !s.running && s.waiting == {} && s.signalled == {}
  }

  lemma FailedStep(config: Config, s: State, step: Step)
    requires NotYetOpen(s) && !step.Close? && (step.Init? ==> step.connects < config.minConnections)
    ensures var n := Next(config, s, step);
            NotYetOpen(n) && |n.all| == |s.all| + if step.Init? then step.connects else 0
  {
  }

  lemma {:induction false} FailedInitsAddUp(config: Config, s: State, steps: seq<Step>)
    requires NeverOpens(config, steps) && NotYetOpen(s)
    ensures var n := Run(config, s, steps);
            NotYetOpen(n) && |n.all| == |s.all| + LeftByFailedInits(steps)
    decreases |steps|
  {
    if steps != [] {
      assert !steps[0].Close? && (steps[0].Init? ==> steps[0].connects < config.minConnections);
      FailedStep(config, s, steps[0]);
      forall i | 0 <= i < |steps[1..]|
        ensures steps[1..][i] == steps[i + 1]
      {
      }
      FailedInitsAddUp(config, Next(config, s, steps[0]), steps[1..]);
    }
  }

  lemma {:induction false} RunningGrows(config: Config, s: State, steps: seq<Step>)
    requires s.running && !Closes(steps)
    ensures var n := Run(config, s, steps);
            |s.all| <= |n.all| && (|s.all| <= Limit(config) ==> |n.all| <= Limit(config))
    decreases |steps|
  {
    if steps != [] {
      ClosesLater(steps);
      RunningGrows(config, Next(config, s, steps[0]), steps[1..]);
    }
  }

  lemma {:induction false} RunAppend(config: Config, s: State, a: seq<Step>, b: seq<Step>)
    ensures Run(config, s, a + b) == Run(config, Run(config, s, a), b)
    decreases |a|
  {
    if a == [] {
      assert a + b == b;
    } else {
      assert (a + b)[1..] == a[1..] + b;
      RunAppend(config, Next(config, s, a[0]), a[1..], b);
    }
  }

  /** Over every run without a close, with any failed inits before the one that succeeds: the total is
      within max(minConnections, maxConnections) if and only if what the failed ones opened leaves
      room for the minimum. */
  lemma TotalBoundIff(config: Config, before: seq<Step>, connects: nat, after: seq<Step>)
    requires NeverOpens(config, before) && connects >= config.minConnections && !Closes(after)
    ensures |Run(config, INITIAL, before + [Init(connects)] + after).all| <= Limit(config)
       <==> LeftByFailedInits(before) + config.minConnections <= Limit(config)
  {
    RunAppend(config, INITIAL, before + [Init(connects)], after);
    RunAppend(config, INITIAL, before, [Init(connects)]);
    FailedInitsAddUp(config, INITIAL, before);
    var s := Run(config, INITIAL, before);
    var n := Next(config, s, Init(connects));
    assert [Init(connects)][1..] == [] && Run(config, s, [Init(connects)]) == n;
    assert |n.all| == |s.all| + config.minConnections;
    RunningGrows(config, n, after);
  }

  /** A connection that was dropped keeps its place in the list: with no connection idle or lent and
      no room for another, nobody gets one again until the pool is closed. */
  lemma {:induction false} ExhaustedForGood(config: Config, s: State, steps: seq<Step>)
    requires s.running && s.idle == [] && s.lent == {} && |s.all| >= config.maxConnections
    requires !Closes(steps)
    ensures var n := Run(config, s, steps);
            n.running && n.idle == [] && n.lent == {} && n.all == s.all
    decreases |steps|
  {
    if steps != [] {
      ClosesLater(steps);
      ExhaustedForGood(config, Next(config, s, steps[0]), steps[1..]);
    }
  }

  // ----- Who is served -----------------------------------------------------------------------------

  /** The connection that a turn of `getConnection` gives out: a new one if nobody is idle, there is room
      and the connect succeeds; else the first idle one, if it answers a ping or a reconnect succeeds. */
  function GivenOut(config: Config, s: State, a: Answers): set<Conn> {
    if s.idle == [] then
      if |s.all| < config.maxConnections && a.connects then {s.next} else {}
    else if a.pings then {s.idle[0]}
    else if a.reconnects then {s.idle[0]}
    else {}
  }

  /** The connections that a step gives out, and those it takes back. */
  function LeasedBy(config: Config, s: State, step: Step): set<Conn> {
    match step
    case Get(t, a) => if s.running && t !in s.waiting && t !in s.signalled then GivenOut(config, s, a) else {}
    case Resume(t, a) => if t in s.signalled then GivenOut(config, s, a) else {}
    case _ => {}
  }

  function ReturnedBy(s: State, step: Step): set<Conn> {
    match step
    case Return(c, woken) =>
      if !s.running || (woken <= s.waiting && (s.waiting == {} || woken != {})) then {c} else {}
    case _ => {}
  }

  /** What borrowers hold after a run: what they held before, with all that was given out and without
      what was given back. */
  function HeldAfter(config: Config, s: State, held: set<Conn>, steps: seq<Step>): set<Conn>
    decreases |steps|
  {
    if steps == [] then held
    else HeldAfter(config, Next(config, s, steps[0]),
                   held + LeasedBy(config, s, steps[0]) - ReturnedBy(s, steps[0]), steps[1..])
  }

  lemma LentStep(config: Config, s: State, step: Step)
    ensures Next(config, s, step).lent == s.lent + LeasedBy(config, s, step) - ReturnedBy(s, step)
  {
  }

  /** Every lease that the steps of a run call for is given, and no other. */
  lemma {:induction false} LentAreTheLeases(config: Config, s: State, steps: seq<Step>)
    ensures Run(config, s, steps).lent == HeldAfter(config, s, s.lent, steps)
    decreases |steps|
  {
    if steps != [] {
      hide Next, LeasedBy, ReturnedBy;
      LentStep(config, s, steps[0]);
      LentAreTheLeases(config, Next(config, s, steps[0]), steps[1..]);
    }
  }

  /** A borrower who finds no connection idle is put to sleep exactly if there is no room for a new one
      or the connect fails; one who finds one idle never waits, and a connection is dropped exactly if
      both the ping and the reconnect fail. */
  lemma ServedIff(config: Config, s: State, t: ThreadId, a: Answers)
    requires s.running && t !in s.waiting && t !in s.signalled
    ensures var s' := Next(config, s, Get(t, a));
            && (t in s'.waiting <==> s.idle == [] && (|s.all| >= config.maxConnections || !a.connects))
            && (s'.dropped == s.dropped + (if s.idle != [] && !a.pings && !a.reconnects then {s.idle[0]} else {}))
            && (s'.idle == if s.idle == [] then [] else s.idle[1..])
            && (s'.all == if s.idle == [] && t !in s'.waiting then s.all + [s.next] else s.all)
            && s'.next == s.next + |s'.all| - |s.all|
  {
  }

  // ----- The object --------------------------------------------------------------------------------

  class Pool {
    const config: Config
    var running: bool
    var pool: seq<Conn>
    var allConnections: seq<Conn>
    var waiting: set<ThreadId>
    var signalled: set<ThreadId>
    var created: int
    ghost var lent: set<Conn>
    ghost var dropped: set<Conn>

    ghost function Abs(): State
      reads this
    {
      State(running, pool, allConnections, lent, dropped, waiting, signalled, created)
    }

    constructor (config: Config)
      ensures Abs() == INITIAL && this.config == config
    {
      this.config := config;
      running, pool, allConnections, waiting, signalled, created := false, [], [], {}, {}, 0;
      lent, dropped := {}, {};
    }

    method Init(connects: nat) returns (ok: bool)
      modifies this
      ensures Abs() == Next(config, old(Abs()), Step.Init(connects))
      ensures ok == running && ok == (old(running) || connects >= config.minConnections)
      ensures var n := if old(running) then 0 else Opened(config, connects);
              && |pool| == |old(pool)| + n && old(pool) <= pool
              && (forall k :: |old(pool)| <= k < |pool| ==> pool[k] == old(created) + k - |old(pool)|)
              && allConnections == old(allConnections) + pool[|old(pool)|..]
              && created == old(created) + n && lent == old(lent)
    {
      if running {
        return true;
      }
      var i := 0;
      while i < config.minConnections
        invariant i <= Opened(config, connects)
        invariant Abs() == WithIdle(old(Abs()), i)
        invariant |pool| == |old(pool)| + i && old(pool) <= pool
        invariant forall k :: |old(pool)| <= k < |pool| ==> pool[k] == old(created) + k - |old(pool)|
      {
        if i >= connects {
          return false;
        }
        pool := pool + [created];
        allConnections := allConnections + [created];
        created := created + 1;
        i := i + 1;
      }
      running := true;
      ok := true;
    }

    /** A turn of the wait loop of `getConnection` and what follows it. */
    method GetTurn(t: ThreadId, a: Answers) returns (r: Lease)
      modifies this
      ensures Abs() == Turn(config, old(Abs()), t, a)
      ensures r == Granted(config, old(Abs()), a)
      ensures r == (if old(pool) == [] then
                      if |old(allConnections)| < config.maxConnections && a.connects then Leased(old(created))
                      else Waits
                    else if a.pings || a.reconnects then Leased(old(pool)[0]) else NoConnection)
      ensures lent == old(lent) + if r.Leased? then {r.c} else {}
      ensures pool == if old(pool) == [] then [] else old(pool)[1..]
      ensures allConnections == old(allConnections) + if r.Leased? && old(pool) == [] then [r.c] else []
      ensures waiting == old(waiting) + if r.Waits? then {t} else {}
      ensures dropped == old(dropped) + if r.NoConnection? then {old(pool)[0]} else {}
    {
      if pool == [] {
        if |allConnections| < config.maxConnections {
          if a.connects {
            r := Leased(created);
            allConnections := allConnections + [created];
            lent := lent + {created};
            created := created + 1;
            return;
          }
        }
        waiting := waiting + {t};
        return Waits;
      }
      var conn := pool[0];
      pool := pool[1..];
      if !a.pings {
        if !a.reconnects {
          dropped := dropped + {conn};
          return NoConnection;
        }
      }
      lent := lent + {conn};
      r := Leased(conn);
    }

    /** A lease is of a connection nobody else holds. */
    method Get(t: ThreadId, a: Answers) returns (r: Lease)
      requires Safe(Abs()) && t !in waiting && t !in signalled
      modifies this
      ensures Abs() == Next(config, old(Abs()), Step.Get(t, a)) && Safe(Abs())
      ensures r == (if !old(running) then NoConnection
                    else if old(pool) == [] then
                      if |old(allConnections)| < config.maxConnections && a.connects then Leased(old(created))
                      else Waits
                    else if a.pings || a.reconnects then Leased(old(pool)[0]) else NoConnection)
      ensures r.Leased? ==> r.c !in old(lent) && lent == old(lent) + {r.c}
    {
      if !running {
        return NoConnection;
      }
      TurnSafe(config, Abs(), t, a);
      if Granted(config, Abs(), a).Leased? {
        GrantedIsFree(config, Abs(), a);
      }
      r := GetTurn(t, a);
    }

    method Resume(t: ThreadId, a: Answers) returns (r: Lease)
      requires Safe(Abs()) && t in signalled
      modifies this
      ensures Abs() == Next(config, old(Abs()), Step.Resume(t, a)) && Safe(Abs())
      ensures r == (if old(pool) == [] then
                      if |old(allConnections)| < config.maxConnections && a.connects then Leased(old(created))
                      else Waits
                    else if a.pings || a.reconnects then Leased(old(pool)[0]) else NoConnection)
      ensures r.Leased? ==> r.c !in old(lent) && lent == old(lent) + {r.c}
    {
      signalled := signalled - {t};
      TurnSafe(config, Abs(), t, a);
      if Granted(config, Abs(), a).Leased? {
        GrantedIsFree(config, Abs(), a);
      }
      r := GetTurn(t, a);
    }

    method Return(c: Conn, woken: set<ThreadId>)
      requires c in lent && LegalNotify(Abs(), woken)
      modifies this
      ensures Abs() == Next(config, old(Abs()), Step.Return(c, woken))
      ensures lent == old(lent) - {c} && allConnections == old(allConnections)
      ensures pool == old(pool) + if running then [c] else []
      ensures running ==> waiting == old(waiting) - woken && signalled == old(signalled) + woken
    {
      lent := lent - {c};
      if running {
        pool := pool + [c];
        waiting, signalled := waiting - woken, signalled + woken;
      }
    }

    method Close()
      modifies this
      ensures Abs() == Next(config, old(Abs()), Step.Close)
      ensures !running && pool == [] && allConnections == [] && lent == old(lent)
      ensures waiting == {} && signalled == old(signalled) + old(waiting)
    {
      running := false;
      waiting, signalled := {}, signalled + waiting;
      while pool != []
        invariant Abs() == old(Abs()).(running := false, waiting := {}, idle := pool,
                                       signalled := old(signalled) + old(waiting))
      {
        pool := pool[1..];
      }
      allConnections := [];
    }
  }
}
