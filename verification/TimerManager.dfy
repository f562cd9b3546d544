/** The timer manager: an ordered set of timer pointers, the set of active ids, and timers that
    callbacks may cancel while a batch of expired ones is being run.

    The heap is explicit. An address is free again as soon as its timer is deleted, and the
    allocator may return any free address, so a stale id can name the address of a newer timer.
    Reading or freeing an address that holds no timer sets `fault`.
  */
module TimerManager {

  type Addr = int

  /** `interval` is positive exactly for repeating timers; `sequence` is unique in the process. */
  datatype Timer = Timer(callback: nat, expiration: int, interval: int, sequence: int) {
    predicate Repeat() { interval > 0 }

    function Restart(now: int): Timer {
      this.(expiration := if Repeat() then now + interval else 0)
    }
  }

  /** What `TimerId` holds: a pointer and the sequence number it was issued with. */
  type TimerId = (Addr, int)

  /** The comparator of the ordered set. */
  predicate Less(x: Timer, y: Timer) {
    if x.expiration != y.expiration then x.expiration < y.expiration else x.sequence < y.sequence
  }

  const JUNK := Timer(0, 0, 0, 0)

  function Get(heap: map<Addr, Timer>, a: Addr): Timer {
    if a in heap then heap[a] else JUNK
  }

  /** `timers` is the ordered set in iteration order, `active` the set of (pointer, sequence). */
  datatype Store = Store(heap: map<Addr, Timer>, timers: seq<Addr>, active: set<TimerId>, fault: bool)

  predicate AllLive(heap: map<Addr, Timer>, ts: seq<Addr>) {
    forall i :: 0 <= i < |ts| ==> ts[i] in heap
  }

  /** `std::set::insert`: before the first element that is not less, unless that is equivalent. */
  function Insert(heap: map<Addr, Timer>, ts: seq<Addr>, a: Addr): seq<Addr> {
    if ts == [] || Less(Get(heap, a), Get(heap, ts[0])) then [a] + ts
    else if Less(Get(heap, ts[0]), Get(heap, a)) then [ts[0]] + Insert(heap, ts[1..], a)
    else ts
  }

  /** `std::set::erase` by key: the element equivalent to `a` goes, if there is one. */
  function Erase(heap: map<Addr, Timer>, ts: seq<Addr>, a: Addr): seq<Addr> {
    if ts == [] then []
    else if !Less(Get(heap, a), Get(heap, ts[0])) && !Less(Get(heap, ts[0]), Get(heap, a)) then ts[1..]
    else [ts[0]] + Erase(heap, ts[1..], a)
  }

  /** `std::set::lower_bound`: the number of elements less than `t`. */
  function LowerBound(heap: map<Addr, Timer>, ts: seq<Addr>, t: Timer): (n: nat)
    ensures n <= |ts|
  {
    if ts == [] || !Less(Get(heap, ts[0]), t) then 0 else 1 + LowerBound(heap, ts[1..], t)
  }

  function Scheduled(st: Store, a: Addr): Store {
    st.(timers := Insert(st.heap, st.timers, a),
        active := st.active + {(a, Get(st.heap, a).sequence)},
        fault := st.fault || a !in st.heap || !AllLive(st.heap, st.timers))
  }

  function EraseAndDelete(st: Store, a: Addr): Store {
    st.(timers := Erase(st.heap, st.timers, a),
        active := st.active - {(a, Get(st.heap, a).sequence)},
        heap := st.heap - {a},
        fault := st.fault || a !in st.heap || !AllLive(st.heap, st.timers))
  }

  /** One iteration of `resetTimers`. */
  function ResetOne(st: Store, canceling: set<TimerId>, now: int, a: Addr): Store {
    var st1 := st.(fault := st.fault || a !in st.heap);
    var t := Get(st.heap, a);
    if (a, t.sequence) !in canceling && t.Repeat() then
      Scheduled(st1.(heap := st.heap[a := t.Restart(now)]), a)
    else
      st1.(heap := st.heap - {a})
  }

  function ResetAll(st: Store, canceling: set<TimerId>, now: int, batch: seq<Addr>): Store
    decreases |batch|
  {
    if batch == [] then st
    else ResetAll(ResetOne(st, canceling, now, batch[0]), canceling, now, batch[1..])
  }

  function Ids(heap: map<Addr, Timer>, ts: seq<Addr>): set<TimerId> {
    set i | 0 <= i < |ts| :: (ts[i], Get(heap, ts[i]).sequence)
  }

  /** One call of a timer's callback. */
  datatype Firing = Firing(sequence: int, callback: nat)

  function FiringOf(t: Timer): Firing {
    Firing(t.sequence, t.callback)
  }

  /** `batch` is the vector of expired timers and `pos` the callbacks already called; `calling` is
      the atomic flag, which value-initialisation of the manager clears. `created` is the process-wide
      counter of sequence numbers, `issued` the ids ever returned, `runs` the log of callbacks. */
  datatype State = State(
    store: Store,
    inBatch: bool,
    batch: seq<Addr>,
    pos: nat,
    calling: bool,
    canceling: set<TimerId>,
    created: nat,
    issued: set<TimerId>,
    runs: seq<Firing>)

  const INITIAL := State(Store(map[], [], {}, false), false, [], 0, false, {}, 0, {}, [])

  datatype Step =
    | Add(a: Addr, when: int, callback: nat, interval: int)
    | CreateElsewhere(n: nat)
    | Cancel(id: TimerId)
    | Begin(now: int)
    | RunNext
    | End(now: int)

  function AddTimer(s: State, a: Addr, when: int, callback: nat, interval: int): State {
    var t := Timer(callback, when, interval, s.created + 1);
    s.(store := Scheduled(s.store.(heap := s.store.heap[a := t]), a),
       created := s.created + 1,
       issued := s.issued + {(a, s.created + 1)})
  }

  function CancelInLoop(s: State, id: TimerId): State {
    if id in s.store.active then s.(store := EraseAndDelete(s.store, id.0))
    else if s.calling then s.(canceling := s.canceling + {id})
    else s
  }

  /** `getExpiredTimers` and the start of the batch. The sentry takes a sequence number too. */
  function BeginBatch(s: State, now: int): State {
    var n := LowerBound(s.store.heap, s.store.timers, Timer(0, now, 0, s.created + 1));
    var expired := s.store.timers[..n];
    s.(store := Store(s.store.heap, s.store.timers[n..], s.store.active - Ids(s.store.heap, expired),
                      s.store.fault || !AllLive(s.store.heap, s.store.timers)),
       created := s.created + 1,
       inBatch := true, batch := expired, pos := 0, calling := true, canceling := {})
  }

  function CallNext(s: State): State
    requires s.pos < |s.batch|
  {
    var a := s.batch[s.pos];
    s.(runs := s.runs + [FiringOf(Get(s.store.heap, a))], pos := s.pos + 1,
       store := s.store.(fault := s.store.fault || a !in s.store.heap))
  }

  function EndBatch(s: State, now: int): State {
    s.(store := ResetAll(s.store, s.canceling, now, s.batch),
       inBatch := false, batch := [], pos := 0, calling := false, canceling := {})
  }

  /** Adds and cancels happen between batches and inside callbacks; the allocator returns only
      free addresses, and a batch is not started from inside a batch. */
  function Next(s: State, step: Step): State {
    match step
    case Add(a, when, callback, interval) =>
      if a in s.store.heap then s else AddTimer(s, a, when, callback, interval)
    case CreateElsewhere(n) => s.(created := s.created + n)
    case Cancel(id) => CancelInLoop(s, id)
    case Begin(now) => if s.inBatch then s else BeginBatch(s, now)
    case RunNext => if s.inBatch && s.pos < |s.batch| then CallNext(s) else s
    case End(now) => if s.inBatch && s.pos == |s.batch| then EndBatch(s, now) else s
  }

  function Run(s: State, steps: seq<Step>): State
    decreases |steps|
  {
    if steps == [] then s else Run(Next(s, steps[0]), steps[1..])
  }

  // ----- Invariant -------------------------------------------------------------------------

  predicate Sorted(heap: map<Addr, Timer>, ts: seq<Addr>) {
    forall i, j :: 0 <= i < j < |ts| ==> Less(Get(heap, ts[i]), Get(heap, ts[j]))
  }

  predicate Distinct(ts: seq<Addr>) {
    forall i, j :: 0 <= i < j < |ts| ==> ts[i] != ts[j]
  }

  /** Every live address is in the ordered set or in `own` (the batch), never in both. */
  ghost predicate Owned(st: Store, own: seq<Addr>) {
    && (forall a :: a in st.heap <==> a in st.timers || a in own)
    && (forall a :: a in own ==> a !in st.timers)
    && Distinct(own)
  }

  ghost predicate SequencesUnique(heap: map<Addr, Timer>) {
    forall a, b :: a in heap && b in heap && heap[a].sequence == heap[b].sequence ==> a == b
  }

  /** The ordered set and the active set hold the same timers. */
  ghost predicate ActiveRight(st: Store) {
    forall id: TimerId :: id in st.active <==> id.0 in st.timers && Get(st.heap, id.0).sequence == id.1
  }

  ghost predicate StoreInv(st: Store, own: seq<Addr>) {
    !st.fault && Owned(st, own) && Sorted(st.heap, st.timers) && SequencesUnique(st.heap) && ActiveRight(st)
  }

  ghost predicate IssuedRight(s: State) {
    && (forall a :: a in s.store.heap ==> (a, s.store.heap[a].sequence) in s.issued)
    && (forall x: TimerId, y: TimerId :: x in s.issued && y in s.issued && x.1 == y.1 ==> x == y)
    && (forall x: TimerId :: x in s.issued ==> x.1 <= s.created)
  }

  predicate BatchRight(s: State) {
    && s.pos <= |s.batch|
    && (s.inBatch ==> s.calling)
    && (!s.inBatch ==> s.batch == [])
  }

  ghost predicate Inv(s: State) {
    StoreInv(s.store, s.batch) && IssuedRight(s) && BatchRight(s)
  }

  lemma {:induction false} InsertKeepsSorted(heap: map<Addr, Timer>, ts: seq<Addr>, a: Addr)
    requires Sorted(heap, ts)
    requires forall x :: x in ts ==> Get(heap, x).sequence != Get(heap, a).sequence
    ensures Sorted(heap, Insert(heap, ts, a))
    ensures forall x :: x in Insert(heap, ts, a) <==> x in ts || x == a
  {
    if ts != [] && Less(Get(heap, ts[0]), Get(heap, a)) {
      assert ts == [ts[0]] + ts[1..];
      InsertKeepsSorted(heap, ts[1..], a);
      forall x | x in Insert(heap, ts[1..], a)
        ensures Less(Get(heap, ts[0]), Get(heap, x))
      {
        if x != a {
          var k :| 0 <= k < |ts[1..]| && ts[1..][k] == x;
          assert ts[k + 1] == x;
        }
      }
    } else if ts != [] {
      assert ts[0] in ts;
      assert Less(Get(heap, a), Get(heap, ts[0]));
    }
  }

  lemma {:induction false} EraseRemoves(heap: map<Addr, Timer>, ts: seq<Addr>, a: Addr)
    requires Sorted(heap, ts) && a in ts
    requires forall x :: x in ts && Get(heap, x).sequence == Get(heap, a).sequence ==> x == a
    ensures Sorted(heap, Erase(heap, ts, a))
    ensures forall x :: x in Erase(heap, ts, a) <==> x in ts && x != a
  {
    assert ts == [ts[0]] + ts[1..];
    if ts[0] == a {
      forall x | x in ts[1..]
        ensures x != a
      {
        var k :| 0 <= k < |ts[1..]| && ts[1..][k] == x;
        assert Less(Get(heap, ts[0]), Get(heap, ts[k + 1]));
      }
    } else {
      assert ts[0] in ts;
      assert a in ts[1..];
      EraseRemoves(heap, ts[1..], a);
      forall x | x in Erase(heap, ts[1..], a)
        ensures Less(Get(heap, ts[0]), Get(heap, x))
      {
        var k :| 0 <= k < |ts[1..]| && ts[1..][k] == x;
        assert ts[k + 1] == x;
      }
    }
  }

  /** Only the timers in a sequence matter for its order. */
  lemma SortedFrame(h: map<Addr, Timer>, h': map<Addr, Timer>, ts: seq<Addr>)
    requires Sorted(h, ts) && forall x :: x in ts ==> Get(h', x) == Get(h, x)
    ensures Sorted(h', ts)
  {
    forall i, j | 0 <= i < j < |ts|
      ensures Less(Get(h', ts[i]), Get(h', ts[j]))
    {
      assert ts[i] in ts && ts[j] in ts;
    }
  }

  /** Putting a timer that is live but in no set into the ordered set. */
  lemma AddKeepsStore(st: Store, a: Addr, t: Timer, own: seq<Addr>)
    requires !st.fault && Sorted(st.heap, st.timers) && SequencesUnique(st.heap) && ActiveRight(st)
    requires Distinct(own) && a !in own && a !in st.timers
    requires forall x :: x in st.heap && x != a <==> x in st.timers || x in own
    requires forall x :: x in own ==> x !in st.timers
    requires forall x :: x in st.heap && x != a ==> st.heap[x].sequence != t.sequence
    ensures StoreInv(Scheduled(st.(heap := st.heap[a := t]), a), own)
    ensures Scheduled(st.(heap := st.heap[a := t]), a).heap == st.heap[a := t]
    ensures forall x :: x in Scheduled(st.(heap := st.heap[a := t]), a).timers <==> x in st.timers || x == a
  {
    var heap := st.heap[a := t];
    SortedFrame(st.heap, heap, st.timers);
    InsertKeepsSorted(heap, st.timers, a);
  }

  lemma DeleteKeepsStore(st: Store, a: Addr, own: seq<Addr>)
    requires StoreInv(st, own) && a in st.timers
    ensures StoreInv(EraseAndDelete(st, a), own)
    ensures forall x :: x in EraseAndDelete(st, a).timers <==> x in st.timers && x != a
  {
    EraseRemoves(st.heap, st.timers, a);
    SortedFrame(st.heap, st.heap - {a}, Erase(st.heap, st.timers, a));
  }

  lemma HeadNotInRest(a: Addr, rest: seq<Addr>)
    requires Distinct([a] + rest)
    ensures a !in rest && Distinct(rest)
  {
    var all := [a] + rest;
    forall i | 0 <= i < |rest|
      ensures rest[i] != a
    {
      assert all[0] != all[i + 1];
    }
    forall i, j | 0 <= i < j < |rest|
      ensures rest[i] != rest[j]
    {
      assert all[i + 1] != all[j + 1];
    }
  }

  /** Whether `resetTimers` re-arms a timer of the batch. */
  predicate Rearmed(st: Store, canceling: set<TimerId>, a: Addr) {
    (a, Get(st.heap, a).sequence) !in canceling && Get(st.heap, a).interval > 0
  }

  /** `resetTimers`, said of the whole batch at once: re-armed timers are back in the ordered set
      with expiration `now + interval`, the other timers of the batch are freed, and no other
      timer is touched. */
  ghost predicate ResetExactly(st: Store, st': Store, canceling: set<TimerId>, now: int, batch: seq<Addr>) {
    && (forall a :: a in batch && Rearmed(st, canceling, a) ==>
          && a in st'.timers && a in st'.heap
          && st'.heap[a] == Get(st.heap, a).(expiration := now + Get(st.heap, a).interval))
    && (forall a :: a in batch && !Rearmed(st, canceling, a) ==> a !in st'.heap && a !in st'.timers)
    && (forall a :: a !in batch ==> Get(st'.heap, a) == Get(st.heap, a))
    && (forall a :: a !in batch ==> (a in st'.heap <==> a in st.heap) && (a in st'.timers <==> a in st.timers))
  }

  lemma RearmExactly(st: Store, canceling: set<TimerId>, now: int, a: Addr, rest: seq<Addr>)
    requires StoreInv(st, [a] + rest) && Rearmed(st, canceling, a)
    ensures StoreInv(ResetOne(st, canceling, now, a), rest)
    ensures ResetExactly(st, ResetOne(st, canceling, now, a), canceling, now, [a])
  {
    HeadNotInRest(a, rest);
    assert a in [a] + rest;
    AddKeepsStore(st, a, Get(st.heap, a).Restart(now), rest);
  }

  lemma FreeExactly(st: Store, canceling: set<TimerId>, now: int, a: Addr, rest: seq<Addr>)
    requires StoreInv(st, [a] + rest) && !Rearmed(st, canceling, a)
    ensures StoreInv(ResetOne(st, canceling, now, a), rest)
    ensures ResetExactly(st, ResetOne(st, canceling, now, a), canceling, now, [a])
  {
    HeadNotInRest(a, rest);
    assert a in [a] + rest;
    SortedFrame(st.heap, st.heap - {a}, st.timers);
  }

  lemma ResetOneExactly(st: Store, canceling: set<TimerId>, now: int, a: Addr, rest: seq<Addr>)
    requires StoreInv(st, [a] + rest)
    ensures StoreInv(ResetOne(st, canceling, now, a), rest)
    ensures ResetExactly(st, ResetOne(st, canceling, now, a), canceling, now, [a])
  {
    if Rearmed(st, canceling, a) {
      RearmExactly(st, canceling, now, a, rest);
    } else {
      FreeExactly(st, canceling, now, a, rest);
    }
  }

  lemma ResetExactlyChains(
    st: Store, st1: Store, st': Store, canceling: set<TimerId>, now: int, a: Addr, rest: seq<Addr>)
    requires a !in rest
    requires ResetExactly(st, st1, canceling, now, [a]) && ResetExactly(st1, st', canceling, now, rest)
    ensures ResetExactly(st, st', canceling, now, [a] + rest)
  {
    assert a in [a];
    forall b | b in rest
      ensures Get(st1.heap, b) == Get(st.heap, b)
    {
      assert b !in [a];
    }
    forall b | b !in [a] + rest
      ensures b !in [a] && b !in rest
    {
    }
  }

  lemma {:induction false} ResetAllExactly(st: Store, canceling: set<TimerId>, now: int, batch: seq<Addr>)
    requires StoreInv(st, batch)
    ensures StoreInv(ResetAll(st, canceling, now, batch), [])
    ensures ResetExactly(st, ResetAll(st, canceling, now, batch), canceling, now, batch)
    decreases |batch|
  {
    if batch != [] {
      var a, rest := batch[0], batch[1..];
      assert batch == [a] + rest;
      var st1 := ResetOne(st, canceling, now, a);
      ResetOneExactly(st, canceling, now, a, rest);
      ResetAllExactly(st1, canceling, now, rest);
      HeadNotInRest(a, rest);
      ResetExactlyChains(st, st1, ResetAll(st, canceling, now, batch), canceling, now, a, rest);
    }
  }

  lemma {:induction false} LowerBoundSplits(heap: map<Addr, Timer>, ts: seq<Addr>, t: Timer)
    requires Sorted(heap, ts)
    ensures var n := LowerBound(heap, ts, t);
            && (forall i :: 0 <= i < n ==> Less(Get(heap, ts[i]), t))
            && (forall i :: n <= i < |ts| ==> !Less(Get(heap, ts[i]), t))
  {
    if ts != [] {
      if Less(Get(heap, ts[0]), t) {
        LowerBoundSplits(heap, ts[1..], t);
      } else {
        forall i | 0 <= i < |ts|
          ensures !Less(Get(heap, ts[i]), t)
        {
          assert i > 0 ==> Less(Get(heap, ts[0]), Get(heap, ts[i]));
        }
      }
    }
  }

  // ----- Exact expiry --------------------------------------------------------------------------

  lemma AllSequencesCreated(s: State)
    requires Inv(s)
    ensures forall a :: a in s.store.heap ==> s.store.heap[a].sequence <= s.created
  {
    forall a | a in s.store.heap
      ensures s.store.heap[a].sequence <= s.created
    {
      assert (a, s.store.heap[a].sequence) in s.issued;
    }
  }

  /** Where the lower bound of the sentry falls. */
  lemma ExpiryBoundary(heap: map<Addr, Timer>, ts: seq<Addr>, now: int, created: int)
    requires Sorted(heap, ts)
    requires forall a :: a in ts ==> Get(heap, a).sequence <= created
    ensures var n := LowerBound(heap, ts, Timer(0, now, 0, created + 1));
            forall i :: 0 <= i < |ts| ==> (Get(heap, ts[i]).expiration <= now <==> i < n)
  {
    LowerBoundSplits(heap, ts, Timer(0, now, 0, created + 1));
    assert forall i :: 0 <= i < |ts| ==> ts[i] in ts;
  }

  /** The ordered set `ts` is cut in two at `now`: what has expired, and what stays. */
  ghost predicate CutAt(heap: map<Addr, Timer>, ts: seq<Addr>, expired: seq<Addr>, rest: seq<Addr>, now: int) {
    && expired + rest == ts
    && (forall a :: a in expired <==> a in ts && Get(heap, a).expiration <= now)
    && (forall a :: a in rest <==> a in ts && Get(heap, a).expiration > now)
    && Sorted(heap, expired) && Sorted(heap, rest)
  }

  /** A batch is exactly the timers with expiration at most `now`, in (expiration, creation) order:
      the sentry's fresh sequence number is larger than that of every timer, so timers that expire
      at `now` itself are below it. The other timers stay in the ordered set, untouched. */
  lemma ExactExpiry(s: State, now: int)
    requires Inv(s) && !s.inBatch
    ensures var s' := BeginBatch(s, now);
            var n := LowerBound(s.store.heap, s.store.timers, Timer(0, now, 0, s.created + 1));
            && s'.batch == s.store.timers[..n] && s'.store.timers == s.store.timers[n..]
            && CutAt(s.store.heap, s.store.timers, s.store.timers[..n], s.store.timers[n..], now)
            && s'.store.heap == s.store.heap
  {
    AllSequencesCreated(s);
    ExpiredPrefix(s.store.heap, s.store.timers, now, s.created);
  }

  lemma SplitByExpiration(heap: map<Addr, Timer>, ts: seq<Addr>, n: nat, now: int)
    requires n <= |ts|
    requires forall i :: 0 <= i < |ts| ==> (Get(heap, ts[i]).expiration <= now <==> i < n)
    ensures ts[..n] + ts[n..] == ts
    ensures forall a :: a in ts[..n] <==> a in ts && Get(heap, a).expiration <= now
    ensures forall a :: a in ts[n..] <==> a in ts && Get(heap, a).expiration > now
  {
    forall a | a in ts
      ensures a in ts[..n] <==> Get(heap, a).expiration <= now
      ensures a in ts[n..] <==> Get(heap, a).expiration > now
    {
      var i :| 0 <= i < |ts| && ts[i] == a;
      assert i < n ==> ts[..n][i] == a;
      assert i >= n ==> ts[n..][i - n] == a;
    }
  }

  lemma ExpiredPrefix(heap: map<Addr, Timer>, ts: seq<Addr>, now: int, created: int)
    requires Sorted(heap, ts)
    requires forall a :: a in ts ==> Get(heap, a).sequence <= created
    ensures var n := LowerBound(heap, ts, Timer(0, now, 0, created + 1));
            CutAt(heap, ts, ts[..n], ts[n..], now)
  {
    var n := LowerBound(heap, ts, Timer(0, now, 0, created + 1));
    ExpiryBoundary(heap, ts, now, created);
    SplitByExpiration(heap, ts, n, now);
  }

  lemma BeginKeepsActive(s: State, now: int)
    requires Inv(s) && !s.inBatch
    ensures ActiveRight(BeginBatch(s, now).store)
  {
    ExactExpiry(s, now);
    var s' := BeginBatch(s, now);
    var heap := s.store.heap;
    forall id: TimerId
      ensures id in Ids(heap, s'.batch) <==> id.0 in s'.batch && Get(heap, id.0).sequence == id.1
    {
      if id.0 in s'.batch && Get(heap, id.0).sequence == id.1 {
        var i :| 0 <= i < |s'.batch| && s'.batch[i] == id.0;
        assert id == (s'.batch[i], Get(heap, s'.batch[i]).sequence);
      }
    }
  }

  lemma SortedIsDistinct(heap: map<Addr, Timer>, ts: seq<Addr>)
    requires Sorted(heap, ts)
    ensures Distinct(ts)
  {
    forall i, j | 0 <= i < j < |ts|
      ensures ts[i] != ts[j]
    {
      assert Less(Get(heap, ts[i]), Get(heap, ts[j]));
    }
  }

  lemma BeginKeepsOwned(s: State, now: int)
    requires Inv(s) && !s.inBatch
    ensures Owned(BeginBatch(s, now).store, BeginBatch(s, now).batch) && !BeginBatch(s, now).store.fault
  {
    ExactExpiry(s, now);
    var s' := BeginBatch(s, now);
    SortedIsDistinct(s.store.heap, s'.batch);
    assert AllLive(s.store.heap, s.store.timers) by {
      assert forall i :: 0 <= i < |s.store.timers| ==> s.store.timers[i] in s.store.timers;
    }
  }

  lemma BeginKeepsInv(s: State, now: int)
    requires Inv(s) && !s.inBatch
    ensures Inv(BeginBatch(s, now))
  {
    BeginKeepsOwned(s, now);
    BeginKeepsActive(s, now);
    ExactExpiry(s, now);
  }

  lemma AddKeepsIssued(s: State, a: Addr, when: int, callback: nat, interval: int)
    requires IssuedRight(s)
    ensures IssuedRight(AddTimer(s, a, when, callback, interval))
  {
  }

  lemma AddPutsInSet(s: State, a: Addr, when: int, callback: nat, interval: int)
    requires Inv(s) && a !in s.store.heap
    ensures StoreInv(AddTimer(s, a, when, callback, interval).store, s.batch)
    ensures forall x :: x in AddTimer(s, a, when, callback, interval).store.timers <==> x in s.store.timers || x == a
  {
    AllSequencesCreated(s);
    assert !s.store.fault && Sorted(s.store.heap, s.store.timers) && ActiveRight(s.store);
    hide Sorted, ActiveRight, Scheduled, Insert, IssuedRight, StoreInv;
    AddKeepsStore(s.store, a, Timer(callback, when, interval, s.created + 1), s.batch);
  }

  lemma AddKeepsInv(s: State, a: Addr, when: int, callback: nat, interval: int)
    requires Inv(s) && a !in s.store.heap
    ensures Inv(AddTimer(s, a, when, callback, interval))
  {
    AddKeepsIssued(s, a, when, callback, interval);
    AddPutsInSet(s, a, when, callback, interval);
  }

  lemma CancelKeepsInv(s: State, id: TimerId)
    requires Inv(s)
    ensures Inv(CancelInLoop(s, id))
  {
    if id in s.store.active {
      DeleteKeepsStore(s.store, id.0, s.batch);
    }
  }

  lemma EndKeepsInv(s: State, now: int)
    requires Inv(s) && s.inBatch
    ensures Inv(EndBatch(s, now))
  {
    ResetAllExactly(s.store, s.canceling, now, s.batch);
    var s' := EndBatch(s, now);
    forall a | a in s'.store.heap
      ensures a in s.store.heap && s'.store.heap[a].sequence == s.store.heap[a].sequence
    {
      assert a !in s.batch ==> Get(s'.store.heap, a) == Get(s.store.heap, a);
    }
  }

  lemma NextKeepsInv(s: State, step: Step)
    requires Inv(s)
    ensures Inv(Next(s, step))
  {
    match step
    case Add(a, when, callback, interval) =>
      if a !in s.store.heap { AddKeepsInv(s, a, when, callback, interval); }
    case CreateElsewhere(n) =>
    case Cancel(id) => CancelKeepsInv(s, id);
    case Begin(now) => if !s.inBatch { BeginKeepsInv(s, now); }
    case RunNext => if s.pos < |s.batch| { assert s.batch[s.pos] in s.batch; }
    case End(now) => if s.inBatch && s.pos == |s.batch| { EndKeepsInv(s, now); }
  }

  lemma {:induction false} RunKeepsInv(s: State, steps: seq<Step>)
    requires Inv(s)
    ensures Inv(Run(s, steps))
    decreases |steps|
  {
    if steps != [] {
      NextKeepsInv(s, steps[0]);
      RunKeepsInv(Next(s, steps[0]), steps[1..]);
    }
  }

  /** Over every run, with callbacks that add and cancel at will and an allocator that reuses
      addresses: no timer is read, run or freed after it was freed; every live timer is in exactly
      one of the ordered set and the running batch; and the ordered set and the active set hold
      the same timers. */
  lemma EachTimerOwnedOnce(steps: seq<Step>)
    ensures var s := Run(INITIAL, steps);
            && !s.store.fault
            && Owned(s.store, s.batch) && Sorted(s.store.heap, s.store.timers)
            && ActiveRight(s.store) && SequencesUnique(s.store.heap)
  {
    RunKeepsInv(INITIAL, steps);
  }

  /** The keys of an ordered set never change under it: a timer that is in the set before and
      after a step is bit for bit the same. */
  lemma KeysFrozenInSet(s: State, step: Step, a: Addr)
    requires Inv(s) && a in s.store.timers && a in Next(s, step).store.timers
    ensures Get(Next(s, step).store.heap, a) == Get(s.store.heap, a)
  {
    match step
    case End(now) => if s.inBatch { ResetAllExactly(s.store, s.canceling, now, s.batch); }
    case Cancel(id) => if id in s.store.active { DeleteKeepsStore(s.store, id.0, s.batch); }
    case _ =>
  }

  /** The calls of the callbacks of some timers, each with its timer's own callback. */
  function Firings(heap: map<Addr, Timer>, ts: seq<Addr>): (r: seq<Firing>)
    ensures |r| == |ts|
    ensures forall i :: 0 <= i < |r| ==>
              r[i].sequence == Get(heap, ts[i]).sequence && r[i].callback == Get(heap, ts[i]).callback
  {
    seq(|ts|, i requires 0 <= i < |ts| => FiringOf(Get(heap, ts[i])))
  }

  /** While a batch runs, its timers are neither freed nor changed. */
  lemma BatchUntouched(s: State, step: Step)
    requires Inv(s) && s.inBatch && !step.End?
    ensures var s' := Next(s, step);
            && s'.inBatch && s'.batch == s.batch
            && forall a :: a in s.batch ==> Get(s'.store.heap, a) == Get(s.store.heap, a)
  {
    match step
    case Cancel(id) => if id in s.store.active { DeleteKeepsStore(s.store, id.0, s.batch); }
    case _ =>
  }

  lemma FiringsHead(heap: map<Addr, Timer>, heap': map<Addr, Timer>, ts: seq<Addr>, i: nat, j: nat)
    requires i < j <= |ts|
    requires forall a :: a in ts ==> Get(heap', a) == Get(heap, a)
    ensures Firings(heap, ts[i..j]) == [FiringOf(Get(heap, ts[i]))] + Firings(heap', ts[i + 1..j])
  {
    assert ts[i..j] == [ts[i]] + ts[i + 1..j];
    FiringsFrame(heap, heap', ts, i + 1, j);
  }

  lemma FiringsFrame(heap: map<Addr, Timer>, heap': map<Addr, Timer>, ts: seq<Addr>, i: nat, j: nat)
    requires i <= j <= |ts|
    requires forall a :: a in ts ==> Get(heap', a) == Get(heap, a)
    ensures Firings(heap, ts[i..j]) == Firings(heap', ts[i..j])
  {
    forall k | 0 <= k < |ts[i..j]|
      ensures Get(heap', ts[i..j][k]) == Get(heap, ts[i..j][k])
    {
      assert ts[i..j][k] in ts;
    }
  }

  lemma BatchStepRuns(s: State, step: Step)
    requires Inv(s) && s.inBatch && !step.End?
    ensures var n := Next(s, step);
            || (n.pos == s.pos && n.runs == s.runs)
            || (s.pos < |s.batch| && n.pos == s.pos + 1
                && n.runs == s.runs + [FiringOf(Get(s.store.heap, s.batch[s.pos]))])
  {
  }

  /** Each timer of the batch is run once, in batch order, whatever the callbacks add or cancel
      meanwhile. */
  lemma {:induction false} BatchRunsInOrder(s: State, steps: seq<Step>)
    requires Inv(s) && s.inBatch
    requires forall i :: 0 <= i < |steps| ==> !steps[i].End?
    ensures var s' := Run(s, steps);
            && s'.inBatch && s'.batch == s.batch && s.pos <= s'.pos <= |s.batch|
            && s'.runs == s.runs + Firings(s.store.heap, s.batch[s.pos..s'.pos])
            && forall a :: a in s.batch ==> Get(s'.store.heap, a) == Get(s.store.heap, a)
    decreases |steps|
  {
    if steps == [] {
      assert s.runs + [] == s.runs;
    } else {
      hide Next, Inv, Firings, Get;
      var n := Next(s, steps[0]);
      assert !steps[0].End?;
      NextKeepsInv(s, steps[0]);
      BatchUntouched(s, steps[0]);
      BatchStepRuns(s, steps[0]);
      BatchRunsInOrder(n, steps[1..]);
      RunsContinue(s, n, Run(n, steps[1..]).pos);
    }
  }

  lemma RunsContinue(s: State, n: State, end: nat)
    requires n.batch == s.batch && s.pos <= n.pos <= end <= |s.batch|
    requires forall a :: a in s.batch ==> Get(n.store.heap, a) == Get(s.store.heap, a)
    requires (n.pos == s.pos && n.runs == s.runs)
             || (s.pos < |s.batch| && n.pos == s.pos + 1
                 && n.runs == s.runs + [FiringOf(Get(s.store.heap, s.batch[s.pos]))])
    ensures n.runs + Firings(n.store.heap, s.batch[n.pos..end]) == s.runs + Firings(s.store.heap, s.batch[s.pos..end])
  {
    hide Firings;
    if n.pos == s.pos {
      FiringsFrame(s.store.heap, n.store.heap, s.batch, s.pos, end);
    } else {
      FiringsHead(s.store.heap, n.store.heap, s.batch, s.pos, end);
    }
  }

  /** All of `processExpiredTimers`, from the expiry test at `now` to the reset at `now2`, with
      any callbacks in between: exactly the timers with expiration <= now ran, once each, in
      order, and none of them changed meanwhile; of those, the one-shot and the cancelled ones are
      then gone and the others re-armed at now2 + interval, and no other timer is touched. */
  lemma ProcessExpired(s: State, now: int, steps: seq<Step>, now2: int)
    requires Inv(s) && !s.inBatch
    requires forall i :: 0 <= i < |steps| ==> !steps[i].End?
    requires Run(BeginBatch(s, now), steps).pos == |BeginBatch(s, now).batch|
    ensures var b := BeginBatch(s, now);
            var m := Run(b, steps);
            var e := Next(m, End(now2));
            && e.runs == s.runs + Firings(s.store.heap, b.batch)
            && (forall a :: a in b.batch <==> a in s.store.timers && Get(s.store.heap, a).expiration <= now)
            && (forall a :: a in b.batch ==> Get(m.store.heap, a) == Get(s.store.heap, a))
            && ResetExactly(m.store, e.store, m.canceling, now2, b.batch)
            && !e.inBatch && Inv(e)
  {
    var b := BeginBatch(s, now);
    ExactExpiry(s, now);
    BeginKeepsInv(s, now);
    BatchRunsInOrder(b, steps);
    RunKeepsInv(b, steps);
    ResetRightAfter(Run(b, steps), now2);
    assert b.batch[0..|b.batch|] == b.batch;
  }

  lemma ResetRightAfter(m: State, now: int)
    requires Inv(m) && m.inBatch && m.pos == |m.batch|
    ensures var e := Next(m, End(now));
            && ResetExactly(m.store, e.store, m.canceling, now, m.batch)
            && e.runs == m.runs && !e.inBatch && Inv(e)
  {
    ResetAllExactly(m.store, m.canceling, now, m.batch);
    EndKeepsInv(m, now);
    hide Inv, ResetExactly, ResetAll;
  }

  // ----- Cancel safety -------------------------------------------------------------------------

  predicate LiveId(st: Store, id: TimerId) {
    id.0 in st.heap && st.heap[id.0].sequence == id.1
  }

  lemma StaleStaysStale(s: State, step: Step, id: TimerId)
    requires Inv(s) && id in s.issued && !LiveId(s.store, id)
    ensures id in Next(s, step).issued && !LiveId(Next(s, step).store, id)
  {
    match step
    case End(now) =>
      if s.inBatch {
        ResetAllExactly(s.store, s.canceling, now, s.batch);
        assert id.0 !in s.batch ==> Get(Next(s, step).store.heap, id.0) == Get(s.store.heap, id.0);
        assert id.0 in s.batch ==> id.0 in s.store.heap;
      }
    case _ =>
  }

  lemma {:induction false} ResetIgnoresStale(
    st: Store, canceling: set<TimerId>, now: int, batch: seq<Addr>, id: TimerId)
    requires StoreInv(st, batch) && !LiveId(st, id)
    ensures ResetAll(st, canceling + {id}, now, batch) == ResetAll(st, canceling, now, batch)
    decreases |batch|
  {
    if batch != [] {
      assert batch == [batch[0]] + batch[1..];
      assert batch[0] in batch;
      ResetOneExactly(st, canceling, now, batch[0], batch[1..]);
      var st1 := ResetOne(st, canceling, now, batch[0]);
      assert !LiveId(st1, id) by {
        assert id.0 != batch[0] ==> id.0 !in [batch[0]];
      }
      ResetIgnoresStale(st1, canceling, now, batch[1..], id);
    }
  }

  /** Two states that a stale id cannot tell apart. */
  predicate SameButCanceling(s: State, r: State, id: TimerId) {
    r == s || r == s.(canceling := s.canceling + {id})
  }

  lemma CancelIgnoresStale(s: State, other: TimerId, id: TimerId)
    requires !LiveId(s.store, id)
    ensures SameButCanceling(CancelInLoop(s, other), CancelInLoop(s.(canceling := s.canceling + {id}), other), id)
  {
    assert s.canceling + {other} + {id} == s.canceling + {id} + {other};
  }

  lemma NextIgnoresStale(s: State, r: State, step: Step, id: TimerId)
    requires Inv(s) && !LiveId(s.store, id) && SameButCanceling(s, r, id)
    ensures SameButCanceling(Next(s, step), Next(r, step), id)
  {
    if r != s {
      match step
      case Cancel(other) => CancelIgnoresStale(s, other, id);
      case End(now) => if s.inBatch { ResetIgnoresStale(s.store, s.canceling, now, s.batch, id); }
      case _ =>
    }
  }

  lemma {:induction false} StaleRuns(s: State, r: State, steps: seq<Step>, id: TimerId)
    requires Inv(s) && id in s.issued && !LiveId(s.store, id)
    requires SameButCanceling(s, r, id)
    ensures Run(r, steps).store == Run(s, steps).store && Run(r, steps).runs == Run(s, steps).runs
    decreases |steps|
  {
    if steps != [] {
      NextKeepsInv(s, steps[0]);
      StaleStaysStale(s, steps[0], id);
      NextIgnoresStale(s, r, steps[0], id);
      StaleRuns(Next(s, steps[0]), Next(r, steps[0]), steps[1..], id);
    }
  }

  lemma StaleCancelStep(s: State, id: TimerId)
    requires Inv(s) && !LiveId(s.store, id)
    ensures SameButCanceling(s, Next(s, Cancel(id)), id)
  {
    assert id in s.store.active ==> id.0 in s.store.timers;
  }

  /** Over every run: cancelling an id whose timer is gone changes nothing that matters, now or later,
      even if a newer timer lives at the same address: every later heap, ordered set, active set and
      log of callbacks is what it would have been without the cancel. */
  lemma StaleCancelIsInvisible(before: seq<Step>, id: TimerId, after: seq<Step>)
    requires id in Run(INITIAL, before).issued && !LiveId(Run(INITIAL, before).store, id)
    ensures var s := Run(INITIAL, before);
            var cancelled, left := Run(Next(s, Cancel(id)), after), Run(s, after);
            cancelled.store == left.store && cancelled.runs == left.runs
  {
    hide Next;
    var s := Run(INITIAL, before);
    RunKeepsInv(INITIAL, before);
    StaleCancelStep(s, id);
    StaleRuns(s, Next(s, Cancel(id)), after, id);
  }

  /** How often the timer with sequence number `q` has been called. */
  function CountRuns(runs: seq<Firing>, q: int): nat {
    if runs == [] then 0 else CountRuns(runs[..|runs| - 1], q) + if runs[|runs| - 1].sequence == q then 1 else 0
  }

  /** `1` when the timer with sequence number `q` is in the part of the batch still to run. */
  ghost function StillToRun(s: State, q: int): nat {
    if exists i :: s.pos <= i < |s.batch| && Get(s.store.heap, s.batch[i]).sequence == q then 1 else 0
  }

  /** A cancelled timer: it is not in the ordered set, it will not be issued again, and if the
      running batch holds it, `resetTimers` will free it. */
  ghost predicate Doomed(s: State, id: TimerId) {
    && id in s.issued
    && (forall a :: a in s.store.timers ==> Get(s.store.heap, a).sequence != id.1)
    && (forall a :: a in s.batch && Get(s.store.heap, a).sequence == id.1 ==> a == id.0 && id in s.canceling)
  }

  lemma CancelDooms(s: State, id: TimerId)
    requires Inv(s) && id in s.issued
    ensures Doomed(Next(s, Cancel(id)), id)
    ensures Next(s, Cancel(id)).runs == s.runs
    ensures StillToRun(Next(s, Cancel(id)), id.1) == StillToRun(s, id.1)
  {
    var s' := Next(s, Cancel(id));
    forall a | a in s.store.heap && s.store.heap[a].sequence == id.1
      ensures a == id.0
    {
      assert (a, id.1) in s.issued;
    }
    if id in s.store.active {
      DeleteKeepsStore(s.store, id.0, s.batch);
    }
    forall i | 0 <= i < |s.batch|
      ensures Get(s'.store.heap, s.batch[i]) == Get(s.store.heap, s.batch[i])
    {
      assert s.batch[i] in s.batch;
    }
  }

  lemma DoomedCallNext(s: State, id: TimerId)
    requires Inv(s) && Doomed(s, id) && s.pos < |s.batch|
    ensures CountRuns(CallNext(s).runs, id.1) + StillToRun(CallNext(s), id.1)
         == CountRuns(s.runs, id.1) + StillToRun(s, id.1)
  {
    var s' := CallNext(s);
    assert s'.runs[..|s.runs|] == s.runs;
    if Get(s.store.heap, s.batch[s.pos]).sequence == id.1 {
      assert StillToRun(s, id.1) == 1;
      forall i | s'.pos <= i < |s.batch|
        ensures Get(s.store.heap, s.batch[i]).sequence != id.1
      {
        assert s.batch[i] in s.batch && s.batch[s.pos] in s.batch;
      }
    }
  }

  /** `Doomed`, and no more runs to come than before. */
  ghost predicate DoomedFrom(s: State, s': State, id: TimerId) {
    && Doomed(s', id)
    && CountRuns(s'.runs, id.1) + StillToRun(s', id.1) <= CountRuns(s.runs, id.1) + StillToRun(s, id.1)
  }

  lemma DoomedAdd(s: State, a: Addr, when: int, callback: nat, interval: int, id: TimerId)
    requires Inv(s) && Doomed(s, id) && a !in s.store.heap
    ensures DoomedFrom(s, AddTimer(s, a, when, callback, interval), id)
  {
    AllSequencesCreated(s);
    AddPutsInSet(s, a, when, callback, interval);
    SameRunsToCome(s, AddTimer(s, a, when, callback, interval), id);
  }

  /** The runs to come depend only on the batch and its timers. */
  lemma SameRunsToCome(s: State, s': State, id: TimerId)
    requires s'.batch == s.batch && s'.pos == s.pos && s'.runs == s.runs
    requires forall a :: a in s.batch ==> Get(s'.store.heap, a) == Get(s.store.heap, a)
    ensures StillToRun(s', id.1) == StillToRun(s, id.1)
  {
    assert forall i :: 0 <= i < |s.batch| ==> s.batch[i] in s.batch;
  }

  lemma DoomedCancel(s: State, other: TimerId, id: TimerId)
    requires Inv(s) && Doomed(s, id)
    ensures DoomedFrom(s, CancelInLoop(s, other), id)
  {
    if other in s.store.active {
      DeleteKeepsStore(s.store, other.0, s.batch);
      assert forall i :: 0 <= i < |s.batch| ==> s.batch[i] in s.batch;
    }
  }

  lemma DoomedBegin(s: State, now: int, id: TimerId)
    requires Inv(s) && Doomed(s, id) && !s.inBatch
    ensures DoomedFrom(s, BeginBatch(s, now), id)
  {
    ExactExpiry(s, now);
    var s' := BeginBatch(s, now);
    assert forall i :: 0 <= i < |s'.batch| ==> s'.batch[i] in s'.batch;
  }

  lemma DoomedEnd(s: State, now: int, id: TimerId)
    requires Inv(s) && Doomed(s, id) && s.inBatch && s.pos == |s.batch|
    ensures DoomedFrom(s, EndBatch(s, now), id)
  {
    ResetAllExactly(s.store, s.canceling, now, s.batch);
    var s' := EndBatch(s, now);
    forall a | a in s'.store.timers
      ensures Get(s'.store.heap, a).sequence != id.1
    {
      assert a !in s.batch ==> Get(s'.store.heap, a) == Get(s.store.heap, a);
    }
  }

  lemma DoomedNext(s: State, step: Step, id: TimerId)
    requires Inv(s) && Doomed(s, id)
    ensures DoomedFrom(s, Next(s, step), id)
  {
    match step
    case Add(a, when, callback, interval) =>
      if a !in s.store.heap { DoomedAdd(s, a, when, callback, interval, id); }
    case CreateElsewhere(n) =>
    case Cancel(other) => DoomedCancel(s, other, id);
    case Begin(now) => if !s.inBatch { DoomedBegin(s, now, id); }
    case RunNext => if s.inBatch && s.pos < |s.batch| { DoomedCallNext(s, id); }
    case End(now) => if s.inBatch && s.pos == |s.batch| { DoomedEnd(s, now, id); }
  }

  lemma {:induction false} DoomedRun(s: State, steps: seq<Step>, id: TimerId)
    requires Inv(s) && Doomed(s, id)
    ensures CountRuns(Run(s, steps).runs, id.1) <= CountRuns(s.runs, id.1) + StillToRun(s, id.1)
    decreases |steps|
  {
    if steps != [] {
      NextKeepsInv(s, steps[0]);
      DoomedNext(s, steps[0], id);
      DoomedRun(Next(s, steps[0]), steps[1..], id);
    }
  }

  /** After `cancel(id)`, whatever happens next and wherever its address goes, the timer's callback
      runs at most once more, and only if it stood in the unrun part of the batch at the time. */
  lemma CancelledRunsAtMostOnceMore(before: seq<Step>, id: TimerId, after: seq<Step>)
    requires id in Run(INITIAL, before).issued
    ensures var s := Run(INITIAL, before);
            var e := Run(Next(s, Cancel(id)), after);
            CountRuns(e.runs, id.1) <= CountRuns(s.runs, id.1) + StillToRun(s, id.1)
  {
    var s := Run(INITIAL, before);
    RunKeepsInv(INITIAL, before);
    CancelDooms(s, id);
    CancelKeepsInv(s, id);
    DoomedRun(Next(s, Cancel(id)), after, id);
  }

  // ----- A timer fires when it is due ----------------------------------------------------------

  /** What `cancel` does to the timers: the one it names goes if it is in the ordered set, and is noted
      if a batch is being run and it is not. No other timer is touched. */
  lemma CancelExactly(s: State, id: TimerId)
    requires Inv(s)
    ensures var s' := Next(s, Cancel(id));
            var found := id.0 in s.store.timers && Get(s.store.heap, id.0).sequence == id.1;
            && (forall a :: a in s'.store.timers <==> a in s.store.timers && !(found && a == id.0))
            && s'.store.heap == (if found then s.store.heap - {id.0} else s.store.heap)
            && s'.canceling == (if !found && s.calling then s.canceling + {id} else s.canceling)
            && s'.batch == s.batch && s'.pos == s.pos && s'.runs == s.runs
  {
    if id in s.store.active {
      DeleteKeepsStore(s.store, id.0, s.batch);
    }
  }

  /** Timer `t` stands at `a` in the ordered set and has not been called. */
  predicate Waits(s: State, a: Addr, t: Timer) {
    && a in s.store.heap && s.store.heap[a] == t
    && a in s.store.timers && a !in s.batch
    && CountRuns(s.runs, t.sequence) == 0
  }

  /** No batch begins at or after `when`, and `id` is not cancelled. */
  predicate LeftAlone(s: State, steps: seq<Step>, id: TimerId, when: int)
    decreases |steps|
  {
    steps != [] ==>
      && steps[0] != Cancel(id)
      && (steps[0].Begin? && !s.inBatch ==> steps[0].now < when)
      && LeftAlone(Next(s, steps[0]), steps[1..], id, when)
  }

  predicate RunsCreated(s: State) {
    forall i :: 0 <= i < |s.runs| ==> s.runs[i].sequence <= s.created
  }

  lemma RunsCreatedNext(s: State, step: Step)
    requires Inv(s) && RunsCreated(s)
    ensures RunsCreated(Next(s, step))
  {
    if step.RunNext? && s.inBatch && s.pos < |s.batch| {
      AllSequencesCreated(s);
      assert s.batch[s.pos] in s.batch;
    }
  }

  lemma {:induction false} RunsCreatedRun(s: State, steps: seq<Step>)
    requires Inv(s) && RunsCreated(s)
    ensures RunsCreated(Run(s, steps))
    decreases |steps|
  {
    if steps != [] {
      NextKeepsInv(s, steps[0]);
      RunsCreatedNext(s, steps[0]);
      RunsCreatedRun(Next(s, steps[0]), steps[1..]);
    }
  }

  lemma {:induction false} NoRunsOfNew(runs: seq<Firing>, q: int)
    requires forall i :: 0 <= i < |runs| ==> runs[i].sequence < q
    ensures CountRuns(runs, q) == 0
  {
    if runs != [] {
      NoRunsOfNew(runs[..|runs| - 1], q);
    }
  }

  lemma AddWaits(s: State, a: Addr, when: int, callback: nat, interval: int)
    requires Inv(s) && RunsCreated(s) && a !in s.store.heap
    ensures Waits(Next(s, Add(a, when, callback, interval)), a, Timer(callback, when, interval, s.created + 1))
  {
    AddPutsInSet(s, a, when, callback, interval);
    NoRunsOfNew(s.runs, s.created + 1);
  }

  lemma CallNextWaits(s: State, a: Addr, t: Timer)
    requires Inv(s) && Waits(s, a, t) && s.pos < |s.batch|
    ensures Waits(CallNext(s), a, t)
  {
    assert s.batch[s.pos] in s.batch;
    assert CallNext(s).runs[..|s.runs|] == s.runs;
  }

  lemma EndWaits(s: State, now: int, a: Addr, t: Timer)
    requires Inv(s) && Waits(s, a, t) && s.inBatch
    ensures Waits(EndBatch(s, now), a, t)
  {
    ResetAllExactly(s.store, s.canceling, now, s.batch);
    var s' := EndBatch(s, now);
    assert a in s'.store.heap && Get(s'.store.heap, a) == Get(s.store.heap, a);
  }

  lemma NextWaits(s: State, step: Step, a: Addr, t: Timer)
    requires Inv(s) && Waits(s, a, t)
    requires step != Cancel((a, t.sequence)) && (step.Begin? && !s.inBatch ==> step.now < t.expiration)
    ensures Waits(Next(s, step), a, t)
  {
    match step
    case Add(b, when, callback, interval) =>
      if b !in s.store.heap { AddPutsInSet(s, b, when, callback, interval); }
    case CreateElsewhere(n) =>
    case Cancel(id) => CancelExactly(s, id);
    case Begin(now) => if !s.inBatch { ExactExpiry(s, now); }
    case RunNext => if s.inBatch && s.pos < |s.batch| { CallNextWaits(s, a, t); }
    case End(now) => if s.inBatch && s.pos == |s.batch| { EndWaits(s, now, a, t); }
  }

  lemma {:induction false} RunWaits(s: State, steps: seq<Step>, a: Addr, t: Timer)
    requires Inv(s) && Waits(s, a, t) && LeftAlone(s, steps, (a, t.sequence), t.expiration)
    ensures Waits(Run(s, steps), a, t)
    decreases |steps|
  {
    if steps != [] {
      NextKeepsInv(s, steps[0]);
      NextWaits(s, steps[0], a, t);
      RunWaits(Next(s, steps[0]), steps[1..], a, t);
    }
  }

  lemma {:induction false} CountFirings(
    runs: seq<Firing>, heap: map<Addr, Timer>, ts: seq<Addr>, n: nat, k: nat, q: int)
    requires n <= |ts| && k < |ts|
    requires forall i :: 0 <= i < |ts| ==> (Get(heap, ts[i]).sequence == q <==> i == k)
    ensures CountRuns(runs + Firings(heap, ts)[..n], q) == CountRuns(runs, q) + if k < n then 1 else 0
  {
    var all := Firings(heap, ts);
    if n == 0 {
      assert runs + all[..0] == runs;
    } else {
      CountFirings(runs, heap, ts, n - 1, k, q);
      var upTo := runs + all[..n];
      assert upTo[..|upTo| - 1] == runs + all[..n - 1];
      assert upTo[|upTo| - 1] == all[n - 1];
    }
  }

  /** A timer that is due is called once by the batch, with its own callback. */
  lemma DueIsCalled(s: State, heap: map<Addr, Timer>, batch: seq<Addr>, a: Addr, t: Timer)
    requires Distinct(batch) && SequencesUnique(heap) && a in batch && a in heap && heap[a] == t
    requires forall x :: x in batch ==> x in heap
    requires CountRuns(s.runs, t.sequence) == 0
    ensures CountRuns(s.runs + Firings(heap, batch), t.sequence) == 1
    ensures Firing(t.sequence, t.callback) in Firings(heap, batch)
  {
    var k :| 0 <= k < |batch| && batch[k] == a;
    forall i | 0 <= i < |batch|
      ensures Get(heap, batch[i]).sequence == t.sequence <==> i == k
    {
      assert batch[i] in batch;
    }
    CountFirings(s.runs, heap, batch, |batch|, k, t.sequence);
    assert Firings(heap, batch)[..|batch|] == Firings(heap, batch);
    assert Firings(heap, batch)[k] == Firing(t.sequence, t.callback);
  }

  /** A timer fires when it is due and not before: after any run, add a timer; while no batch begins at
      or after `when` and it is not cancelled, whatever else is added, cancelled or run, it has not been
      called. The first batch that begins at or after `when` calls it, once, with its callback. */
  lemma FiresWhenDue(
    before: seq<Step>, a: Addr, when: int, callback: nat, interval: int, waiting: seq<Step>,
    now: int, steps: seq<Step>, now2: int)
    requires a !in Run(INITIAL, before).store.heap
    requires var s := Run(INITIAL, before);
             var added := Next(s, Add(a, when, callback, interval));
             var w := Run(added, waiting);
             && LeftAlone(added, waiting, (a, s.created + 1), when)
             && !w.inBatch && when <= now
             && Run(BeginBatch(w, now), steps).pos == |BeginBatch(w, now).batch|
    requires forall i :: 0 <= i < |steps| ==> !steps[i].End?
    ensures var s := Run(INITIAL, before);
            var q := s.created + 1;
            var w := Run(Next(s, Add(a, when, callback, interval)), waiting);
            var e := Next(Run(BeginBatch(w, now), steps), End(now2));
            && CountRuns(w.runs, q) == 0 && CountRuns(e.runs, q) == 1
            && Firing(q, callback) in e.runs
  {
    hide Next, LeftAlone, BeginBatch, Inv;
    var s := Run(INITIAL, before);
    var added := Next(s, Add(a, when, callback, interval));
    var t := Timer(callback, when, interval, s.created + 1);
    InitialInv();
    RunKeepsInv(INITIAL, before);
    RunsCreatedRun(INITIAL, before);
    AddWaits(s, a, when, callback, interval);
    NextKeepsInv(s, Add(a, when, callback, interval));
    RunWaits(added, waiting, a, t);
    RunKeepsInv(added, waiting);
    DueBatch(Run(added, waiting), a, t, now, steps, now2);
  }

  lemma InitialInv()
    ensures Inv(INITIAL) && RunsCreated(INITIAL)
  {
  }

  lemma DueBatch(w: State, a: Addr, t: Timer, now: int, steps: seq<Step>, now2: int)
    requires Inv(w) && !w.inBatch && Waits(w, a, t) && t.expiration <= now
    requires Run(BeginBatch(w, now), steps).pos == |BeginBatch(w, now).batch|
    requires forall i :: 0 <= i < |steps| ==> !steps[i].End?
    ensures var e := Next(Run(BeginBatch(w, now), steps), End(now2));
            CountRuns(e.runs, t.sequence) == 1 && Firing(t.sequence, t.callback) in e.runs
  {
    var b := BeginBatch(w, now);
    ProcessExpired(w, now, steps, now2);
    ExactExpiry(w, now);
    SortedIsDistinct(w.store.heap, b.batch);
    DueIsCalled(w, w.store.heap, b.batch, a, t);
  }

  // ----- The object ----------------------------------------------------------------------------

  lemma {:induction false} RunAppend(s: State, a: seq<Step>, b: seq<Step>)
    ensures Run(s, a + b) == Run(Run(s, a), b)
    decreases |a|
  {
    if a == [] {
      assert a + b == b;
    } else {
      assert (a + b)[1..] == a[1..] + b;
      RunAppend(Next(s, a[0]), a[1..], b);
    }
  }

  lemma RunOne(s: State, step: Step)
    ensures Run(s, [step]) == Next(s, step)
  {
    assert [step][1..] == [];
  }

  /** The first `n` callbacks, the i-th of which makes the calls `calls(i)`. */
  function Script(calls: nat -> seq<Step>, n: nat): seq<Step> {
    if n == 0 then [] else Script(calls, n - 1) + [RunNext] + calls(n - 1)
  }

  lemma RunPrefix(start: State, steps: seq<Step>, i: nat)
    requires i < |steps|
    ensures Run(start, steps[..i + 1]) == Next(Run(start, steps[..i]), steps[i])
  {
    assert steps[..i + 1] == steps[..i] + [steps[i]];
    RunAppend(start, steps[..i], [steps[i]]);
    RunOne(Run(start, steps[..i]), steps[i]);
  }

  lemma RunScript(begun: State, calls: nat -> seq<Step>, i: nat)
    ensures Run(begun, Script(calls, i + 1)) == Run(Next(Run(begun, Script(calls, i)), RunNext), calls(i))
  {
    RunAppend(begun, Script(calls, i), [RunNext]);
    RunOne(Run(begun, Script(calls, i)), RunNext);
    RunAppend(begun, Script(calls, i) + [RunNext], calls(i));
  }

  /** What a callback, or any code between batches, may do to the manager. */
  predicate IsCall(step: Step) {
    step.Add? || step.CreateElsewhere? || step.Cancel?
  }

  lemma {:induction false} IdsSnoc(heap: map<Addr, Timer>, ts: seq<Addr>, i: nat)
    requires i < |ts|
    ensures Ids(heap, ts[..i + 1]) == Ids(heap, ts[..i]) + {(ts[i], Get(heap, ts[i]).sequence)}
  {
    var t, u := ts[..i], ts[..i + 1];
    forall id | id in Ids(heap, u)
      ensures id in Ids(heap, t) + {(ts[i], Get(heap, ts[i]).sequence)}
    {
      var k :| 0 <= k < |u| && id == (u[k], Get(heap, u[k]).sequence);
      assert k < i ==> id == (t[k], Get(heap, t[k]).sequence);
    }
    forall id | id in Ids(heap, t)
      ensures id in Ids(heap, u)
    {
      var k :| 0 <= k < |t| && id == (t[k], Get(heap, t[k]).sequence);
      assert id == (u[k], Get(heap, u[k]).sequence);
    }
    assert u[i] == ts[i];
  }

  lemma NoIds(heap: map<Addr, Timer>, ts: seq<Addr>)
    requires ts == []
    ensures Ids(heap, ts) == {}
  {
  }

  /** The manager's own fields; `heap` is the part of the process heap that holds timers. */
  class Manager {
    var heap: map<Addr, Timer>
    var timers: seq<Addr>
    var activeTimers: set<TimerId>
    var callingExpiredTimers: bool
    var cancelingTimers: set<TimerId>
    var numCreated: nat
    ghost var fault: bool
    ghost var inBatch: bool
    ghost var batch: seq<Addr>
    ghost var pos: nat
    ghost var issued: set<TimerId>
    ghost var runs: seq<Firing>

    ghost function StoreOf(): Store
      reads this
    {
      Store(heap, timers, activeTimers, fault)
    }

    ghost function Abs(): State
      reads this
    {
      State(StoreOf(), inBatch, batch, pos, callingExpiredTimers, cancelingTimers, numCreated, issued, runs)
    }

    constructor ()
      ensures Abs() == INITIAL
    {
      heap, timers, activeTimers, callingExpiredTimers := map[], [], {}, false;
      cancelingTimers, numCreated, fault, inBatch, batch, pos, issued, runs := {}, 0, false, false, [], 0, {}, [];
    }

    /** `new Timer` at address `a`, chosen by the allocator. */
    method AddTimer(a: Addr, when: int, callback: nat, interval: int) returns (id: TimerId)
      requires a !in heap
      modifies this
      ensures Abs() == Next(old(Abs()), Add(a, when, callback, interval))
      ensures id == (a, numCreated) && id in issued && numCreated == old(numCreated) + 1
      ensures heap == old(heap)[a := heap[a]] && a in heap
      ensures heap[a].expiration == when && heap[a].callback == callback && heap[a].sequence == id.1
      ensures heap[a].interval == interval && (heap[a].Repeat() <==> interval > 0)
      ensures activeTimers == old(activeTimers) + {id} && runs == old(runs)
    {
      numCreated := numCreated + 1;
      heap := heap[a := Timer(callback, when, interval, numCreated)];
      AddTimerInLoop(a);
      id := (a, numCreated);
      issued := issued + {id};
    }

    method AddTimerInLoop(a: Addr)
      modifies this`timers, this`activeTimers, this`fault
      ensures StoreOf() == Scheduled(old(StoreOf()), a)
    {
      fault := fault || a !in heap || !AllLive(heap, timers);
      timers := Insert(heap, timers, a);
      activeTimers := activeTimers + {(a, Get(heap, a).sequence)};
    }

    method Cancel(id: TimerId)
      modifies this
      ensures Abs() == Next(old(Abs()), Step.Cancel(id))
      ensures heap == old(heap) - if id in old(activeTimers) then {id.0} else {}
      ensures cancelingTimers == old(cancelingTimers)
                + if id !in old(activeTimers) && callingExpiredTimers then {id} else {}
      ensures callingExpiredTimers == old(callingExpiredTimers) && runs == old(runs)
    {
      if id in activeTimers {
        fault := fault || id.0 !in heap || !AllLive(heap, timers);
        timers := Erase(heap, timers, id.0);
        activeTimers := activeTimers - {(id.0, Get(heap, id.0).sequence)};
        heap := heap - {id.0};
      } else if callingExpiredTimers {
        cancelingTimers := cancelingTimers + {id};
      }
    }

    method GetExpiredTimers(now: int) returns (expired: seq<Addr>)
      modifies this`timers, this`activeTimers, this`numCreated, this`fault
      ensures var begun := BeginBatch(old(Abs()), now);
              expired == begun.batch && StoreOf() == begun.store && numCreated == begun.created
    {
      hide LowerBound, Ids;
      numCreated := numCreated + 1;
      var sentry := Timer(0, now, 0, numCreated);
      var end := LowerBound(heap, timers, sentry);
      fault := fault || !AllLive(heap, timers);
      expired := [];
      var i := 0;
      while i < end
        invariant 0 <= i <= end <= |timers|
        invariant expired == timers[..i]
      {
        expired := expired + [timers[i]];
        i := i + 1;
      }
      timers := timers[end..];
      ghost var before := activeTimers;
      i := 0;
      assert Ids(heap, expired[..0]) == {} by { NoIds(heap, expired[..0]); }
      while i < |expired|
        invariant 0 <= i <= |expired|
        invariant activeTimers == before - Ids(heap, expired[..i])
        invariant timers == old(timers)[end..] && numCreated == old(numCreated) + 1
        invariant fault == (old(fault) || !AllLive(heap, old(timers)))
      {
        IdsSnoc(heap, expired, i);
        activeTimers := activeTimers - {(expired[i], Get(heap, expired[i]).sequence)};
        i := i + 1;
      }
      assert expired[..|expired|] == expired;
    }

    method ResetTimers(expired: seq<Addr>, now: int)
      modifies this`heap, this`timers, this`activeTimers, this`fault, this`cancelingTimers
      ensures StoreOf() == ResetAll(old(StoreOf()), old(cancelingTimers), now, expired)
      ensures cancelingTimers == {}
    {
      var i := 0;
      while i < |expired|
        invariant 0 <= i <= |expired|
        invariant ResetAll(StoreOf(), cancelingTimers, now, expired[i..])
               == ResetAll(old(StoreOf()), cancelingTimers, now, expired)
        invariant cancelingTimers == old(cancelingTimers)
      {
        var a := expired[i];
        fault := fault || a !in heap;
        var t := Get(heap, a);
        if (a, t.sequence) !in cancelingTimers && t.Repeat() {
          heap := heap[a := t.Restart(now)];
          AddTimerInLoop(a);
        } else {
          heap := heap - {a};
        }
        assert expired[i..][1..] == expired[i + 1..];
        i := i + 1;
      }
      cancelingTimers := {};
    }

    /** One call made by a callback. */
    method Perform(call: Step)
      requires IsCall(call)
      modifies this
      ensures Abs() == Next(old(Abs()), call)
      ensures inBatch == old(inBatch) && batch == old(batch) && pos == old(pos)
    {
      match call
      case Add(a, when, callback, interval) =>
        if a !in heap {
          var _ := AddTimer(a, when, callback, interval);
        }
      case CreateElsewhere(n) => numCreated := numCreated + n;
      case Cancel(id) => Cancel(id);
    }

    method PerformAll(calls: seq<Step>)
      requires forall i :: 0 <= i < |calls| ==> IsCall(calls[i])
      modifies this
      ensures Abs() == Run(old(Abs()), calls)
      ensures inBatch == old(inBatch) && batch == old(batch) && pos == old(pos)
    {
      var i := 0;
      while i < |calls|
        invariant 0 <= i <= |calls|
        invariant Abs() == Run(old(Abs()), calls[..i])
        invariant inBatch == old(inBatch) && batch == old(batch) && pos == old(pos)
      {
        RunPrefix(old(Abs()), calls, i);
        Perform(calls[i]);
        i := i + 1;
      }
      assert calls[..|calls|] == calls;
    }

    /** The callback of one timer of the batch. */
    method RunTimer(a: Addr, calls: seq<Step>)
      requires inBatch && pos < |batch| && batch[pos] == a
      requires forall i :: 0 <= i < |calls| ==> IsCall(calls[i])
      modifies this
      ensures Abs() == Run(Next(old(Abs()), RunNext), calls)
      ensures inBatch && batch == old(batch) && pos == old(pos) + 1
    {
      fault := fault || a !in heap;
      runs := runs + [FiringOf(Get(heap, a))];
      pos := pos + 1;
      PerformAll(calls);
    }

    /** `now` and `now2` are the two readings of the clock. */
    method ProcessExpiredTimers(now: int, calls: nat -> seq<Step>, now2: int)
      requires !inBatch
      requires forall n: nat, i :: 0 <= i < |calls(n)| ==> IsCall(calls(n)[i])
      modifies this
      ensures var begun := BeginBatch(old(Abs()), now);
              Abs() == Next(Run(begun, Script(calls, |begun.batch|)), End(now2))
    {
      var expired := StartBatch(now);
      RunBatch(expired, calls, Abs());
      FinishBatch(expired, now2);
    }

    method StartBatch(now: int) returns (expired: seq<Addr>)
      requires !inBatch
      modifies this
      ensures Abs() == BeginBatch(old(Abs()), now)
      ensures expired == batch && inBatch && pos == 0
    {
      expired := GetExpiredTimers(now);
      callingExpiredTimers := true;
      cancelingTimers := {};
      inBatch, batch, pos := true, expired, 0;
    }

    method FinishBatch(expired: seq<Addr>, now: int)
      requires inBatch && expired == batch && pos == |batch|
      modifies this
      ensures Abs() == Next(old(Abs()), End(now))
    {
      callingExpiredTimers := false;
      ResetTimers(expired, now);
      inBatch, batch, pos := false, [], 0;
    }

    method RunBatch(expired: seq<Addr>, calls: nat -> seq<Step>, ghost begun: State)
      requires inBatch && batch == expired && pos == 0 && Abs() == begun
      requires forall n: nat, i :: 0 <= i < |calls(n)| ==> IsCall(calls(n)[i])
      modifies this
      ensures Abs() == Run(begun, Script(calls, |expired|))
      ensures inBatch && batch == expired && pos == |expired|
    {
      assert Run(begun, Script(calls, 0)) == begun;
      hide Run, Script, Next;
      var i := 0;
      while i < |expired|
        invariant 0 <= i <= |expired|
        invariant Abs() == Run(begun, Script(calls, i))
        invariant inBatch && batch == expired && pos == i
      {
        RunScript(begun, calls, i);
        RunTimer(expired[i], calls(i));
        i := i + 1;
      }
    }
  }
}
