/** The timing wheel: one list of timers per slot, each with a count of full turns to wait,
    refined to a plain table from timer id to remaining ticks.
  */
module TimerWheel {

  const UINT32: int := 0x1_0000_0000

  /** A node of a slot's list; the callback is the id itself here. */
  datatype Entry = Entry(id: int, rounds: int)

  datatype Config = Config(tickMs: int, size: int) {
    /** Positive, as the divisions by both demand, and 32 bits wide. */
    predicate Valid() { 0 < tickMs < UINT32 && 0 < size < UINT32 }
  }

  /** `ids` is the id map, whose iterators are determined by the id; `fired` is the log of
      callbacks and `cancelled` the ids for which `cancel` returned true. */
  datatype State = State(
    cur: int,
    time: int,
    wheel: seq<seq<Entry>>,
    ids: map<int, int>,
    nextId: int,
    fired: seq<int>,
    cancelled: set<int>)

  function Initial(c: Config, now: int): State
    requires c.Valid()
  {
    State(0, now, seq(c.size, i => []), map[], 1, [], {})
  }

  function Ticks(c: Config, timeoutMs: int): int
    requires c.Valid()
  {
    if timeoutMs < c.tickMs then 1 else timeoutMs / c.tickMs
  }

  /** The sum is a uint32. */
  function SlotFor(c: Config, cur: int, ticks: int): int
    requires c.Valid()
  {
    ((cur + ticks) % UINT32) % c.size
  }

  /** `push_back` on a slot's list, and the new id in the map. */
  function AddEntry(s: State, slot: int, rounds: int): State
    requires 0 <= slot < |s.wheel|
  {
    s.(wheel := s.wheel[slot := s.wheel[slot] + [Entry(s.nextId, rounds)]],
       ids := s.ids[s.nextId := slot],
       nextId := s.nextId + 1)
  }

  function AddTimer(c: Config, s: State, timeoutMs: int): State
    requires c.Valid() && |s.wheel| == c.size
  {
    AddEntry(s, SlotFor(c, s.cur, Ticks(c, timeoutMs)), Ticks(c, timeoutMs) / c.size)
  }

  function Without(es: seq<Entry>, id: int): seq<Entry> {
    if es == [] then []
    else if es[0].id == id then es[1..]
    else [es[0]] + Without(es[1..], id)
  }

  predicate SlotOk(s: State, id: int) {
    id in s.ids && 0 <= s.ids[id] < |s.wheel|
  }

  function Cancel(s: State, id: int): State {
    if !SlotOk(s, id) then s
    else
      s.(wheel := s.wheel[s.ids[id] := Without(s.wheel[s.ids[id]], id)],
         ids := s.ids - {id},
         cancelled := s.cancelled + {id})
  }

  /** The entries of a list that stay for another turn, and the ids of those that fire. */
  function Kept(es: seq<Entry>): seq<Entry> {
    if es == [] then []
    else
      var last := es[|es| - 1];
      Kept(es[..|es| - 1]) + if last.rounds > 0 then [last.(rounds := last.rounds - 1)] else []
  }

  function Due(es: seq<Entry>): seq<int> {
    if es == [] then []
    else
      var last := es[|es| - 1];
      Due(es[..|es| - 1]) + if last.rounds > 0 then [] else [last.id]
  }

  function IdSet(ids: seq<int>): set<int> {
    set id | id in ids
  }

  function Tick(c: Config, s: State): State
    requires c.Valid()
  {
    if !(0 <= s.cur < |s.wheel|) then s
    else
      var due := Due(s.wheel[s.cur]);
      s.(time := s.time + c.tickMs,
         wheel := s.wheel[s.cur := Kept(s.wheel[s.cur])],
         ids := s.ids - IdSet(due),
         fired := s.fired + due,
         cur := (s.cur + 1) % c.size)
  }

  datatype Step = AddStep(timeoutMs: int) | CancelStep(id: int) | TickStep

  function Next(c: Config, s: State, step: Step): State
    requires c.Valid()
  {
    match step
    case AddStep(timeoutMs) => if |s.wheel| == c.size then AddTimer(c, s, timeoutMs) else s
    case CancelStep(id) => Cancel(s, id)
    case TickStep => Tick(c, s)
  }

  function Run(c: Config, s: State, steps: seq<Step>): State
    requires c.Valid()
    decreases |steps|
  {
    if steps == [] then s else Run(c, Next(c, s, steps[0]), steps[1..])
  }

  // ----- Invariant -------------------------------------------------------------------------

  predicate Ascending(es: seq<Entry>) {
    forall i, j :: 0 <= i < j < |es| ==> es[i].id < es[j].id
  }

  predicate HasId(es: seq<Entry>, id: int) {
    es != [] && (es[0].id == id || HasId(es[1..], id))
  }

  /** The id map and the slot lists are in bijection. */
  ghost predicate Bijection(s: State) {
    && (forall k :: 0 <= k < |s.wheel| ==> Ascending(s.wheel[k]))
    && (forall id :: id in s.ids ==> 0 <= s.ids[id] < |s.wheel| && HasId(s.wheel[s.ids[id]], id))
    && (forall k, id :: 0 <= k < |s.wheel| && HasId(s.wheel[k], id) ==> id in s.ids && s.ids[id] == k)
  }

  predicate DistinctInts(xs: seq<int>) {
    forall i, j :: 0 <= i < j < |xs| ==> xs[i] != xs[j]
  }

  /** Every id ever issued is in exactly one of pending, fired (once) and cancelled. */
  ghost predicate Partition(s: State) {
    && 1 <= s.nextId
    && (forall id :: 1 <= id < s.nextId <==> id in s.ids || id in s.fired || id in s.cancelled)
    && (forall id :: id in s.ids ==> id !in s.fired && id !in s.cancelled)
    && (forall id :: id in s.fired ==> id !in s.cancelled)
    && DistinctInts(s.fired)
  }

  predicate RoundsNonNegative(es: seq<Entry>) {
    forall i :: 0 <= i < |es| ==> es[i].rounds >= 0
  }

  ghost predicate Inv(c: Config, s: State) {
    && c.Valid() && |s.wheel| == c.size && 0 <= s.cur < c.size
    && Bijection(s) && Partition(s)
    && (forall k :: 0 <= k < |s.wheel| ==> RoundsNonNegative(s.wheel[k]))
  }

  lemma {:induction false} HasIdAt(es: seq<Entry>, i: nat)
    requires i < |es|
    ensures HasId(es, es[i].id)
  {
    if i > 0 {
      HasIdAt(es[1..], i - 1);
    }
  }

  lemma {:induction false} HasIdIndex(es: seq<Entry>, id: int) returns (i: nat)
    requires HasId(es, id)
    ensures i < |es| && es[i].id == id
  {
    if es[0].id == id {
      i := 0;
    } else {
      i := HasIdIndex(es[1..], id);
      i := i + 1;
    }
  }

  /** The turns that the entry of `id` still waits; -1 if there is none. */
  function Rounds(es: seq<Entry>, id: int): int {
    if es == [] then -1 else if es[0].id == id then es[0].rounds else Rounds(es[1..], id)
  }

  lemma {:induction false} Snoc(es: seq<Entry>, e: Entry, id: int)
    ensures HasId(es + [e], id) <==> HasId(es, id) || id == e.id
    ensures Rounds(es + [e], id) == if HasId(es, id) then Rounds(es, id) else if e.id == id then e.rounds else -1
  {
    if es == [] {
      assert es + [e] == [e] && [e][1..] == [];
    } else {
      assert (es + [e])[1..] == es[1..] + [e];
      Snoc(es[1..], e, id);
    }
  }

  lemma {:induction false} RoundsNonNegativeIff(es: seq<Entry>, id: int)
    requires RoundsNonNegative(es)
    ensures Rounds(es, id) >= 0 <==> HasId(es, id)
  {
    if es != [] {
      RoundsNonNegativeIff(es[1..], id);
    }
  }

  /** All ids of a list are larger than that of its first entry. */
  lemma HeadIsLeast(es: seq<Entry>, id: int)
    requires es != [] && Ascending(es) && HasId(es[1..], id)
    ensures es[0].id < id
  {
    var i := HasIdIndex(es[1..], id);
    assert es[i + 1].id == id;
  }

  lemma LastIsGreatest(es: seq<Entry>, id: int)
    requires es != [] && Ascending(es) && HasId(es[..|es| - 1], id)
    ensures id < es[|es| - 1].id
  {
    var i := HasIdIndex(es[..|es| - 1], id);
    assert es[i].id == id;
  }

  lemma {:induction false} WithoutKeeps(es: seq<Entry>, id: int, x: int)
    requires Ascending(es)
    ensures HasId(Without(es, id), x) <==> HasId(es, x) && x != id
    ensures x != id ==> Rounds(Without(es, id), x) == Rounds(es, x)
  {
    if es != [] {
      if es[0].id == id {
        if HasId(es[1..], id) {
          HeadIsLeast(es, id);
        }
      } else {
        WithoutKeeps(es[1..], id, x);
        assert ([es[0]] + Without(es[1..], id))[1..] == Without(es[1..], id);
      }
    }
  }

  lemma {:induction false} WithoutAscends(es: seq<Entry>, id: int)
    requires Ascending(es)
    ensures Ascending(Without(es, id))
    ensures RoundsNonNegative(es) ==> RoundsNonNegative(Without(es, id))
  {
    if es != [] && es[0].id != id {
      var rest := Without(es[1..], id);
      WithoutAscends(es[1..], id);
      forall i | 0 <= i < |rest|
        ensures es[0].id < rest[i].id
      {
        HasIdAt(rest, i);
        WithoutKeeps(es[1..], id, rest[i].id);
        HeadIsLeast(es, rest[i].id);
      }
    }
  }

  /** What one sweep of a slot does to one id: an entry on its last turn fires, any other loses a
      turn. */
  lemma {:induction false} SweepId(es: seq<Entry>, id: int)
    requires Ascending(es) && RoundsNonNegative(es)
    ensures HasId(Kept(es), id) <==> HasId(es, id) && Rounds(es, id) > 0
    ensures HasId(Kept(es), id) ==> Rounds(Kept(es), id) == Rounds(es, id) - 1
    ensures id in Due(es) <==> HasId(es, id) && Rounds(es, id) == 0
  {
    if es != [] {
      var init, last := es[..|es| - 1], es[|es| - 1];
      assert es == init + [last];
      Snoc(init, last, id);
      SweepId(init, id);
      if HasId(init, id) {
        LastIsGreatest(es, id);
      }
      Snoc(Kept(init), last.(rounds := last.rounds - 1), id);
      assert Kept(init) + [] == Kept(init);
    }
  }

  predicate AscendingInts(xs: seq<int>) {
    forall i, j :: 0 <= i < j < |xs| ==> xs[i] < xs[j]
  }

  lemma KeptBelow(es: seq<Entry>, init: seq<Entry>)
    requires Ascending(es) && es != [] && init == es[..|es| - 1] && RoundsNonNegative(init)
    ensures forall i :: 0 <= i < |Kept(init)| ==> Kept(init)[i].id < es[|es| - 1].id
  {
    hide Kept, HasId, RoundsNonNegative;
    forall i | 0 <= i < |Kept(init)|
      ensures Kept(init)[i].id < es[|es| - 1].id
    {
      HasIdAt(Kept(init), i);
      SweepId(init, Kept(init)[i].id);
      LastIsGreatest(es, Kept(init)[i].id);
    }
  }

  lemma DueBelow(es: seq<Entry>, init: seq<Entry>)
    requires Ascending(es) && es != [] && init == es[..|es| - 1] && RoundsNonNegative(init)
    ensures forall i :: 0 <= i < |Due(init)| ==> Due(init)[i] < es[|es| - 1].id
  {
    hide Due, HasId, RoundsNonNegative;
    forall i | 0 <= i < |Due(init)|
      ensures Due(init)[i] < es[|es| - 1].id
    {
      assert Due(init)[i] in Due(init);
      SweepId(init, Due(init)[i]);
      LastIsGreatest(es, Due(init)[i]);
    }
  }

  /** A sweep goes in list order, which is id order. */
  lemma {:induction false} SweepAscends(es: seq<Entry>)
    requires Ascending(es) && RoundsNonNegative(es)
    ensures Ascending(Kept(es)) && RoundsNonNegative(Kept(es)) && AscendingInts(Due(es))
  {
    if es != [] {
      var init := es[..|es| - 1];
      SweepAscends(init);
      KeptBelow(es, init);
      DueBelow(es, init);
    }
  }

  // ----- Arithmetic ----------------------------------------------------------------------------

  /** `n` added up `r` times. */
  function Times(n: int, r: int): int
    decreases r
  {
    if r <= 0 then 0 else n + Times(n, r - 1)
  }

  lemma {:induction false} TimesIsProduct(n: int, r: int)
    requires r >= 0
    ensures Times(n, r) == n * r
  {
    if r > 0 {
      TimesIsProduct(n, r - 1);
      assert n * r == n * (r - 1) + n;
    }
  }

  lemma {:induction false} TimesGrows(n: int, r: int, q: int)
    requires n > 0 && 0 <= r < q
    ensures Times(n, r) + n <= Times(n, q)
    decreases q
  {
    if r < q - 1 {
      TimesGrows(n, r, q - 1);
    }
  }

  lemma MulAtLeast(n: int, k: int)
    requires n > 0 && k >= 1
    ensures n * k >= n
  {
  }

  lemma ModUnique(x: int, n: int, q: int, r: int)
    requires n > 0 && 0 <= r < n && x == n * q + r
    ensures x % n == r && x / n == q
  {
    var d := q - x / n;
    assert n * d == x % n - r;
    if d >= 1 {
      MulAtLeast(n, d);
    } else if d <= -1 {
      MulAtLeast(n, -d);
    }
  }

  lemma ModSum(x: int, y: int, n: int)
    requires n > 0
    ensures (x + y) % n == if x % n + y % n < n then x % n + y % n else x % n + y % n - n
  {
    var q, r := x / n + y / n, x % n + y % n;
    assert n * q == n * (x / n) + n * (y / n);
    if r < n {
      ModUnique(x + y, n, q, r);
    } else {
      assert n * (q + 1) == n * q + n;
      ModUnique(x + y, n, q + 1, r - n);
    }
  }

  lemma ModSmall(x: int, n: int)
    requires 0 <= x < n
    ensures x % n == x
  {
    ModUnique(x, n, 0, x);
  }

  // ----- The countdown table -----------------------------------------------------------------

  /** Ticks until `cur` reaches `slot`. */
  function Distance(c: Config, slot: int, cur: int): int {
    if slot >= cur then slot - cur else slot - cur + c.size
  }

  /** What the wheel says of a pending timer: the way round to its slot, and the full turns. */
  function Remaining(c: Config, s: State, id: int): int {
    if SlotOk(s, id) then Distance(c, s.ids[id], s.cur) + Times(c.size, Rounds(s.wheel[s.ids[id]], id)) else -1
  }

  /** In other words, ((slot - cur) mod size) + size * rounds. */
  lemma RemainingFormula(c: Config, s: State, id: int)
    requires Inv(c, s) && id in s.ids
    ensures Remaining(c, s, id) == (s.ids[id] - s.cur) % c.size + c.size * Rounds(s.wheel[s.ids[id]], id)
  {
    var slot := s.ids[id];
    RoundsNonNegativeIff(s.wheel[slot], id);
    TimesIsProduct(c.size, Rounds(s.wheel[slot], id));
    if slot >= s.cur {
      ModUnique(slot - s.cur, c.size, 0, slot - s.cur);
    } else {
      ModUnique(slot - s.cur, c.size, -1, slot - s.cur + c.size);
    }
  }

  /** The plain table that the wheel refines. */
  function Table(c: Config, s: State): map<int, int> {
    map id | id in s.ids :: Remaining(c, s, id)
  }

  /** Whether the uint32 sum in `addTimer` finds the right slot. */
  predicate SumFits(c: Config, s: State, timeoutMs: int)
    requires c.Valid()
  {
    s.cur + Ticks(c, timeoutMs) < UINT32 || UINT32 % c.size == 0
  }

  /** (cur + k) mod size is k mod size further round than cur. */
  lemma SlotDistance(c: Config, cur: int, k: int)
    requires c.Valid() && 0 <= cur < c.size && k >= 0
    ensures Distance(c, (cur + k) % c.size, cur) == k % c.size
  {
    ModSmall(cur, c.size);
    ModSum(cur, k, c.size);
  }

  lemma WrappedSlotIff(c: Config, x: int)
    requires c.Valid() && UINT32 <= x < 2 * UINT32
    ensures (x % UINT32) % c.size == x % c.size <==> UINT32 % c.size == 0
  {
    ModUnique(x, UINT32, 1, x - UINT32);
    ModSum(x - UINT32, UINT32, c.size);
  }

  /** Exactly when a new timer gets the number of ticks that was asked for: `addTimer` adds it
      to the table with `Ticks` ticks remaining if and only if the 32-bit sum does not wrap, or
      wraps harmlessly because the wheel size divides 2^32. */
  lemma AddRemainsIff(c: Config, s: State, timeoutMs: int)
    requires Inv(c, s) && 0 <= timeoutMs < UINT32
    ensures Remaining(c, AddTimer(c, s, timeoutMs), s.nextId) == Ticks(c, timeoutMs) <==> SumFits(c, s, timeoutMs)
  {
    var k := Ticks(c, timeoutMs);
    TicksBounds(c, timeoutMs);
    SlotBounds(c, s.cur, k);
    AddEntryRemaining(c, s, SlotFor(c, s.cur, k), k / c.size);
    TimesIsProduct(c.size, k / c.size);
    SlotForIff(c, s.cur, k);
  }

  lemma SlotBounds(c: Config, cur: int, k: int)
    requires c.Valid() && k >= 0
    ensures 0 <= SlotFor(c, cur, k) < c.size && k / c.size >= 0
    ensures k == c.size * (k / c.size) + k % c.size
  {
    if k / c.size < 0 {
      MulAtLeast(c.size, -(k / c.size));
    }
  }

  lemma AddEntryRemaining(c: Config, s: State, slot: int, rounds: int)
    requires Inv(c, s) && 0 <= slot < c.size
    ensures Remaining(c, AddEntry(s, slot, rounds), s.nextId) == Distance(c, slot, s.cur) + Times(c.size, rounds)
  {
    NewIdIsNew(c, s, slot);
    Snoc(s.wheel[slot], Entry(s.nextId, rounds), s.nextId);
  }

  lemma SlotForIff(c: Config, cur: int, k: int)
    requires c.Valid() && 0 <= cur < c.size && 1 <= k < UINT32
    ensures Distance(c, SlotFor(c, cur, k), cur) == k % c.size <==> cur + k < UINT32 || UINT32 % c.size == 0
  {
    SlotDistance(c, cur, k);
    SlotBounds(c, cur, k);
    ModUnique(cur + k, c.size, (cur + k) / c.size, (cur + k) % c.size);
    if cur + k < UINT32 {
      ModSmall(cur + k, UINT32);
    } else {
      WrappedSlotIff(c, cur + k);
    }
  }

  lemma TicksBounds(c: Config, timeoutMs: int)
    requires c.Valid() && 0 <= timeoutMs < UINT32
    ensures 1 <= Ticks(c, timeoutMs) < UINT32
    ensures timeoutMs >= c.tickMs ==> timeoutMs - c.tickMs < c.tickMs * Ticks(c, timeoutMs) <= timeoutMs
  {
    if timeoutMs >= c.tickMs {
      QuotientBounds(timeoutMs, c.tickMs);
    }
  }

  lemma MulNonNegative(x: int, y: int)
    requires x >= 0 && y >= 0
    ensures x * y >= 0
  {
  }

  lemma QuotientBounds(x: int, n: int)
    requires 0 < n <= x
    ensures x - n < n * (x / n) <= x && 1 <= x / n <= x
  {
    var q := x / n;
    assert x == n * q + x % n;
    assert q >= 1 by {
      if q <= 0 {
        MulNonNegative(n, -q);
      }
    }
    MulNonNegative(n - 1, q);
    assert (n - 1) * q == n * q - q;
  }

  lemma NewIdIsNew(c: Config, s: State, slot: int)
    requires Inv(c, s) && 0 <= slot < |s.wheel|
    ensures s.nextId !in s.ids && !HasId(s.wheel[slot], s.nextId)
    ensures forall i :: 0 <= i < |s.wheel[slot]| ==> s.wheel[slot][i].id < s.nextId
  {
    forall i | 0 <= i < |s.wheel[slot]|
      ensures s.wheel[slot][i].id < s.nextId
    {
      HasIdAt(s.wheel[slot], i);
      assert s.wheel[slot][i].id in s.ids;
    }
  }

  // ----- Every operation keeps the invariant and refines the table -----------------------------

  lemma AddEntryKeepsPartition(c: Config, s: State, slot: int, rounds: int)
    requires Inv(c, s) && 0 <= slot < c.size
    ensures Partition(AddEntry(s, slot, rounds))
  {
    var s' := AddEntry(s, slot, rounds);
    NewIdIsNew(c, s, slot);
    assert s.nextId >= 1;
    forall id
      ensures 1 <= id < s'.nextId <==> id in s'.ids || id in s'.fired || id in s'.cancelled
    {
      assert 1 <= id < s.nextId <==> id in s.ids || id in s.fired || id in s.cancelled;
    }
  }

  lemma AddEntryKeepsInv(c: Config, s: State, slot: int, rounds: int)
    requires Inv(c, s) && 0 <= slot < c.size && rounds >= 0
    ensures Inv(c, AddEntry(s, slot, rounds))
  {
    NewIdIsNew(c, s, slot);
    forall id
      ensures HasId(s.wheel[slot] + [Entry(s.nextId, rounds)], id) <==> HasId(s.wheel[slot], id) || id == s.nextId
    {
      Snoc(s.wheel[slot], Entry(s.nextId, rounds), id);
    }
    AddEntryKeepsPartition(c, s, slot, rounds);
  }

  lemma AddKeepsInv(c: Config, s: State, timeoutMs: int)
    requires Inv(c, s) && 0 <= timeoutMs < UINT32
    ensures Inv(c, AddTimer(c, s, timeoutMs))
  {
    TicksBounds(c, timeoutMs);
    SlotBounds(c, s.cur, Ticks(c, timeoutMs));
    AddEntryKeepsInv(c, s, SlotFor(c, s.cur, Ticks(c, timeoutMs)), Ticks(c, timeoutMs) / c.size);
  }

  lemma AddEntryRefines(c: Config, s: State, slot: int, rounds: int)
    requires Inv(c, s) && 0 <= slot < c.size
    ensures var s' := AddEntry(s, slot, rounds);
            && Table(c, s') == Table(c, s)[s.nextId := Remaining(c, s', s.nextId)]
            && s.nextId !in Table(c, s)
  {
    var s' := AddEntry(s, slot, rounds);
    NewIdIsNew(c, s, slot);
    forall id | id in s.ids
      ensures id != s.nextId && Remaining(c, s', id) == Remaining(c, s, id)
    {
      if s.ids[id] == slot {
        Snoc(s.wheel[slot], Entry(s.nextId, rounds), id);
      }
    }
  }

  /** An add puts one new timer into the table and leaves the others alone. */
  lemma AddRefines(c: Config, s: State, timeoutMs: int)
    requires Inv(c, s) && 0 <= timeoutMs < UINT32
    ensures var s' := AddTimer(c, s, timeoutMs);
            && Table(c, s') == Table(c, s)[s.nextId := Remaining(c, s', s.nextId)]
            && s.nextId !in Table(c, s)
  {
    TicksBounds(c, timeoutMs);
    SlotBounds(c, s.cur, Ticks(c, timeoutMs));
    AddEntryRefines(c, s, SlotFor(c, s.cur, Ticks(c, timeoutMs)), Ticks(c, timeoutMs) / c.size);
  }

  lemma CancelKeepsInv(c: Config, s: State, id: int)
    requires Inv(c, s)
    ensures Inv(c, Cancel(s, id))
  {
    if id in s.ids {
      var list := s.wheel[s.ids[id]];
      WithoutAscends(list, id);
      forall x
        ensures HasId(Without(list, id), x) <==> HasId(list, x) && x != id
      {
        WithoutKeeps(list, id, x);
      }
    }
  }

  /** `cancel` removes that one timer from the table, and nothing if it is not pending. */
  lemma CancelRefines(c: Config, s: State, id: int)
    requires Inv(c, s)
    ensures Table(c, Cancel(s, id)) == Table(c, s) - {id}
    ensures id in Table(c, s) <==> Cancel(s, id) != s
    ensures Cancel(s, id).fired == s.fired
  {
    hide Without, HasId, Rounds, Times, Distance;
    if id in s.ids {
      forall x | x in s.ids && x != id
        ensures Remaining(c, Cancel(s, id), x) == Remaining(c, s, x)
      {
        WithoutKeeps(s.wheel[s.ids[id]], id, x);
      }
    }
  }

  lemma NextSlot(c: Config, cur: int)
    requires c.Valid() && 0 <= cur < c.size
    ensures (cur + 1) % c.size == if cur + 1 == c.size then 0 else cur + 1
  {
    if cur + 1 == c.size {
      ModUnique(cur + 1, c.size, 1, 0);
    } else {
      ModSmall(cur + 1, c.size);
    }
  }

  lemma DueMeansZero(c: Config, s: State, id: int)
    requires Inv(c, s)
    ensures id in Due(s.wheel[s.cur]) <==> id in s.ids && Remaining(c, s, id) == 0
    ensures id in s.ids ==> Remaining(c, s, id) >= 0
  {
    SweepId(s.wheel[s.cur], id);
    if id in s.ids {
      var r := Rounds(s.wheel[s.ids[id]], id);
      RoundsNonNegativeIff(s.wheel[s.ids[id]], id);
      if r > 0 {
        TimesGrows(c.size, 0, r);
      }
    }
  }

  lemma TickMoves(c: Config, s: State, k: int, id: int)
    requires Inv(c, s) && 0 <= k < |s.wheel|
    ensures HasId(Tick(c, s).wheel[k], id) <==> HasId(s.wheel[k], id) && id !in Due(s.wheel[s.cur])
    ensures id in Due(s.wheel[s.cur]) ==> id in s.ids && s.ids[id] == s.cur
  {
    SweepId(s.wheel[s.cur], id);
    RoundsNonNegativeIff(s.wheel[s.cur], id);
    if HasId(s.wheel[k], id) && id in Due(s.wheel[s.cur]) {
      assert s.ids[id] == k && s.ids[id] == s.cur;
    }
  }

  lemma TickKeepsMap(c: Config, s: State, id: int)
    requires Inv(c, s) && id in Tick(c, s).ids
    ensures var s' := Tick(c, s);
            0 <= s'.ids[id] < |s'.wheel| && HasId(s'.wheel[s'.ids[id]], id)
  {
    TickMoves(c, s, s.ids[id], id);
  }

  lemma TickKeepsEntry(c: Config, s: State, k: int, id: int)
    requires Inv(c, s) && 0 <= k < |s.wheel| && HasId(Tick(c, s).wheel[k], id)
    ensures id in Tick(c, s).ids && Tick(c, s).ids[id] == k
  {
    TickMoves(c, s, k, id);
  }

  lemma TickKeepsBijection(c: Config, s: State)
    requires Inv(c, s)
    ensures Bijection(Tick(c, s))
  {
    hide HasId, Kept, Due, IdSet;
    var s' := Tick(c, s);
    SweepAscends(s.wheel[s.cur]);
    forall id | id in s'.ids
      ensures 0 <= s'.ids[id] < |s'.wheel| && HasId(s'.wheel[s'.ids[id]], id)
    {
      TickKeepsMap(c, s, id);
    }
    forall k, id | 0 <= k < |s'.wheel| && HasId(s'.wheel[k], id)
      ensures id in s'.ids && s'.ids[id] == k
    {
      TickKeepsEntry(c, s, k, id);
    }
  }

  lemma AppendDistinct(a: seq<int>, b: seq<int>)
    requires DistinctInts(a) && AscendingInts(b) && forall x :: x in b ==> x !in a
    ensures DistinctInts(a + b)
  {
    forall i, j | 0 <= i < j < |a + b|
      ensures (a + b)[i] != (a + b)[j]
    {
      if i < |a| <= j {
        assert (a + b)[j] in b && (a + b)[i] in a;
      }
    }
  }

  lemma TickFires(c: Config, s: State, id: int)
    requires Inv(c, s)
    ensures id in Due(s.wheel[s.cur]) ==> id in s.ids
    ensures id in Tick(c, s).fired <==> id in s.fired || id in Due(s.wheel[s.cur])
    ensures id in Tick(c, s).ids <==> id in s.ids && id !in Due(s.wheel[s.cur])
  {
    SweepId(s.wheel[s.cur], id);
  }

  lemma TickKeepsPartition(c: Config, s: State)
    requires Inv(c, s)
    ensures Partition(Tick(c, s))
  {
    hide HasId, Kept, Due, IdSet;
    var s' := Tick(c, s);
    SweepAscends(s.wheel[s.cur]);
    forall id
      ensures 1 <= id < s'.nextId <==> id in s'.ids || id in s'.fired || id in s'.cancelled
      ensures id in s'.ids ==> id !in s'.fired && id !in s'.cancelled
      ensures id in s'.fired ==> id !in s'.cancelled
    {
      TickFires(c, s, id);
    }
    forall id | id in Due(s.wheel[s.cur])
      ensures id !in s.fired
    {
      TickFires(c, s, id);
    }
    AppendDistinct(s.fired, Due(s.wheel[s.cur]));
  }

  lemma TickKeepsInv(c: Config, s: State)
    requires Inv(c, s)
    ensures Inv(c, Tick(c, s))
  {
    NextSlot(c, s.cur);
    TickKeepsBijection(c, s);
    SweepAscends(s.wheel[s.cur]);
    TickKeepsPartition(c, s);
  }

  lemma TimerElsewhere(c: Config, s: State, id: int)
    requires Inv(c, s) && id in s.ids && s.ids[id] != s.cur
    ensures Remaining(c, Tick(c, s), id) == Remaining(c, s, id) - 1
  {
    TickFires(c, s, id);
    SweepId(s.wheel[s.cur], id);
    NextSlot(c, s.cur);
    assert Tick(c, s).wheel[s.ids[id]] == s.wheel[s.ids[id]];
  }

  lemma TimerHere(c: Config, s: State, id: int)
    requires Inv(c, s) && id in s.ids && s.ids[id] == s.cur && Rounds(s.wheel[s.cur], id) != 0
    ensures Remaining(c, Tick(c, s), id) == Remaining(c, s, id) - 1
  {
    TickFires(c, s, id);
    SweepId(s.wheel[s.cur], id);
    RoundsNonNegativeIff(s.wheel[s.cur], id);
    NextSlot(c, s.cur);
    assert Tick(c, s).wheel[s.cur] == Kept(s.wheel[s.cur]);
  }

  lemma RemainingAfterTick(c: Config, s: State, id: int)
    requires Inv(c, s) && id in s.ids && Remaining(c, s, id) != 0
    ensures Remaining(c, Tick(c, s), id) == Remaining(c, s, id) - 1
  {
    if s.ids[id] == s.cur {
      TimerHere(c, s, id);
    } else {
      TimerElsewhere(c, s, id);
    }
  }

  lemma TableAfterTick(c: Config, s: State)
    requires Inv(c, s)
    ensures var t := Table(c, s);
            Table(c, Tick(c, s)) == (map id | id in t && t[id] != 0 :: t[id] - 1)
  {
    hide Remaining, Kept, Due, HasId;
    var s' := Tick(c, s);
    forall id
      ensures id in s'.ids <==> id in s.ids && Remaining(c, s, id) != 0
      ensures id in s'.ids ==> Remaining(c, s', id) == Remaining(c, s, id) - 1
    {
      DueMeansZero(c, s, id);
      if id in s.ids && Remaining(c, s, id) != 0 {
        RemainingAfterTick(c, s, id);
      }
    }
  }

  /** A tick fires exactly the timers with no ticks remaining, in id order, and takes one tick off
      all the others. */
  lemma TickRefines(c: Config, s: State)
    requires Inv(c, s)
    ensures var s' := Tick(c, s);
            var t := Table(c, s);
            && Table(c, s') == (map id | id in t && t[id] != 0 :: t[id] - 1)
            && s'.fired == s.fired + Due(s.wheel[s.cur])
            && AscendingInts(Due(s.wheel[s.cur]))
            && (forall id :: id in Due(s.wheel[s.cur]) <==> id in t && t[id] == 0)
            && s'.time == s.time + c.tickMs
  {
    SweepAscends(s.wheel[s.cur]);
    TableAfterTick(c, s);
    forall id
      ensures id in Due(s.wheel[s.cur]) <==> id in s.ids && Remaining(c, s, id) == 0
    {
      DueMeansZero(c, s, id);
    }
  }

  predicate Sane(steps: seq<Step>) {
    forall i :: 0 <= i < |steps| && steps[i].AddStep? ==> 0 <= steps[i].timeoutMs < UINT32
  }

  lemma NextKeepsInv(c: Config, s: State, step: Step)
    requires Inv(c, s) && (step.AddStep? ==> 0 <= step.timeoutMs < UINT32)
    ensures Inv(c, Next(c, s, step))
  {
    match step
    case AddStep(timeoutMs) => AddKeepsInv(c, s, timeoutMs);
    case CancelStep(id) => CancelKeepsInv(c, s, id);
    case TickStep => TickKeepsInv(c, s);
  }

  lemma {:induction false} RunKeepsInv(c: Config, s: State, steps: seq<Step>)
    requires Inv(c, s) && Sane(steps)
    ensures Inv(c, Run(c, s, steps))
    decreases |steps|
  {
    if steps != [] {
      NextKeepsInv(c, s, steps[0]);
      RunKeepsInv(c, Next(c, s, steps[0]), steps[1..]);
    }
  }

  lemma InitialInv(c: Config, now: int)
    requires c.Valid()
    ensures Inv(c, Initial(c, now))
  {
  }

  /** Over every run: the id map and the slot lists are in bijection, and every id ever issued is
      in exactly one of pending, fired once, and cancelled. */
  lemma Bookkeeping(c: Config, now: int, steps: seq<Step>)
    requires c.Valid() && Sane(steps)
    ensures Bijection(Run(c, Initial(c, now), steps)) && Partition(Run(c, Initial(c, now), steps))
  {
    InitialInv(c, now);
    RunKeepsInv(c, Initial(c, now), steps);
  }

  // ----- When a timer fires ---------------------------------------------------------------------

  function TickCount(steps: seq<Step>): nat {
    if steps == [] then 0 else (if steps[0].TickStep? then 1 else 0) + TickCount(steps[1..])
  }

  lemma TickRemaining(c: Config, s: State, id: int)
    requires Inv(c, s) && id in s.ids
    ensures var s' := Tick(c, s);
            if Remaining(c, s, id) > 0 then id in s'.ids && Remaining(c, s', id) == Remaining(c, s, id) - 1
            else Remaining(c, s, id) == 0 && id in s'.fired
  {
    DueMeansZero(c, s, id);
    if Remaining(c, s, id) != 0 {
      RemainingAfterTick(c, s, id);
    }
  }

  lemma NextRemaining(c: Config, s: State, step: Step, id: int)
    requires Inv(c, s) && id in s.ids && step != CancelStep(id) && !step.TickStep?
    requires step.AddStep? ==> 0 <= step.timeoutMs < UINT32
    ensures var s' := Next(c, s, step);
            id in s'.ids && Remaining(c, s', id) == Remaining(c, s, id)
  {
    var s' := Next(c, s, step);
    match step
    case AddStep(timeoutMs) =>
      AddRefines(c, s, timeoutMs);
      assert id in Table(c, s) && Table(c, s')[id] == Table(c, s)[id];
    case CancelStep(other) =>
      CancelRefines(c, s, other);
      assert id in Table(c, s) - {other} && Table(c, s')[id] == Table(c, s)[id];
  }

  /** A pending timer with r ticks remaining that is not cancelled counts down to zero and fires
      on exactly the (r + 1)-th later tick. */
  lemma {:induction false} CountsDown(c: Config, s: State, steps: seq<Step>, id: int)
    requires Inv(c, s) && Sane(steps) && id in s.ids && CancelStep(id) !in steps
    ensures var s' := Run(c, s, steps);
            var r := Remaining(c, s, id) - TickCount(steps);
            if r >= 0 then id in s'.ids && id !in s'.fired && Remaining(c, s', id) == r
            else id in s'.fired && id !in s'.ids
    decreases |steps|
  {
    if steps != [] {
      var n := Next(c, s, steps[0]);
      NextKeepsInv(c, s, steps[0]);
      if steps[0].TickStep? {
        TickRemaining(c, s, id);
      } else {
        NextRemaining(c, s, steps[0], id);
      }
      if id in n.ids {
        CountsDown(c, n, steps[1..], id);
      } else {
        FiredStaysFired(c, n, steps[1..], id);
        assert Remaining(c, s, id) - TickCount(steps) < 0;
      }
    } else {
      DueMeansZero(c, s, id);
    }
  }

  lemma {:induction false} FiredStaysFired(c: Config, s: State, steps: seq<Step>, id: int)
    requires Inv(c, s) && Sane(steps) && id in s.fired
    ensures id in Run(c, s, steps).fired && id !in Run(c, s, steps).ids
    decreases |steps|
  {
    if steps != [] {
      NextKeepsInv(c, s, steps[0]);
      FiredStaysFired(c, Next(c, s, steps[0]), steps[1..], id);
    }
  }

  lemma {:induction false} TimeCountsTicks(c: Config, s: State, steps: seq<Step>)
    requires Inv(c, s) && Sane(steps)
    ensures Run(c, s, steps).time == s.time + Times(c.tickMs, TickCount(steps))
    decreases |steps|
  {
    if steps != [] {
      NextKeepsInv(c, s, steps[0]);
      TimeCountsTicks(c, Next(c, s, steps[0]), steps[1..]);
    }
  }

  /** The wheel time after which a timer fires. */
  function Delay(c: Config, timeoutMs: int): int
    requires c.Valid()
  {
    Times(c.tickMs, Ticks(c, timeoutMs) + 1)
  }

  /** It is more than the timeout and at most one tick more; a timeout of less than a tick takes
      exactly two ticks. */
  lemma DelayBounds(c: Config, timeoutMs: int)
    requires c.Valid() && 0 <= timeoutMs < UINT32
    ensures timeoutMs >= c.tickMs ==> timeoutMs < Delay(c, timeoutMs) <= timeoutMs + c.tickMs
    ensures timeoutMs < c.tickMs ==> Delay(c, timeoutMs) == 2 * c.tickMs
  {
    TicksBounds(c, timeoutMs);
    TimesIsProduct(c.tickMs, Ticks(c, timeoutMs));
  }

  lemma TimesOrder(n: int, x: int, y: int)
    requires n > 0 && x >= 0 && y >= 0
    ensures x >= y <==> Times(n, x) >= Times(n, y)
  {
    if x < y {
      TimesGrows(n, x, y);
    } else if y < x {
      TimesGrows(n, y, x);
    }
  }

  /** A timer whose slot sum fits and that is not cancelled has fired, after any further run,
      exactly if its delay has passed on the wheel's clock; until then it is pending. */
  lemma FiresAfterDelay(c: Config, s: State, timeoutMs: int, steps: seq<Step>)
    requires Inv(c, s) && 0 <= timeoutMs < UINT32 && SumFits(c, s, timeoutMs)
    requires Sane(steps) && CancelStep(s.nextId) !in steps
    ensures var s' := Run(c, AddTimer(c, s, timeoutMs), steps);
            && (s.nextId in s'.fired <==> s'.time - s.time >= Delay(c, timeoutMs))
            && (s.nextId in s'.ids <==> s'.time - s.time < Delay(c, timeoutMs))
  {
    var a, k := AddTimer(c, s, timeoutMs), Ticks(c, timeoutMs);
    TicksBounds(c, timeoutMs);
    AddKeepsInv(c, s, timeoutMs);
    AddRemainsIff(c, s, timeoutMs);
    AddRefines(c, s, timeoutMs);
    assert s.nextId in Table(c, a) && a.time == s.time;
    CountsDown(c, a, steps, s.nextId);
    TimeCountsTicks(c, a, steps);
    TimesOrder(c.tickMs, TickCount(steps), k + 1);
  }

  lemma IdSetSnoc(ids: seq<int>, id: int)
    ensures IdSet(ids + [id]) == IdSet(ids) + {id}
  {
  }

  lemma EraseId(timerMap: map<int, int>, ids: seq<int>, id: int)
    ensures timerMap - IdSet(ids) - {id} == timerMap - IdSet(ids + [id])
  {
    IdSetSnoc(ids, id);
  }

  /** One iteration of the sweep, seen on the list alone. */
  lemma SweepStep(list: seq<Entry>, seen: nat)
    requires seen < |list|
    ensures var done := Kept(list[..seen]);
            var now, e := done + list[seen..], list[seen];
            var after := Kept(list[..seen + 1]) + list[seen + 1..];
            && now[|done|] == e
            && (e.rounds > 0 ==>
                  && now[|done| := e.(rounds := e.rounds - 1)] == after
                  && |Kept(list[..seen + 1])| == |done| + 1 && Due(list[..seen + 1]) == Due(list[..seen]))
            && (e.rounds <= 0 ==>
                  && now[..|done|] + now[|done| + 1..] == after
                  && |Kept(list[..seen + 1])| == |done| && Due(list[..seen + 1]) == Due(list[..seen]) + [e.id])
  {
    assert list[..seen + 1][..seen] == list[..seen];
    assert Kept(list[..seen]) + [] == Kept(list[..seen]);
    assert Due(list[..seen]) + [] == Due(list[..seen]);
  }

  /** The loop of `tick` over a slot's list: an entry with turns left loses one and is stepped
      over, a due one is erased from the map and from the list before its callback runs. */
  method SweepList(list: seq<Entry>, timerMap: map<int, int>)
    returns (slot: seq<Entry>, ids: map<int, int>, calls: seq<int>)
    ensures slot == Kept(list) && calls == Due(list) && ids == timerMap - IdSet(Due(list))
  {
    ghost var seen := 0;
    var it := 0;
    slot, ids, calls := list, timerMap, [];
    assert list[..0] == [] && Kept([]) + list[0..] == list && IdSet(Due([])) == {};
    while it < |slot|
      invariant 0 <= seen <= |list| && it == |Kept(list[..seen])|
      invariant slot == Kept(list[..seen]) + list[seen..]
      invariant calls == Due(list[..seen])
      invariant ids == timerMap - IdSet(Due(list[..seen]))
      decreases |list| - seen
    {
      hide Kept, Due, IdSet;
      SweepStep(list, seen);
      assert slot[it] == list[seen];
      if slot[it].rounds > 0 {
        slot := slot[it := slot[it].(rounds := slot[it].rounds - 1)];
        it := it + 1;
      } else {
        var id := slot[it].id;
        EraseId(timerMap, Due(list[..seen]), id);
        ids := ids - {id};
        slot := slot[..it] + slot[it + 1..];
        calls := calls + [id];
      }
      seen := seen + 1;
    }
    assert list[..seen] == list && list[seen..] == [];
  }

  // ----- The object ----------------------------------------------------------------------------

  class Wheel {
    const config: Config
    var currentSlot: int
    var currentTime: int
    var slots: seq<seq<Entry>>
    var timerMap: map<int, int>
    var nextTimerId: int
    var fired: seq<int>
    ghost var cancelled: set<int>

    ghost function Abs(): State
      reads this
    {
      State(currentSlot, currentTime, slots, timerMap, nextTimerId, fired, cancelled)
    }

    ghost predicate Valid()
      reads this
    {
      Inv(config, Abs())
    }

    constructor (tickMs: int, wheelSize: int, now: int)
      requires Config(tickMs, wheelSize).Valid()
      ensures Valid() && config == Config(tickMs, wheelSize) && Abs() == Initial(config, now)
    {
      config := Config(tickMs, wheelSize);
      currentSlot, currentTime, timerMap, nextTimerId := 0, now, map[], 1;
      slots := seq(wheelSize, i => []);
      fired, cancelled := [], {};
      new;
      InitialInv(config, now);
    }

    /** Which slot a new timer goes to, and for how many full turns it waits there. */
    method Place(timeoutMs: int) returns (slot: int, rounds: int)
      requires config.Valid() && 0 <= timeoutMs < UINT32
      ensures slot == SlotFor(config, currentSlot, Ticks(config, timeoutMs)) && 0 <= slot < config.size
      ensures rounds == Ticks(config, timeoutMs) / config.size
      ensures var ticks := if timeoutMs < config.tickMs then 1 else timeoutMs / config.tickMs;
              slot == (currentSlot + ticks) % 0x1_0000_0000 % config.size && rounds == ticks / config.size
    {
      TicksBounds(config, timeoutMs);
      SlotBounds(config, currentSlot, Ticks(config, timeoutMs));
      var ticks := timeoutMs / config.tickMs;
      if timeoutMs < config.tickMs {
        ticks := 1;
      }
      rounds := ticks / config.size;
      slot := ((currentSlot + ticks) % UINT32) % config.size;
    }

    method AddTimer(timeoutMs: int) returns (id: int)
      requires Valid() && 0 <= timeoutMs < UINT32
      modifies this
      ensures Valid() && Abs() == Next(config, old(Abs()), AddStep(timeoutMs))
      ensures id == old(nextTimerId) && nextTimerId == id + 1
      ensures var ticks := if timeoutMs < config.tickMs then 1 else timeoutMs / config.tickMs;
              var slot := (old(currentSlot) + ticks) % 0x1_0000_0000 % config.size;
              && 0 <= slot < |old(slots)| && timerMap == old(timerMap)[id := slot]
              && slots == old(slots)[slot := old(slots)[slot] + [Entry(id, ticks / config.size)]]
      ensures currentSlot == old(currentSlot) && currentTime == old(currentTime) && fired == old(fired)
    {
      AddKeepsInv(config, Abs(), timeoutMs);
      assert |slots| == config.size && config.Valid();
      hide Inv, SlotFor, Ticks;
      id := nextTimerId;
      nextTimerId := nextTimerId + 1;
      var slot, rounds := Place(timeoutMs);
      slots := slots[slot := slots[slot] + [Entry(id, rounds)]];
      timerMap := timerMap[id := slot];
    }

    method Cancel(id: int) returns (ok: bool)
      requires Valid()
      modifies this
      ensures Valid() && Abs() == Next(config, old(Abs()), CancelStep(id))
      ensures ok <==> id in old(timerMap)
      ensures timerMap == old(timerMap) - {id} && cancelled == old(cancelled) + if ok then {id} else {}
      ensures fired == old(fired) && currentSlot == old(currentSlot) && currentTime == old(currentTime)
      ensures Table(config, Abs()) == old(Table(config, Abs())) - {id}
    {
      CancelKeepsInv(config, Abs(), id);
      CancelRefines(config, Abs(), id);
      if id !in timerMap {
        return false;
      }
      var slot := timerMap[id];
      slots := slots[slot := Without(slots[slot], id)];
      timerMap := timerMap - {id};
      cancelled := cancelled + {id};
      return true;
    }

    method AdvanceSlot()
      requires config.Valid() && 0 <= currentSlot < config.size
      modifies this`currentSlot
      ensures currentSlot == (old(currentSlot) + 1) % config.size
      ensures currentSlot == if old(currentSlot) + 1 == config.size then 0 else old(currentSlot) + 1
    {
      NextSlot(config, currentSlot);
      currentSlot := (currentSlot + 1) % config.size;
    }

    method Tick()
      requires Valid()
      modifies this
      ensures Valid() && Abs() == Next(config, old(Abs()), TickStep)
      ensures currentTime == old(currentTime) + config.tickMs
      ensures currentSlot == if old(currentSlot) + 1 == config.size then 0 else old(currentSlot) + 1
      ensures nextTimerId == old(nextTimerId) && cancelled == old(cancelled)
    {
      hide Kept, Due, IdSet, Inv;
      TickKeepsInv(config, Abs());
      currentTime := currentTime + config.tickMs;
      var slot, ids, calls := SweepList(slots[currentSlot], timerMap);
      slots := slots[currentSlot := slot];
      timerMap := ids;
      fired := fired + calls;
      AdvanceSlot();
    }
  }
}
