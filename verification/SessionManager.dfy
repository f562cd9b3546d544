/** Sessions and the two secondary indexes over them, by player id and by role id.

    The two sides behave alike, so the theory is about one `Side`: which key each live session has
    (0 when it has none), and the index from keys to sessions. The manager's operations act on both
    sides or on one.
  */
module SessionManager {
  import opened Options

  type SessionId = int
  type Key = int

  datatype Side = Side(keys: map<SessionId, Key>, index: map<Key, SessionId>)

  datatype State = State(next: SessionId, players: Side, roles: Side)

  const EMPTY := Side(map[], map[])
  const INITIAL := State(0, EMPTY, EMPTY)

  datatype Step =
    | Create
    | Remove(id: SessionId)
    | BindPlayer(id: SessionId, key: Key)
    | BindRole(id: SessionId, key: Key)
    | UnbindPlayer(key: Key)
    | UnbindRole(key: Key)

  // ----- One side ---------------------------------------------------------------------------------

  function Removed(s: Side, id: SessionId): Side {
    if id !in s.keys then s
    else if s.keys[id] > 0 then Side(s.keys - {id}, s.index - {s.keys[id]})
    else Side(s.keys - {id}, s.index)
  }

  /** A bind is refused for an unknown session and for a key that is indexed to another one. */
  predicate Accepts(s: Side, id: SessionId, key: Key) {
    id in s.keys && (key in s.index ==> s.index[key] == id)
  }

  function Bound(s: Side, id: SessionId, key: Key): Side {
    if Accepts(s, id, key) then Side(s.keys[id := key], s.index[key := id]) else s
  }

  function Unbound(s: Side, key: Key): Side {
    if key !in s.index then s
    else if s.index[key] in s.keys then Side(s.keys[s.index[key] := 0], s.index - {key})
    else Side(s.keys, s.index - {key})
  }

  /** `getSessionByPlayerId` and `getSessionByRoleId`. */
  function Lookup(s: Side, key: Key): Option<SessionId> {
    if key in s.index && s.index[key] in s.keys then Some(s.index[key]) else None
  }

  // ----- The manager ------------------------------------------------------------------------------

  function Next(s: State, step: Step): State {
    match step
    case Create =>
      State(s.next + 1,
            s.players.(keys := s.players.keys[s.next + 1 := 0]),
            s.roles.(keys := s.roles.keys[s.next + 1 := 0]))
    case Remove(id) => s.(players := Removed(s.players, id), roles := Removed(s.roles, id))
    case BindPlayer(id, key) => s.(players := Bound(s.players, id, key))
    case BindRole(id, key) => s.(roles := Bound(s.roles, id, key))
    case UnbindPlayer(key) => s.(players := Unbound(s.players, key))
    case UnbindRole(key) => s.(roles := Unbound(s.roles, key))
  }

  function Run(s: State, steps: seq<Step>): State
    decreases |steps|
  {
    if steps == [] then s else Run(Next(s, steps[0]), steps[1..])
  }

  // ----- Invariant --------------------------------------------------------------------------------

  /** Every live session is found under its key; no index entry is newer than the last id. */
  predicate Indexed(s: Side, next: SessionId) {
    && (forall id :: id in s.keys && s.keys[id] > 0 ==> s.keys[id] in s.index && s.index[s.keys[id]] == id)
    && (forall id :: id in s.keys ==> id <= next)
    && (forall key :: key in s.index ==> s.index[key] <= next)
  }

  predicate Inv(s: State) {
    && Indexed(s.players, s.next)
    && Indexed(s.roles, s.next)
    && s.players.keys.Keys == s.roles.keys.Keys
  }

  lemma CreatedKeepsIndexed(s: Side, next: SessionId)
    requires Indexed(s, next)
    ensures Indexed(s.(keys := s.keys[next + 1 := 0]), next + 1)
  {
  }

  lemma RemovedKeepsIndexed(s: Side, next: SessionId, id: SessionId)
    requires Indexed(s, next)
    ensures Indexed(Removed(s, id), next)
  {
  }

  lemma BoundKeepsIndexed(s: Side, next: SessionId, id: SessionId, key: Key)
    requires Indexed(s, next)
    ensures Indexed(Bound(s, id, key), next)
  {
  }

  lemma UnboundKeepsIndexed(s: Side, next: SessionId, key: Key)
    requires Indexed(s, next)
    ensures Indexed(Unbound(s, key), next)
  {
  }

  lemma NextKeepsInv(s: State, step: Step)
    requires Inv(s)
    ensures Inv(Next(s, step))
  {
    match step {
      case Create =>
        CreatedKeepsIndexed(s.players, s.next);
        CreatedKeepsIndexed(s.roles, s.next);
      case Remove(id) =>
        RemovedKeepsIndexed(s.players, s.next, id);
        RemovedKeepsIndexed(s.roles, s.next, id);
      case BindPlayer(id, key) => BoundKeepsIndexed(s.players, s.next, id, key);
      case BindRole(id, key) => BoundKeepsIndexed(s.roles, s.next, id, key);
      case UnbindPlayer(key) => UnboundKeepsIndexed(s.players, s.next, key);
      case UnbindRole(key) => UnboundKeepsIndexed(s.roles, s.next, key);
    }
  }

  lemma {:induction false} RunKeepsInv(s: State, steps: seq<Step>)
    requires Inv(s)
    ensures Inv(Run(s, steps))
    decreases |steps|
  {
    if steps != [] {
      NextKeepsInv(s, steps[0]);
      RunKeepsInv(Next(s, steps[0]), steps[1..]);
    }
  }

  // ----- Theorems ---------------------------------------------------------------------------------

  /** Whatever the operations were, a live session bound to a positive player id is the one found for
      that player, so two live sessions never share a player. */
  lemma LiveSessionFound(steps: seq<Step>, id: SessionId)
    ensures var s := Run(INITIAL, steps).players;
            id in s.keys && s.keys[id] > 0 ==> Lookup(s, s.keys[id]) == Some(id)
    ensures var s := Run(INITIAL, steps).roles;
            id in s.keys && s.keys[id] > 0 ==> Lookup(s, s.keys[id]) == Some(id)
  {
    RunKeepsInv(INITIAL, steps);
  }

  lemma NoSharedKey(steps: seq<Step>, which: Which, a: SessionId, b: SessionId)
    ensures var s := SideOf(Run(INITIAL, steps), which);
            a in s.keys && b in s.keys && s.keys[a] == s.keys[b] > 0 ==> a == b
  {
    LiveSessionFound(steps, a);
    LiveSessionFound(steps, b);
  }

  lemma DeadStep(s: State, id: SessionId, step: Step)
    requires Inv(s) && id <= s.next && id !in s.players.keys
    ensures var n := Next(s, step);
            id <= n.next && id !in n.players.keys && id !in n.roles.keys
  {
  }

  /** Session ids are never reused: once removed, a session stays removed. */
  lemma {:induction false} RemovedForGood(s: State, id: SessionId, steps: seq<Step>)
    requires Inv(s) && id <= s.next && id !in s.players.keys
    ensures id !in Run(s, steps).players.keys
    decreases |steps|
  {
    if steps != [] {
      DeadStep(s, id, steps[0]);
      NextKeepsInv(s, steps[0]);
      RemovedForGood(Next(s, steps[0]), id, steps[1..]);
    }
  }

  /** The player side or the role side, and the step that unbinds a key there. */
  datatype Which = Players | Roles

  function SideOf(s: State, which: Which): Side {
    if which.Players? then s.players else s.roles
  }

  function UnbindStep(which: Which, key: Key): Step {
    if which.Players? then UnbindPlayer(key) else UnbindRole(key)
  }

  predicate Unbinds(steps: seq<Step>, which: Which, key: Key) {
    exists i :: 0 <= i < |steps| && steps[i] == UnbindStep(which, key)
  }

  lemma UnbindsLater(steps: seq<Step>, which: Which, key: Key)
    requires steps != [] && !Unbinds(steps, which, key)
    ensures steps[0] != UnbindStep(which, key) && !Unbinds(steps[1..], which, key)
  {
    forall i | 0 <= i < |steps[1..]|
      ensures steps[1..][i] != UnbindStep(which, key)
    {
      assert steps[1..][i] == steps[i + 1];
    }
  }

  /** An entry left behind for a removed session: the key is reported online but not found, and
      cannot be bound to any session. */
  predicate Leftover(s: Side, key: Key) {
    key in s.index && s.index[key] !in s.keys
  }

  lemma LeftoverStep(s: State, which: Which, key: Key, step: Step)
    requires Inv(s) && Leftover(SideOf(s, which), key) && step != UnbindStep(which, key)
    ensures Leftover(SideOf(Next(s, step), which), key)
  {
    DeadStep(s, SideOf(s, which).index[key], step);
    match step {
      case BindPlayer(id, k) => assert which.Players? && k == key ==> !Accepts(s.players, id, k);
      case BindRole(id, k) => assert which.Roles? && k == key ==> !Accepts(s.roles, id, k);
      case _ =>
    }
  }

  /** A leftover entry never resolves to a newer session, and only unbinding that player or role id
      ends it: until then every bind of it is refused. */
  lemma {:induction false} LeftoverBlocks(s: State, which: Which, key: Key, steps: seq<Step>, id: SessionId)
    requires Inv(s) && Leftover(SideOf(s, which), key) && !Unbinds(steps, which, key)
    ensures var n := SideOf(Run(s, steps), which);
            Lookup(n, key) == None && !Accepts(n, id, key)
    decreases |steps|
  {
    if steps != [] {
      UnbindsLater(steps, which, key);
      LeftoverStep(s, which, key, steps[0]);
      NextKeepsInv(s, steps[0]);
      LeftoverBlocks(Next(s, steps[0]), which, key, steps[1..], id);
    }
  }

  function BindStep(which: Which, id: SessionId, key: Key): Step {
    if which.Players? then BindPlayer(id, key) else BindRole(id, key)
  }

  /** How one arises: a session bound to one key and then to another keeps both entries, and its
      removal erases the second only. */
  lemma RebindLeavesLeftover(s: State, which: Which, p: Key, q: Key)
    requires Inv(s) && 0 < p && 0 < q && p != q
    requires p !in SideOf(s, which).index && q !in SideOf(s, which).index
    ensures var id := s.next + 1;
            var n := Next(Next(Next(Next(s, Create), BindStep(which, id, p)), BindStep(which, id, q)), Remove(id));
            Leftover(SideOf(n, which), p) && q !in SideOf(n, which).index
  {
  }

  /** What unbinding is for: the key is free, the live session that had it has none, and any live session
      can be bound to it. Nothing else changes, on this side or the other. */
  lemma UnbindFrees(s: State, which: Which, key: Key, id: SessionId)
    ensures var o := SideOf(s, which);
            var n := SideOf(Next(s, UnbindStep(which, key)), which);
            && key !in n.index && Lookup(n, key) == None
            && n.index == o.index - {key} && n.keys.Keys == o.keys.Keys
            && (forall x :: x in o.keys ==> n.keys[x] == if Lookup(o, key) == Some(x) then 0 else o.keys[x])
    ensures var bound := SideOf(Next(Next(s, UnbindStep(which, key)), BindStep(which, id, key)), which);
            id in SideOf(s, which).keys ==> Lookup(bound, key) == Some(id) && bound.keys[id] == key
    ensures var other := if which.Players? then Roles else Players;
            SideOf(Next(s, UnbindStep(which, key)), other) == SideOf(s, other)
  {
  }

  /** Whose session a key is indexed to. */
  function Entry(s: Side, key: Key): Option<SessionId> {
    if key in s.index then Some(s.index[key]) else None
  }

  /** How a step changes the entry of a key: a bind of a free key to a live session puts the session
      there; an unbind of the key, and the removal of the session that has it, empty it. */
  function EntryAfter(o: Side, which: Which, key: Key, entry: Option<SessionId>, step: Step): Option<SessionId> {
    if step == UnbindStep(which, key) then None
    else if step.Remove? && 0 < key && step.id in o.keys && o.keys[step.id] == key then None
    else if Binds(which, step) && step.key == key && step.id in o.keys && entry == None then Some(step.id)
    else entry
  }

  predicate Binds(which: Which, step: Step) {
    if which.Players? then step.BindPlayer? else step.BindRole?
  }

  function EntryIn(
    s: State, which: Which, key: Key, entry: Option<SessionId>, steps: seq<Step>): Option<SessionId>
    decreases |steps|
  {
    if steps == [] then entry
    else EntryIn(Next(s, steps[0]), which, key, EntryAfter(SideOf(s, which), which, key, entry, steps[0]), steps[1..])
  }

  lemma EntryStep(s: State, which: Which, key: Key, step: Step)
    ensures var o := SideOf(s, which);
            Entry(SideOf(Next(s, step), which), key) == EntryAfter(o, which, key, Entry(o, key), step)
  {
  }

  /** After any run the entry of a key is what the steps say: the session it was last bound to while
      free, unless that was undone since. */
  lemma {:induction false} EntriesOfRun(s: State, which: Which, key: Key, steps: seq<Step>)
    ensures Entry(SideOf(Run(s, steps), which), key)
         == EntryIn(s, which, key, Entry(SideOf(s, which), key), steps)
    decreases |steps|
  {
    if steps != [] {
      hide Next, EntryAfter, Entry, SideOf;
      EntryStep(s, which, key, steps[0]);
      EntriesOfRun(Next(s, steps[0]), which, key, steps[1..]);
    }
  }

  // ----- Exact indexes ----------------------------------------------------------------------------

  /** The index is the inverse of the keys: an entry for each bound session and no other. */
  predicate Exact(s: Side) {
    && (forall id :: id in s.keys && s.keys[id] != 0
          ==> s.keys[id] > 0 && s.keys[id] in s.index && s.index[s.keys[id]] == id)
    && (forall key :: key in s.index
          ==> key > 0 && s.index[key] in s.keys && s.keys[s.index[key]] == key)
  }

  /** The binds a caller has to avoid: of a key that is not positive, and of a session that has
      another key. */
  predicate Careless(s: Side, id: SessionId, key: Key) {
    id in s.keys && (key <= 0 || (s.keys[id] != 0 && s.keys[id] != key))
  }

  lemma BoundExactIff(s: Side, id: SessionId, key: Key)
    requires Exact(s)
    ensures Exact(Bound(s, id, key)) <==> !Accepts(s, id, key) || !Careless(s, id, key)
  {
    var n := Bound(s, id, key);
    if Accepts(s, id, key) && Careless(s, id, key) {
      assert n.index[key] == id && n.keys[id] == key;
      if key > 0 {
        var previous := s.keys[id];
        assert previous in n.index && n.index[previous] == id;
      }
    }
  }

  lemma RemovedKeepsExact(s: Side, id: SessionId)
    requires Exact(s)
    ensures Exact(Removed(s, id))
  {
  }

  lemma UnboundKeepsExact(s: Side, key: Key)
    requires Exact(s)
    ensures Exact(Unbound(s, key))
  {
  }

  predicate CarelessStep(s: State, step: Step) {
    match step
    case BindPlayer(id, key) => Accepts(s.players, id, key) && Careless(s.players, id, key)
    case BindRole(id, key) => Accepts(s.roles, id, key) && Careless(s.roles, id, key)
    case _ => false
  }

  predicate BothExact(s: State) {
    Exact(s.players) && Exact(s.roles)
  }

  /** Exactly which steps break the bijection between bound sessions and index entries. */
  lemma NextExactIff(s: State, step: Step)
    requires Inv(s) && BothExact(s)
    ensures BothExact(Next(s, step)) <==> !CarelessStep(s, step)
  {
    match step {
      case Create =>
      case Remove(id) =>
        RemovedKeepsExact(s.players, id);
        RemovedKeepsExact(s.roles, id);
      case BindPlayer(id, key) => BoundExactIff(s.players, id, key);
      case BindRole(id, key) => BoundExactIff(s.roles, id, key);
      case UnbindPlayer(key) => UnboundKeepsExact(s.players, key);
      case UnbindRole(key) => UnboundKeepsExact(s.roles, key);
    }
  }

  predicate Careful(s: State, steps: seq<Step>)
    decreases |steps|
  {
    steps == [] || (!CarelessStep(s, steps[0]) && Careful(Next(s, steps[0]), steps[1..]))
  }

  lemma {:induction false} CarefulRunExact(s: State, steps: seq<Step>)
    requires Inv(s) && BothExact(s) && Careful(s, steps)
    ensures BothExact(Run(s, steps))
    decreases |steps|
  {
    if steps != [] {
      NextExactIff(s, steps[0]);
      NextKeepsInv(s, steps[0]);
      CarefulRunExact(Next(s, steps[0]), steps[1..]);
    }
  }

  /** If only unbound sessions are bound (or again to the same key), with positive ids, then lookup
      and key are inverse to each other after every run. */
  lemma CarefulBijection(which: Which, steps: seq<Step>, id: SessionId, key: Key)
    requires Careful(INITIAL, steps)
    ensures var s := SideOf(Run(INITIAL, steps), which);
            key != 0 ==> (Lookup(s, key) == Some(id) <==> id in s.keys && s.keys[id] == key)
    ensures !Leftover(SideOf(Run(INITIAL, steps), which), key)
  {
    CarefulRunExact(INITIAL, steps);
  }

  // ----- The objects ------------------------------------------------------------------------------

  class Session {
    const id: SessionId
    var playerId: Key
    var roleId: Key

    constructor (id: SessionId)
      ensures this.id == id && playerId == 0 && roleId == 0
    {
      this.id, playerId, roleId := id, 0, 0;
    }
  }

  class Manager {
    var nextSessionId: SessionId
    var sessions: map<SessionId, Session>
    var playerSessions: map<Key, SessionId>
    var roleSessions: map<Key, SessionId>

    /** Distinct ids are distinct objects. */
    ghost predicate Valid()
      reads this, sessions.Values
    {
      forall id :: id in sessions ==> sessions[id].id == id <= nextSessionId
    }

    /** Changing one session changes no other. */
    lemma OtherSessions(id: SessionId)
      requires Valid() && id in sessions
      ensures forall other :: other in sessions && other != id ==> sessions[other] != sessions[id]
    {
      forall other | other in sessions && other != id
        ensures sessions[other] != sessions[id]
      {
        assert sessions[other].id != sessions[id].id;
      }
    }

    ghost function PlayerKeys(): map<SessionId, Key>
      reads this, sessions.Values
    {
      map id | id in sessions :: sessions[id].playerId
    }

    ghost function RoleKeys(): map<SessionId, Key>
      reads this, sessions.Values
    {
      map id | id in sessions :: sessions[id].roleId
    }

    ghost function Abs(): State
      reads this, sessions.Values
    {
      State(nextSessionId, Side(PlayerKeys(), playerSessions), Side(RoleKeys(), roleSessions))
    }

    constructor ()
      ensures Valid() && Abs() == INITIAL
    {
      nextSessionId, sessions, playerSessions, roleSessions := 0, map[], map[], map[];
      new;
      assert PlayerKeys() == map[] && RoleKeys() == map[];
    }

    method CreateSession() returns (session: Session)
      requires Valid()
      modifies this
      ensures Valid() && Abs() == Next(old(Abs()), Create)
      ensures fresh(session) && sessions == old(sessions)[session.id := session]
      ensures session.id == nextSessionId == old(nextSessionId) + 1
      ensures session.playerId == 0 && session.roleId == 0
      ensures playerSessions == old(playerSessions) && roleSessions == old(roleSessions)
    {
      nextSessionId := nextSessionId + 1;
      session := new Session(nextSessionId);
      sessions := sessions[nextSessionId := session];
      assert PlayerKeys() == old(PlayerKeys())[nextSessionId := 0];
      assert RoleKeys() == old(RoleKeys())[nextSessionId := 0];
    }

    method GetSessionByPlayerId(playerId: Key) returns (session: Option<Session>)
      requires Valid()
      ensures session == match Lookup(Abs().players, playerId)
                         case None => None
                         case Some(id) => Some(sessions[id])
      ensures session.Some? <==> playerId in playerSessions && playerSessions[playerId] in sessions
      ensures session.Some? ==> session.value == sessions[playerSessions[playerId]]
    {
      session := None;
      if playerId in playerSessions {
        var id := playerSessions[playerId];
        if id in sessions {
          session := Some(sessions[id]);
        }
      }
    }

    method GetSessionByRoleId(roleId: Key) returns (session: Option<Session>)
      requires Valid()
      ensures session == match Lookup(Abs().roles, roleId)
                         case None => None
                         case Some(id) => Some(sessions[id])
      ensures session.Some? <==> roleId in roleSessions && roleSessions[roleId] in sessions
      ensures session.Some? ==> session.value == sessions[roleSessions[roleId]]
    {
      session := None;
      if roleId in roleSessions {
        var id := roleSessions[roleId];
        if id in sessions {
          session := Some(sessions[id]);
        }
      }
    }

    method RemoveSession(sessionId: SessionId)
      requires Valid()
      modifies this
      ensures Valid() && Abs() == Next(old(Abs()), Remove(sessionId))
      ensures sessions == old(sessions) - {sessionId} && nextSessionId == old(nextSessionId)
      ensures playerSessions
           == if sessionId in old(sessions) && old(sessions)[sessionId].playerId > 0
              then old(playerSessions) - {old(sessions)[sessionId].playerId} else old(playerSessions)
      ensures roleSessions
           == if sessionId in old(sessions) && old(sessions)[sessionId].roleId > 0
              then old(roleSessions) - {old(sessions)[sessionId].roleId} else old(roleSessions)
    {
      if sessionId in sessions {
        var session := sessions[sessionId];
        if session.playerId > 0 {
          playerSessions := playerSessions - {session.playerId};
        }
        if session.roleId > 0 {
          roleSessions := roleSessions - {session.roleId};
        }
        sessions := sessions - {sessionId};
        assert PlayerKeys() == old(PlayerKeys()) - {sessionId};
        assert RoleKeys() == old(RoleKeys()) - {sessionId};
      }
    }

    method BindPlayer(sessionId: SessionId, playerId: Key) returns (ok: bool)
      requires Valid()
      modifies this, sessions.Values
      ensures Valid() && Abs() == Next(old(Abs()), Step.BindPlayer(sessionId, playerId))
      ensures ok == Accepts(old(Abs()).players, sessionId, playerId)
      ensures ok <==> sessionId in sessions
                      && (playerId in old(playerSessions) ==> old(playerSessions)[playerId] == sessionId)
      ensures sessions == old(sessions) && roleSessions == old(roleSessions)
      ensures playerSessions == if ok then old(playerSessions)[playerId := sessionId] else old(playerSessions)
      ensures forall id :: id in sessions ==>
                && sessions[id].playerId == (if ok && id == sessionId then playerId else old(sessions[id].playerId))
                && sessions[id].roleId == old(sessions[id].roleId)
    {
      if sessionId !in sessions {
        return false;
      }
      if playerId in playerSessions && playerSessions[playerId] != sessionId {
        return false;
      }
      OtherSessions(sessionId);
      sessions[sessionId].playerId := playerId;
      playerSessions := playerSessions[playerId := sessionId];
      assert forall other | other in sessions && other != sessionId ::
        sessions[other].playerId == old(sessions[other].playerId);
      assert PlayerKeys() == old(PlayerKeys())[sessionId := playerId];
      assert RoleKeys() == old(RoleKeys());
      ok := true;
    }

    method BindRole(sessionId: SessionId, roleId: Key) returns (ok: bool)
      requires Valid()
      modifies this, sessions.Values
      ensures Valid() && Abs() == Next(old(Abs()), Step.BindRole(sessionId, roleId))
      ensures ok == Accepts(old(Abs()).roles, sessionId, roleId)
      ensures ok <==> sessionId in sessions
                      && (roleId in old(roleSessions) ==> old(roleSessions)[roleId] == sessionId)
      ensures sessions == old(sessions) && playerSessions == old(playerSessions)
      ensures roleSessions == if ok then old(roleSessions)[roleId := sessionId] else old(roleSessions)
      ensures forall id :: id in sessions ==>
                && sessions[id].roleId == (if ok && id == sessionId then roleId else old(sessions[id].roleId))
                && sessions[id].playerId == old(sessions[id].playerId)
    {
      if sessionId !in sessions {
        return false;
      }
      if roleId in roleSessions && roleSessions[roleId] != sessionId {
        return false;
      }
      OtherSessions(sessionId);
      sessions[sessionId].roleId := roleId;
      roleSessions := roleSessions[roleId := sessionId];
      assert forall other | other in sessions && other != sessionId ::
        sessions[other].roleId == old(sessions[other].roleId);
      assert RoleKeys() == old(RoleKeys())[sessionId := roleId];
      assert PlayerKeys() == old(PlayerKeys());
      ok := true;
    }

    method UnbindPlayer(playerId: Key)
      requires Valid()
      modifies this, sessions.Values
      ensures Valid() && Abs() == Next(old(Abs()), Step.UnbindPlayer(playerId))
      ensures sessions == old(sessions) && roleSessions == old(roleSessions)
      ensures playerSessions == old(playerSessions) - {playerId}
      ensures forall id :: id in sessions ==>
                && sessions[id].playerId == (if playerId in old(playerSessions) && old(playerSessions)[playerId] == id
                                          then 0 else old(sessions[id].playerId))
                && sessions[id].roleId == old(sessions[id].roleId)
    {
      if playerId in playerSessions {
        var id := playerSessions[playerId];
        if id in sessions {
          OtherSessions(id);
          sessions[id].playerId := 0;
          assert forall other | other in sessions && other != id ::
            sessions[other].playerId == old(sessions[other].playerId);
          assert PlayerKeys() == old(PlayerKeys())[id := 0];
        } else {
          assert PlayerKeys() == old(PlayerKeys());
        }
        playerSessions := playerSessions - {playerId};
        assert RoleKeys() == old(RoleKeys());
      }
    }

    method UnbindRole(roleId: Key)
      requires Valid()
      modifies this, sessions.Values
      ensures Valid() && Abs() == Next(old(Abs()), Step.UnbindRole(roleId))
      ensures sessions == old(sessions) && playerSessions == old(playerSessions)
      ensures roleSessions == old(roleSessions) - {roleId}
      ensures forall id :: id in sessions ==>
                && sessions[id].roleId == (if roleId in old(roleSessions) && old(roleSessions)[roleId] == id
                                          then 0 else old(sessions[id].roleId))
                && sessions[id].playerId == old(sessions[id].playerId)
    {
      if roleId in roleSessions {
        var id := roleSessions[roleId];
        if id in sessions {
          OtherSessions(id);
          sessions[id].roleId := 0;
          assert forall other | other in sessions && other != id ::
            sessions[other].roleId == old(sessions[other].roleId);
          assert RoleKeys() == old(RoleKeys())[id := 0];
        } else {
          assert RoleKeys() == old(RoleKeys());
        }
        roleSessions := roleSessions - {roleId};
        assert PlayerKeys() == old(PlayerKeys());
      }
    }
  }
}
