/** network/lobby/service.py: the lobby's sessions and their player slots. */
module Lobby {
  import opened Prelude
  import opened Config
  import opened Roster

  datatype Session = Session(entries: seq<Entry>, isActive: bool, nextJoinIndex: int, reserved: set<int>)

  const SLOTS: set<int> := {0, 1, 2, 3}

  /** Slots that are listed or reserved. */
  function Occupied(s: Session): set<int> { IndicesOf(s.entries) + s.reserved }

  predicate Canonical(e: Entry) { 0 <= e.joinIndex < MAX_PLAYERS && e.playerId == PlayerIdFor(e.joinIndex) }

  /** Distinct slots below the limit, canonical ids, at most one host, listed and reserved slots
      apart. */
  ghost predicate SessionOk(s: Session) {
    && DistinctIndices(s.entries)
    && (forall e :: e in s.entries ==> Canonical(e))
    && (forall i, j :: 0 <= i < j < |s.entries| ==> !(s.entries[i].isHost && s.entries[j].isHost))
    && (forall r :: r in s.reserved ==> 0 <= r < MAX_PLAYERS)
    && IndicesOf(s.entries) !! s.reserved
  }

  lemma AtMostFourSlots(s: Session)
    requires SessionOk(s)
    ensures |Occupied(s)| <= MAX_PLAYERS
  {
    forall r | r in Occupied(s) ensures r in SLOTS {}
    SubsetIsSmaller(Occupied(s), SLOTS);
  }

  lemma SubsetIsSmaller(a: set<int>, b: set<int>)
    requires a <= b
    ensures |a| <= |b|
  {
    assert b == a + (b - a);
  }

  /** Lowest slot from i on that is not occupied, or MAX_PLAYERS. */
  function FreeFrom(occupied: set<int>, i: nat): (r: nat)
    requires i <= MAX_PLAYERS
    ensures i <= r <= MAX_PLAYERS && forall k :: i <= k < r ==> k in occupied
    ensures r < MAX_PLAYERS ==> r !in occupied
    decreases MAX_PLAYERS - i
  {
    if i < MAX_PLAYERS && i in occupied then FreeFrom(occupied, i + 1) else i
  }

  /** With fewer than four slots occupied there is always a free one. */
  lemma SomeSlotIsFree(occupied: set<int>)
    requires |occupied| < MAX_PLAYERS
    ensures FreeFrom(occupied, 0) < MAX_PLAYERS
  {
    if FreeFrom(occupied, 0) == MAX_PLAYERS {
      assert SLOTS <= occupied;
      SubsetIsSmaller(SLOTS, occupied);
    }
  }

  // ---- Joining, leaving, recreating -------------------------------------------------------

  function NewEntry(joinIndex: nat, host: string, port: int): Entry {
    Entry(PlayerIdFor(joinIndex), host, port, joinIndex, Connected, false)
  }

  function Seated(s: Session, joinIndex: nat, host: string, port: int): Session {
    s.(entries := s.entries + [NewEntry(joinIndex, host, port)],
       reserved := s.reserved - {joinIndex},
       nextJoinIndex := if s.nextJoinIndex >= joinIndex + 1 then s.nextJoinIndex else joinIndex + 1)
  }

  /** The session after a join and the slot given, or nothing when it is refused. */
  function Joined(s: Session, id: string, host: string, port: int, rejoin: Option<nat>): Option<(Session, nat)> {
    match rejoin
    case Some(r) =>
      var i := FindIndex(s.entries, r);
      if i >= 0 then
        if s.entries[i].playerId != id then None
        else Some((s.(entries := s.entries[i := s.entries[i].(host := host, udpPort := port)],
                      reserved := s.reserved - {r}), r))
      else if r !in s.reserved then None
      else Some((Seated(s, r, host, port), r))
    case None =>
      if |Occupied(s)| >= MAX_PLAYERS then None
      else
        var free := FreeFrom(Occupied(s), 0);
        if free == MAX_PLAYERS then None else Some((Seated(s, free, host, port), free))
  }

  predicate Full(s: Session, rejoin: Option<nat>) {
    match rejoin
    case Some(r) =>
      && r !in s.reserved
      && !exists e :: e in s.entries && e.joinIndex == r && e.playerId != PlayerIdFor(r)
    case None => |Occupied(s)| >= MAX_PLAYERS
  }

  function Left(s: Session, joinIndex: int): (Session, bool) {
    var i := FindIndex(s.entries, joinIndex);
    if i < 0 then (s, false)
    else (s.(entries := WithoutIndex(s.entries, joinIndex)), s.entries[i].isHost)
  }

  function WithoutIndex(es: seq<Entry>, joinIndex: int): (r: seq<Entry>)
    ensures forall e :: e in r <==> e in es && e.joinIndex != joinIndex
    ensures DistinctIndices(es) ==> DistinctIndices(r)
    ensures OneHost(es) ==> OneHost(r)
  {
    if es == [] then []
    else
      var n := |es| - 1;
      var rest := WithoutIndex(es[..n], joinIndex);
      assert forall e :: e in es <==> e in es[..n] || e == es[n];
      assert DistinctIndices(es) ==> DistinctIndices(es[..n]);
      assert forall k :: 0 <= k < |rest| ==> rest[k] in es[..n];
      if es[n].joinIndex == joinIndex then rest else rest + [es[n]]
  }

  predicate OneHost(es: seq<Entry>) { forall i, j :: 0 <= i < j < |es| ==> !(es[i].isHost && es[j].isHost) }

  /** A promoted host's request to register its running session (shared/messages/session.py). */
  datatype Recreate = Recreate(sessionId: string, nextJoinIndex: int, hostIp: string, hostPort: int,
                               hostJoinIndex: int, reserved: set<int>)

  predicate Validated(m: Recreate) {
    && m.sessionId != "" && m.nextJoinIndex >= 0 && m.hostIp != ""
    && 0 <= m.hostJoinIndex < MAX_PLAYERS
    && (forall r :: r in m.reserved ==> 0 <= r < MAX_PLAYERS)
    && m.hostJoinIndex !in m.reserved
  }

  function Recreated(m: Recreate): Session
    requires m.hostJoinIndex >= 0
  {
    Session([Entry(PlayerIdFor(m.hostJoinIndex), m.hostIp, m.hostPort, m.hostJoinIndex, Connected, true)],
            true, m.nextJoinIndex, m.reserved)
  }

  /** Exactly the slot j has changed: it is taken under its canonical id at this address. */
  ghost predicate SlotGiven(s: Session, t: Session, j: nat, host: string, port: int) {
    && (forall e: Entry :: e.joinIndex != j ==> (e in t.entries <==> e in s.entries))
    && (exists e :: e in t.entries && e.joinIndex == j)
    && (forall e :: e in t.entries && e.joinIndex == j ==>
          e.playerId == PlayerIdFor(j) && e.host == host && e.udpPort == port)
    && (forall e :: e in t.entries && e.joinIndex == j && e.isHost ==>
          exists f :: f in s.entries && f.joinIndex == j && f.isHost)
    && t.reserved == s.reserved - {j} && t.isActive == s.isActive
  }

  lemma SeatIsGiven(s: Session, j: nat, host: string, port: int)
    requires !HasIndex(s.entries, j)
    ensures SlotGiven(s, Seated(s, j, host, port), j, host, port)
  {
    var t := Seated(s, j, host, port);
    assert forall e :: e in t.entries <==> e in s.entries || e == NewEntry(j, host, port);
    IndexListed(s.entries, j);
  }

  lemma AddressIsRenewed(s: Session, i: nat, host: string, port: int)
    requires SessionOk(s) && i < |s.entries| && s.entries[i].joinIndex >= 0
    ensures var e := s.entries[i];
      SlotGiven(s, s.(entries := s.entries[i := e.(host := host, udpPort := port)],
          reserved := s.reserved - {e.joinIndex}),
                e.joinIndex, host, port)
  {
    var was, j := s.entries[i], s.entries[i].joinIndex;
    var t := s.entries[i := was.(host := host, udpPort := port)];
    assert was in s.entries && t[i] in t && Canonical(was);
    forall e | e in t ensures e == t[i] || (e in s.entries && e.joinIndex != j) {
      var k :| 0 <= k < |t| && t[k] == e;
    }
    forall e | e in s.entries && e.joinIndex != j ensures e in t {
      var k :| 0 <= k < |s.entries| && s.entries[k] == e;
      assert t[k] == e;
    }
  }

  /** A newcomer gets the lowest slot neither listed nor reserved, a returning player its own, under its
      canonical id and at its new address; a new entry is never the host's, and nobody else's entry or
      slot changes. */
  lemma JoinedExactly(s: Session, id: string, host: string, port: int, rejoin: Option<nat>)
    requires SessionOk(s) && Joined(s, id, host, port, rejoin).Some?
    ensures var (t, j) := Joined(s, id, host, port, rejoin).value;
      && SlotGiven(s, t, j, host, port)
      && if rejoin.Some? then j == rejoin.value
         else j !in Occupied(s) && forall k :: 0 <= k < j ==> k in Occupied(s)
  {
    hide SlotGiven;
    var (t, j) := Joined(s, id, host, port, rejoin).value;
    IndexListed(s.entries, j);
    if rejoin.Some? && FindIndex(s.entries, j) >= 0 {
      AddressIsRenewed(s, FindIndex(s.entries, j), host, port);
    } else {
      SeatIsGiven(s, j, host, port);
    }
  }

  /** The room closes exactly when the participant that leaves is its host; otherwise exactly that
      participant is gone. */
  lemma RoomClosesExactly(s: Session, joinIndex: int)
    requires DistinctIndices(s.entries)
    ensures Left(s, joinIndex).1 <==> exists e :: e in s.entries && e.joinIndex == joinIndex && e.isHost
    ensures forall e :: e in Left(s, joinIndex).0.entries <==> e in s.entries && e.joinIndex != joinIndex
    ensures Left(s, joinIndex).0 == s.(entries := Left(s, joinIndex).0.entries)
  {
    var i := FindIndex(s.entries, joinIndex);
    if i >= 0 { assert s.entries[i] in s.entries; }
    forall e | e in s.entries && e.joinIndex == joinIndex ensures i >= 0 && e == s.entries[i] {
      var k :| 0 <= k < |s.entries| && s.entries[k] == e;
    }
  }

  // ---- What every operation keeps ---------------------------------------------------------

  lemma SeatingKeepsOk(s: Session, joinIndex: nat, host: string, port: int)
    requires SessionOk(s) && joinIndex < MAX_PLAYERS && !HasIndex(s.entries, joinIndex)
    ensures SessionOk(Seated(s, joinIndex, host, port))
  {
    var t := Seated(s, joinIndex, host, port);
    assert forall e :: e in t.entries <==> e in s.entries || e == NewEntry(joinIndex, host, port);
    assert forall i :: 0 <= i < |s.entries| ==> s.entries[i].joinIndex != joinIndex;
  }

  lemma IndexListed(es: seq<Entry>, joinIndex: int)
    ensures HasIndex(es, joinIndex) <==> joinIndex in IndicesOf(es)
  {
    if joinIndex in IndicesOf(es) {
      var e :| e in es && e.joinIndex == joinIndex;
      var i :| 0 <= i < |es| && es[i] == e;
    }
  }

  lemma JoinKeepsOk(s: Session, id: string, host: string, port: int, rejoin: Option<nat>)
    requires SessionOk(s) && Joined(s, id, host, port, rejoin).Some?
    ensures SessionOk(Joined(s, id, host, port, rejoin).value.0)
    ensures Joined(s, id, host, port, rejoin).value.1 < MAX_PLAYERS
    ensures rejoin.Some? ==> Joined(s, id, host, port, rejoin).value.1 == rejoin.value
  {
    var t, joinIndex := Joined(s, id, host, port, rejoin).value.0, Joined(s, id, host, port, rejoin).value.1;
    IndexListed(s.entries, joinIndex);
    if rejoin.Some? && FindIndex(s.entries, rejoin.value) >= 0 {
      var i := FindIndex(s.entries, rejoin.value);
      forall e | e in t.entries ensures Canonical(e) && e.joinIndex in IndicesOf(s.entries) {
        var k :| 0 <= k < |t.entries| && t.entries[k] == e;
        assert s.entries[k] in s.entries;
      }
    } else {
      SeatingKeepsOk(s, joinIndex, host, port);
    }
  }

  lemma LeaveKeepsOk(s: Session, joinIndex: int)
    requires SessionOk(s)
    ensures SessionOk(Left(s, joinIndex).0)
    ensures IndicesOf(Left(s, joinIndex).0.entries) == IndicesOf(s.entries) - {joinIndex}
  {
    IndexListed(s.entries, joinIndex);
  }

  lemma RecreatedIsOk(m: Recreate)
    requires Validated(m)
    ensures SessionOk(Recreated(m))
  {
    var e := Recreated(m).entries[0];
    assert Recreated(m).entries == [e];
  }

  /** When a join is accepted, for every session in order: a newcomer exactly when a slot is neither
      listed nor reserved; a returning player exactly when its slot is reserved, or listed under the
      same id. */
  lemma JoinAcceptedExactly(s: Session, id: string, host: string, port: int, rejoin: Option<nat>)
    requires SessionOk(s)
    ensures Joined(s, id, host, port, rejoin).Some? <==>
              if rejoin.None? then |Occupied(s)| < MAX_PLAYERS
              else rejoin.value in s.reserved
                   || exists e :: e in s.entries && e.joinIndex == rejoin.value && e.playerId == id
  {
    if rejoin.None? {
      if |Occupied(s)| < MAX_PLAYERS { SomeSlotIsFree(Occupied(s)); }
    } else {
      IndexListed(s.entries, rejoin.value);
      var i := FindIndex(s.entries, rejoin.value);
      if i >= 0 {
        assert s.entries[i] in s.entries;
        forall e | e in s.entries && e.joinIndex == rejoin.value ensures e == s.entries[i] {
          var k :| 0 <= k < |s.entries| && s.entries[k] == e;
        }
      }
    }
  }

  /** A session that is not full accepts the join; the converse fails for exactly one kind of caller,
      a returning player whose slot is still listed. */
  lemma NotFullMeansAccepted(s: Session, id: string, host: string, port: int, rejoin: Option<nat>)
    requires SessionOk(s)
    requires rejoin.Some? ==> rejoin.value < MAX_PLAYERS && id == PlayerIdFor(rejoin.value)
    ensures !Full(s, rejoin) ==> Joined(s, id, host, port, rejoin).Some?
    ensures Full(s, rejoin) && Joined(s, id, host, port, rejoin).Some?
       <==> rejoin.Some? && HasIndex(s.entries, rejoin.value)
  {
    JoinAcceptedExactly(s, id, host, port, rejoin);
    if rejoin.Some? {
      IndexListed(s.entries, rejoin.value);
    }
  }

  /** The exception is met: the host and a second player are listed, and the second one is refused
      although joining would seat it. */
  lemma ListedReturnerIsRefused(host: string, port: int)
    ensures var s := Session([Entry(PlayerIdFor(0), host, port, 0, Connected, true), NewEntry(1, host, port)], true, 2,
        {});
      && SessionOk(s) && Full(s, Some(1)) && Joined(s, PlayerIdFor(1), host, port, Some(1)).Some?
  {
    var first := Session([Entry(PlayerIdFor(0), host, port, 0, Connected, true)], true, 1, {});
    assert IndicesOf(first.entries) == {0};
    var s := Seated(first, 1, host, port);
    SeatingKeepsOk(first, 1, host, port);
    assert s == Session([Entry(PlayerIdFor(0), host, port, 0, Connected, true), NewEntry(1, host, port)], true, 2, {});
    assert s.entries[1] == NewEntry(1, host, port) && s.entries[1] in s.entries;
    JoinAcceptedExactly(s, PlayerIdFor(1), host, port, Some(1));
    NotFullMeansAccepted(s, PlayerIdFor(1), host, port, Some(1));
    assert HasIndex(s.entries, 1);
  }

  // ---- The registry -----------------------------------------------------------------------

  class LobbyManager {
    var sessions: map<string, Session>

    ghost predicate Valid()
      reads this
    {
      forall id :: id in sessions ==> SessionOk(sessions[id])
    }

    constructor ()
      ensures Valid() && sessions == map[]
    {
      sessions := map[];
    }

    /** `sessionId` stands for the fresh random id. */
    method CreateSession(sessionId: string, host: string, udpPort: int) returns (joinIndex: int)
      requires Valid()
      modifies this
      ensures Valid() && joinIndex == 0
      ensures sessions == old(sessions)[sessionId :=
          Session([Entry(PlayerIdFor(0), host, udpPort, 0, Connected, true)], false, 1, {})]
    {
      var entry := Entry(PlayerIdFor(0), host, udpPort, 0, Connected, true);
      sessions := sessions[sessionId := Session([entry], false, 1, {})];
      assert IndicesOf([entry]) == {0};
      return 0;
    }

    static method FindFreeSlot(occupied: set<int>) returns (slot: nat)
      ensures slot == FreeFrom(occupied, 0)
    {
      slot := 0;
      while slot < MAX_PLAYERS && slot in occupied
        invariant slot <= MAX_PLAYERS && FreeFrom(occupied, slot) == FreeFrom(occupied, 0)
      {
        slot := slot + 1;
      }
    }

    method JoinSession(sessionId: string, playerId: string, host: string, udpPort: int, rejoin: Option<nat>)
      returns (joinIndex: Option<nat>)
      requires Valid()
      modifies this
      ensures Valid()
      ensures sessionId !in old(sessions) ==> joinIndex == None && sessions == old(sessions)
      ensures sessionId in old(sessions) ==>
                var joined := Joined(old(sessions)[sessionId], playerId, host, udpPort, rejoin);
                && joinIndex == (if joined.None? then None else Some(joined.value.1))
                && sessions == if joined.None? then old(sessions) else old(sessions)[sessionId := joined.value.0]
    {
      if sessionId !in sessions { return None; }
      var joined := Seat(sessions[sessionId], playerId, host, udpPort, rejoin);
      if joined.None? { return None; }
      JoinKeepsOk(sessions[sessionId], playerId, host, udpPort, rejoin);
      sessions := sessions[sessionId := joined.value.0];
      return Some(joined.value.1);
    }

    /** The record after the join, step by step. */
    static method Seat(session: Session, playerId: string, host: string, udpPort: int, rejoin: Option<nat>)
      returns (joined: Option<(Session, nat)>)
      ensures joined == Joined(session, playerId, host, udpPort, rejoin)
    {
      var record := session;
      var slot: nat;
      if rejoin.Some? {
        slot := rejoin.value;
        var i := FindIndex(record.entries, slot);
        if i >= 0 {
          if record.entries[i].playerId != playerId { return None; }
          record := record.(entries := record.entries[i := record.entries[i].(host := host, udpPort := udpPort)]);
          record := record.(reserved := record.reserved - {slot});
          return Some((record, slot));
        }
        if slot !in record.reserved { return None; }
        record := record.(reserved := record.reserved - {slot});
      } else {
        var occupied := Occupied(record);
        if |occupied| >= MAX_PLAYERS { return None; }
        slot := FindFreeSlot(occupied);
        if slot == MAX_PLAYERS { return None; }
        assert record.reserved - {slot} == record.reserved;
      }
      record := record.(entries := record.entries + [NewEntry(slot, host, udpPort)]);
      if record.nextJoinIndex < slot + 1 {
        record := record.(nextJoinIndex := slot + 1);
      }
      return Some((record, slot));
    }

    predicate IsFull(sessionId: string, rejoin: Option<nat>)
      reads this
    {
      sessionId in sessions && Full(sessions[sessionId], rejoin)
    }

    /** The endpoint's answer to a join message: refused when full, otherwise whatever joining says.
        The message's own validation ties a returning player's id to its slot. */
    method HandleJoin(sessionId: string, playerId: string, host: string, udpPort: int, rejoin: Option<nat>)
      returns (joinIndex: Option<nat>)
      requires Valid()
      requires rejoin.Some? ==> rejoin.value < MAX_PLAYERS && playerId == PlayerIdFor(rejoin.value)
      modifies this
      ensures Valid()
      ensures joinIndex.Some? <==> sessionId in old(sessions) && !old(IsFull(sessionId, rejoin))
      ensures joinIndex.None? ==> sessions == old(sessions)
      ensures joinIndex.Some? ==>
                var joined := Joined(old(sessions)[sessionId], playerId, host, udpPort, rejoin);
                joined.Some? && joined.value.1 == joinIndex.value &&
                    sessions == old(sessions)[sessionId := joined.value.0]
    {
      if IsFull(sessionId, rejoin) { return None; }
      if sessionId in sessions { NotFullMeansAccepted(sessions[sessionId], playerId, host, udpPort, rejoin); }
      joinIndex := JoinSession(sessionId, playerId, host, udpPort, rejoin);
    }

    method LeaveSession(sessionId: string, joinIndex: int) returns (hostLeft: bool)
      requires Valid()
      modifies this
      ensures Valid()
      ensures sessionId !in old(sessions) ==> !hostLeft && sessions == old(sessions)
      ensures sessionId in old(sessions) ==>
                var (after, wasHost) := Left(old(sessions)[sessionId], joinIndex);
                hostLeft == wasHost && sessions == old(sessions)[sessionId := after]
    {
      if sessionId !in sessions { return false; }
      var record := sessions[sessionId];
      LeaveKeepsOk(record, joinIndex);
      var i := FindIndex(record.entries, joinIndex);
      if i < 0 {
        assert sessions == sessions[sessionId := record];
        return false;
      }
      hostLeft := record.entries[i].isHost;
      sessions := sessions[sessionId := record.(entries := WithoutIndex(record.entries, joinIndex))];
    }

    /** A participant that leaves is dropped; when it is the host the room is closed. */
    method HandleLeave(sessionId: string, joinIndex: int)
      requires Valid()
      modifies this
      ensures Valid()
      ensures sessionId !in old(sessions) ==> sessions == old(sessions)
      ensures sessionId in old(sessions) ==>
                var (after, hostLeft) := Left(old(sessions)[sessionId], joinIndex);
                sessions == if hostLeft then old(sessions) - {sessionId} else old(sessions)[sessionId := after]
      ensures sessionId in old(sessions) ==>
                (sessionId !in sessions <==>
                  exists e :: e in old(sessions)[sessionId].entries && e.joinIndex == joinIndex && e.isHost)
    {
      if sessionId in sessions { RoomClosesExactly(sessions[sessionId], joinIndex); }
      if sessionId !in sessions { return; }
      var hostLeft := LeaveSession(sessionId, joinIndex);
      if hostLeft {
        sessions := sessions - {sessionId};
      }
    }

    method HandleRecreate(m: Recreate)
      requires Valid() && Validated(m)
      modifies this
      ensures Valid() && sessions == old(sessions)[m.sessionId := Recreated(m)]
    {
      RecreatedIsOk(m);
      sessions := sessions[m.sessionId := Recreated(m)];
    }

    method MarkActive(sessionId: string)
      requires Valid() && sessionId in sessions
      modifies this
      ensures Valid() && sessions == old(sessions)[sessionId := old(sessions)[sessionId].(isActive := true)]
    {
      sessions := sessions[sessionId := sessions[sessionId].(isActive := true)];
    }

    /** Building the roster never meets a duplicate join index. */
    method GetRoster(sessionId: string) returns (roster: GlobalRoster)
      requires Valid() && sessionId in sessions
      ensures fresh(roster) && roster.players == sessions[sessionId].entries
    {
      roster := new GlobalRoster();
      var entries := sessions[sessionId].entries;
      var i := 0;
      while i < |entries|
        invariant 0 <= i <= |entries| && roster.players == entries[..i]
      {
        var added := roster.AddPlayer(entries[i]);
        assert added.Ok?;
        i := i + 1;
      }
    }
  }

  // ---- Every interleaving, as a run on one session ----------------------------------------

  datatype Operation =
    | Join(id: string, host: string, port: int, rejoin: Option<nat>)
    | Leave(joinIndex: int)
    | Register(message: Recreate)

  function Operated(s: Session, op: Operation): Session {
    match op
    case Join(id, host, port, rejoin) =>
      var joined := Joined(s, id, host, port, rejoin);
      if joined.None? then s else joined.value.0
    case Leave(joinIndex) => Left(s, joinIndex).0
    case Register(m) => if Validated(m) then Recreated(m) else s
  }

  function OperatedAll(s: Session, ops: seq<Operation>): Session {
    if ops == [] then s else Operated(OperatedAll(s, ops[..|ops| - 1]), ops[|ops| - 1])
  }

  /** Whatever sequence of joins, rejoins, departures and validated re-registrations a session goes
      through, it stays in order and never exceeds four slots. */
  lemma {:induction false} SessionStaysInOrder(s: Session, ops: seq<Operation>)
    requires SessionOk(s)
    ensures SessionOk(OperatedAll(s, ops)) && |Occupied(OperatedAll(s, ops))| <= MAX_PLAYERS
  {
    if ops == [] {
      AtMostFourSlots(s);
    } else {
      var before := OperatedAll(s, ops[..|ops| - 1]);
      SessionStaysInOrder(s, ops[..|ops| - 1]);
      match ops[|ops| - 1] {
        case Join(id, host, port, rejoin) =>
          if Joined(before, id, host, port, rejoin).Some? { JoinKeepsOk(before, id, host, port, rejoin); }
        case Leave(joinIndex) => LeaveKeepsOk(before, joinIndex);
        case Register(m) => if Validated(m) { RecreatedIsOk(m); }
      }
      AtMostFourSlots(OperatedAll(s, ops));
    }
  }

  /** What other participants can do while one player is away; the host stays. */
  predicate ByOthers(op: Operation, away: int, hostIndex: int) {
    match op
    case Join(_, _, _, rejoin) => rejoin.None? || rejoin.value != away
    case Leave(joinIndex) => joinIndex != hostIndex
    case Register(_) => false
  }

  ghost predicate HostIs(s: Session, hostId: string) { forall e :: e in s.entries && e.isHost ==> e.playerId == hostId }

  /** A reserved slot stays reserved whatever the others do: no newcomer and nobody else's return
      takes it. */
  lemma {:induction false} ReservationSurvives(s: Session, ops: seq<Operation>, away: int, hostIndex: int,
      hostId: string)
    requires SessionOk(s) && away in s.reserved && HostIs(s, hostId)
    requires forall i :: 0 <= i < |ops| ==> ByOthers(ops[i], away, hostIndex)
    ensures var t := OperatedAll(s, ops); SessionOk(t) && away in t.reserved && HostIs(t, hostId)
  {
    if ops != [] {
      ReservationSurvives(s, ops[..|ops| - 1], away, hostIndex, hostId);
      OthersLeaveItReserved(OperatedAll(s, ops[..|ops| - 1]), ops[|ops| - 1], away, hostIndex, hostId);
    }
  }

  lemma OthersLeaveItReserved(s: Session, op: Operation, away: int, hostIndex: int, hostId: string)
    requires SessionOk(s) && away in s.reserved && HostIs(s, hostId) && ByOthers(op, away, hostIndex)
    ensures var t := Operated(s, op); SessionOk(t) && away in t.reserved && HostIs(t, hostId)
  {
    match op {
      case Join(id, host, port, rejoin) =>
        if Joined(s, id, host, port, rejoin).Some? {
          JoinKeepsOk(s, id, host, port, rejoin);
          JoinKeepsHost(s, id, host, port, rejoin, hostId);
        }
      case Leave(joinIndex) => LeaveKeepsOk(s, joinIndex);
    }
  }

  lemma JoinKeepsHost(s: Session, id: string, host: string, port: int, rejoin: Option<nat>, hostId: string)
    requires HostIs(s, hostId) && Joined(s, id, host, port, rejoin).Some?
    ensures HostIs(Joined(s, id, host, port, rejoin).value.0, hostId)
  {
    var t := Joined(s, id, host, port, rejoin).value.0;
    forall e | e in t.entries && e.isHost ensures e.playerId == hostId {
      var k :| 0 <= k < |t.entries| && t.entries[k] == e;
      if k < |s.entries| { assert s.entries[k] in s.entries; }
    }
  }
}
