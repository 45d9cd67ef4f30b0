/** Crash and return: the evicted player's slot stays reserved, it is given back, and the player gets
    its character back (application/election/mixin.py:209-225, network/lobby/service.py,
    application/gameplay/host.py:147-212, application/gameplay/events.py:39-51). */
module Rejoin {
  import opened Prelude
  import opened Config
  import opened Entities
  import opened NodeState
  import opened Migration
  import Simulation
  import Roster
  import Lobby
  import Inputs = HostInputs
  import opened Hearing
  import ClientLoopModel

  // ---- The reserved slots -----------------------------------------------------------------

  function OtherIndices(ps: seq<Roster.Entry>, id: string): set<int> {
    set e | e in ps && e.playerId != id :: e.joinIndex
  }

  function ReservedSlots(n: State, self: Self): set<int> { OtherIndices(n.roster, self.id) + n.rejoinStates.Keys }

  function HighestIndex(ps: seq<Roster.Entry>): (r: int)
    requires ps != []
    ensures forall e :: e in ps ==> e.joinIndex <= r
    ensures exists e :: e in ps && e.joinIndex == r
  {
    var n := |ps| - 1;
    if n == 0 then ps[0].joinIndex
    else
      var before := HighestIndex(ps[..n]);
      assert forall e :: e in ps <==> e in ps[..n] || e == ps[n];
      if ps[n].joinIndex > before then ps[n].joinIndex else before
  }

  /** What a promoted host asks its new lobby to register. */
  function RecreateRequest(n: State, self: Self): Lobby.Recreate {
    Lobby.Recreate(self.sessionId, if n.roster == [] then 0 else HighestIndex(n.roster) + 1,
                   self.ip, HOST_UDP_PORT, self.joinIndex, ReservedSlots(n, self))
  }

  predicate Alive(n: State, id: string) { Simulation.FindPlayer(n.world.players, id) >= 0 }

  /** The lobby always accepts the request, and the session it registers accounts for exactly the
      slots of those listed or waiting to return. */
  lemma RequestIsAccepted(n: State, self: Self)
    requires InOrder(n, self) && self.sessionId != "" && self.ip != ""
    ensures Lobby.Validated(RecreateRequest(n, self))
    ensures Lobby.SessionOk(Lobby.Recreated(RecreateRequest(n, self)))
    ensures forall e :: e in Lobby.Recreated(RecreateRequest(n, self)).entries ==> e.playerId == self.id
    ensures Lobby.Occupied(Lobby.Recreated(RecreateRequest(n, self))) ==
        Roster.IndicesOf(n.roster) + n.rejoinStates.Keys
  {
    var m := RecreateRequest(n, self);
    SamePlayerSameEntry(n.roster);
    forall e | e in n.roster && e.playerId != self.id
        ensures 0 <= e.joinIndex < MAX_PLAYERS && e.joinIndex != self.joinIndex {
      assert Lobby.Canonical(e);
    }
    var me :| me in n.roster && me.playerId == self.id;
    assert Lobby.Canonical(me);
    Roster.PlayerIdsAreDistinct(me.joinIndex, self.joinIndex);
    Lobby.RecreatedIsOk(m);
    assert Lobby.Recreated(m).entries[0] in Lobby.Recreated(m).entries;
    forall e | e in n.roster && e.playerId == self.id ensures e.joinIndex == self.joinIndex {
      assert e == me;
    }
    assert Roster.IndicesOf(Lobby.Recreated(m).entries) == {self.joinIndex};
  }

  /** Evicting a player keeps its slot reserved exactly when it was alive or already waiting. */
  lemma ReservationIsKeptExactly(n: State, self: Self, e: Roster.Entry)
    requires InOrder(n, self) && e in n.roster && e.playerId != self.id
    ensures e.joinIndex in ReservedSlots(n, self)
    ensures e.joinIndex in ReservedSlots(Evicted(n, e.playerId), self)
       <==> Alive(n, e.playerId) || e.joinIndex in n.rejoinStates
    ensures ReservedSlots(n, self) - {e.joinIndex} == ReservedSlots(Evicted(n, e.playerId), self) - {e.joinIndex}
    ensures Alive(n, e.playerId) ==>
              Evicted(n, e.playerId).rejoinStates ==
                n.rejoinStates[e.joinIndex := n.world.players[Simulation.FindPlayer(n.world.players, e.playerId)]]
  {
    SamePlayerSameEntry(n.roster);
    IndexLeaves(n.roster, e, self.id);
    var i := Roster.FindPlayer(n.roster, e.playerId);
    assert n.roster[i] in n.roster && n.roster[i] == e;
  }

  lemma IndexLeaves(ps: seq<Roster.Entry>, e: Roster.Entry, id: string)
    requires Roster.DistinctIndices(ps) && e in ps && e.playerId != id && forall f :: f in ps ==> Lobby.Canonical(f)
    ensures e.joinIndex in OtherIndices(ps, id)
    ensures OtherIndices(Roster.WithoutPlayer(ps, e.playerId), id) == OtherIndices(ps, id) - {e.joinIndex}
  {
    OneEntryLeaves(ps, e);
    OneIndexLeaves(ps, e);
  }

  lemma OneIndexLeaves(ps: seq<Roster.Entry>, e: Roster.Entry)
    requires Roster.DistinctIndices(ps) && e in ps
    ensures forall f :: f in ps && f != e ==> f.joinIndex != e.joinIndex
  {
    forall f | f in ps && f != e ensures f.joinIndex != e.joinIndex {
      var i :| 0 <= i < |ps| && ps[i] == e;
      var j :| 0 <= j < |ps| && ps[j] == f;
    }
  }

  // ---- A broadcast has its full effect at once --------------------------------------------

  /** Nothing is left to do for this entry of a broadcast. */
  ghost predicate Settled(n: State, self: Self, e: Roster.Entry) {
    || e.playerId == self.id
    || exists f :: f in n.roster && f.joinIndex == e.joinIndex
         && (f.playerId != e.playerId || (f.host == e.host && f.udpPort == e.udpPort && e.joinIndex !in n.rejoinStates))
  }

  lemma SettledExactly(n: State, self: Self, e: Roster.Entry)
    requires Roster.DistinctIndices(n.roster)
    ensures Enters(n, self, e) <==> !Settled(n, self, e)
  {
    var i := Roster.FindIndex(n.roster, e.joinIndex);
    if i >= 0 {
      assert n.roster[i] in n.roster;
      OneIndexLeaves(n.roster, n.roster[i]);
    } else {
      forall f | f in n.roster ensures f.joinIndex != e.joinIndex {
        var k :| 0 <= k < |n.roster| && n.roster[k] == f;
      }
    }
  }

  lemma EntrySettles(n: State, self: Self, setup: Simulation.Setup, e: Roster.Entry, now: real)
    requires Roster.DistinctIndices(n.roster)
    ensures Settled(Reentered(n, self, setup, e, now), self, e)
  {
    SettledExactly(n, self, e);
    var m := Reentered(n, self, setup, e, now);
    if Enters(n, self, e) { assert m.roster[|m.roster| - 1] == e; }
  }

  lemma OthersStaySettled(n: State, self: Self, setup: Simulation.Setup, e: Roster.Entry, now: real,
      other: Roster.Entry)
    requires InOrder(n, self) && other.joinIndex != e.joinIndex && Settled(n, self, other)
    ensures Settled(Reentered(n, self, setup, e, now), self, other)
  {
    if Enters(n, self, e) && other.playerId != self.id {
      var m := Reentered(n, self, setup, e, now);
      var f :| f in n.roster && f.joinIndex == other.joinIndex
        && (f.playerId != other.playerId || (f.host == other.host && f.udpPort == other.udpPort &&
             other.joinIndex !in n.rejoinStates));
      var i := Roster.FindIndex(n.roster, e.joinIndex);
      if i >= 0 {
        assert n.roster[i] in n.roster;
        OneEntryLeaves(n.roster, n.roster[i]);
      }
      assert f in m.roster;
    }
  }

  ghost predicate LobbyRoster(es: seq<Roster.Entry>, self: Self) {
    && Roster.DistinctIndices(es)
    && forall e :: e in es ==> Lobby.Canonical(e) && (e.isHost ==> e.playerId == self.id)
  }

  lemma {:induction false} AllSettle(n: State, self: Self, setup: Simulation.Setup, es: seq<Roster.Entry>, now: real)
    requires InOrder(n, self) && n.promotionDone && LobbyRoster(es, self)
    ensures InOrder(AllReentered(n, self, setup, es, now), self)
    ensures forall e :: e in es ==> Settled(AllReentered(n, self, setup, es, now), self, e)
  {
    ReentriesKeepOk(n, self, setup, es, now);
    if es != [] {
      var rest, last := es[..|es| - 1], es[|es| - 1];
      AllSettle(n, self, setup, rest, now);
      var before := AllReentered(n, self, setup, rest, now);
      EntrySettles(before, self, setup, last, now);
      forall e | e in es ensures Settled(AllReentered(n, self, setup, es, now), self, e) {
        if e != last {
          OneIndexLeaves(es, last);
          OthersStaySettled(before, self, setup, last, now, e);
        }
      }
    }
  }

  lemma {:induction false} NothingToDo(n: State, self: Self, setup: Simulation.Setup, es: seq<Roster.Entry>, now: real)
    requires Roster.DistinctIndices(n.roster) && forall e :: e in es ==> Settled(n, self, e)
    ensures AllReentered(n, self, setup, es, now) == n && !SomeoneEnters(n, self, setup, es, now)
  {
    if es != [] {
      NothingToDo(n, self, setup, es[..|es| - 1], now);
      SettledExactly(n, self, es[|es| - 1]);
    }
  }

  /** Repeating a roster broadcast, however much later, changes nothing more. */
  lemma BroadcastIsIdempotent(n: State, self: Self, setup: Simulation.Setup, es: seq<Roster.Entry>, now: real,
      later: real)
    requires InOrder(n, self) && n.promotionDone && LobbyRoster(es, self)
    ensures var once := BroadcastHeard(n, self, setup, es, now);
      BroadcastHeard(once, self, setup, es, later) == once
  {
    AllSettle(n, self, setup, es, now);
    var once := BroadcastHeard(n, self, setup, es, now);
    forall e | e in es ensures Settled(once, self, e) {
      assert Settled(AllReentered(n, self, setup, es, now), self, e);
    }
    NothingToDo(once, self, setup, es, later);
  }

  // ---- The round trip ---------------------------------------------------------------------

  ghost predicate UniqueIds(ps: seq<Player>) { forall i, j :: 0 <= i < j < |ps| ==> ps[i].id != ps[j].id }

  lemma PuttingReplaces(ps: seq<Player>, p: Player)
    requires UniqueIds(ps)
    ensures forall q :: q in Simulation.PutPlayer(ps, p) <==> (q in ps && q.id != p.id) || q == p
  {
    var i := Simulation.FindPlayer(ps, p.id);
    var after := Simulation.PutPlayer(ps, p);
    if i >= 0 {
      assert after[i] == p;
      forall q | q in ps && q.id != p.id ensures q in after {
        var k :| 0 <= k < |ps| && ps[k] == q;
        assert after[k] == q;
      }
      forall q | q in after ensures (q in ps && q.id != p.id) || q == p {
        var k :| 0 <= k < |after| && after[k] == q;
        if k < i { assert ps[k].id != ps[i].id; } else if i < k { assert ps[i].id != ps[k].id; }
      }
    }
  }

  /** This entry of the broadcast is new to the host, or somebody's return. */
  ghost predicate Arrives(n: State, self: Self, es: seq<Roster.Entry>, e: Roster.Entry) {
    e in es && Enters(n, self, e)
  }

  /** The character an arrival brings: its saved one, or a new one for somebody unknown. */
  function Brings(n: State, setup: Simulation.Setup, e: Roster.Entry): Option<Player> {
    if e.joinIndex in n.rejoinStates then Some(n.rejoinStates[e.joinIndex].(id := e.playerId, joinIndex := e.joinIndex))
    else if Roster.HasIndex(n.roster, e.joinIndex) then None
    else Some(Simulation.Spawned(setup, e.playerId, Simulation.SpawnPosition(setup, e.joinIndex), e.joinIndex))
  }

  ghost predicate SlotTaken(n: State, self: Self, es: seq<Roster.Entry>, joinIndex: int) {
    exists e :: Arrives(n, self, es, e) && e.joinIndex == joinIndex
  }

  ghost predicate Replaced(n: State, self: Self, setup: Simulation.Setup, es: seq<Roster.Entry>, id: string) {
    exists e :: Arrives(n, self, es, e) && e.playerId == id && Brings(n, setup, e).Some?
  }

  ghost predicate Brought(n: State, self: Self, setup: Simulation.Setup, es: seq<Roster.Entry>, p: Player) {
    exists e :: Arrives(n, self, es, e) && Brings(n, setup, e) == Some(p)
  }

  /** What a whole broadcast does, however many arrive in it: to the roster, the saved characters and
      the world, each arrival acting as if it were alone. */
  ghost predicate BroadcastEffect(n: State, r: State, self: Self, setup: Simulation.Setup, es: seq<Roster.Entry>) {
    RosterEffect(n, r.roster, self, es) && SavedEffect(n, r.rejoinStates, self, es) &&
        WorldEffect(n, r.world.players, self, setup, es)
  }

  ghost predicate RosterEffect(n: State, roster: seq<Roster.Entry>, self: Self, es: seq<Roster.Entry>) {
    forall f :: f in roster <==> Arrives(n, self, es, f) || (f in n.roster && !SlotTaken(n, self, es, f.joinIndex))
  }

  ghost predicate SavedEffect(n: State, saved: map<int, Player>, self: Self, es: seq<Roster.Entry>) {
    && (forall j :: j in saved <==> j in n.rejoinStates && !SlotTaken(n, self, es, j))
    && (forall j :: j in saved ==> saved[j] == n.rejoinStates[j])
  }

  ghost predicate WorldEffect(n: State, players: seq<Player>, self: Self, setup: Simulation.Setup,
      es: seq<Roster.Entry>)
  {
    && (forall p :: p in players <==>
          Brought(n, self, setup, es, p) || (p in n.world.players && !Replaced(n, self, setup, es, p.id)))
    && UniqueIds(players)
  }

  lemma PuttingKeepsUnique(ps: seq<Player>, p: Player)
    requires UniqueIds(ps)
    ensures UniqueIds(Simulation.PutPlayer(ps, p))
  {
  }

  /** One arrival. */
  lemma ArrivalEffect(n: State, self: Self, setup: Simulation.Setup, e: Roster.Entry, now: real)
    requires InOrder(n, self) && Lobby.Canonical(e) && UniqueIds(n.world.players) && Enters(n, self, e)
    ensures var r, p := Reentered(n, self, setup, e, now), Brings(n, setup, e);
      && (forall f :: f in r.roster <==> f == e || (f in n.roster && f.joinIndex != e.joinIndex))
      && r.rejoinStates == n.rejoinStates - {e.joinIndex}
      && (forall q :: q in r.world.players <==>
            if p.Some? then q == p.value || (q in n.world.players && q.id != e.playerId) else q in n.world.players)
      && UniqueIds(r.world.players)
  {
    EntriesStayInOrder(n.roster, e);
    var p := Brings(n, setup, e);
    if p.Some? {
      PuttingReplaces(n.world.players, p.value);
      PuttingKeepsUnique(n.world.players, p.value);
    }
  }

  lemma {:induction false} BroadcastExactly(n: State, self: Self, setup: Simulation.Setup, es: seq<Roster.Entry>,
      now: real)
    requires InOrder(n, self) && n.promotionDone && LobbyRoster(es, self) && UniqueIds(n.world.players)
    ensures BroadcastEffect(n, AllReentered(n, self, setup, es, now), self, setup, es)
  {
    if es != [] {
      var rest, last := es[..|es| - 1], es[|es| - 1];
      BroadcastExactly(n, self, setup, rest, now);
      ReentriesKeepOk(n, self, setup, rest, now);
      var before := AllReentered(n, self, setup, rest, now);
      OneMoreArrival(n, before, self, setup, es, now);
    }
  }

  /** The next entry of a broadcast meets its own slot as it was before all of it. */
  lemma SlotUntouched(n: State, before: State, self: Self, setup: Simulation.Setup, es: seq<Roster.Entry>)
    requires InOrder(n, self) && InOrder(before, self) && LobbyRoster(es, self) && es != []
    requires BroadcastEffect(n, before, self, setup, es[..|es| - 1])
    ensures var last := es[|es| - 1];
      Enters(before, self, last) == Enters(n, self, last) && Brings(before, setup, last) == Brings(n, setup, last)
    ensures !SlotTaken(n, self, es[..|es| - 1], es[|es| - 1].joinIndex)
  {
    var rest, last := es[..|es| - 1], es[|es| - 1];
    forall e | Arrives(n, self, rest, e) ensures e.joinIndex != last.joinIndex { EarlierIndexDiffers(es, e); }
    assert forall f: Roster.Entry :: f.joinIndex == last.joinIndex ==> (f in before.roster <==> f in n.roster);
    SettledExactly(n, self, last);
    SettledExactly(before, self, last);
    assert Settled(n, self, last) <==> Settled(before, self, last);
    Lobby.IndexListed(n.roster, last.joinIndex);
    Lobby.IndexListed(before.roster, last.joinIndex);
  }

  /** How the last entry of a broadcast adds to what the entries before it do. */
  ghost predicate Grows(n: State, self: Self, setup: Simulation.Setup, es: seq<Roster.Entry>)
    requires es != []
  {
    var rest, last := es[..|es| - 1], es[|es| - 1];
    && (forall e :: Arrives(n, self, es, e) <==> Arrives(n, self, rest, e) || (e == last && Enters(n, self, last)))
    && (forall j :: SlotTaken(n, self, es, j) <==>
         SlotTaken(n, self, rest, j) || (j == last.joinIndex && Enters(n, self, last)))
    && (forall id :: Replaced(n, self, setup, es, id) <==>
          Replaced(n, self, setup, rest, id) ||
              (id == last.playerId && Enters(n, self, last) && Brings(n, setup, last).Some?))
    && (forall p :: Brought(n, self, setup, es, p) <==>
          Brought(n, self, setup, rest, p) || (Enters(n, self, last) && Brings(n, setup, last) == Some(p)))
  }

  lemma BroadcastGrows(n: State, self: Self, setup: Simulation.Setup, es: seq<Roster.Entry>)
    requires es != []
    ensures Grows(n, self, setup, es)
  {
    var rest, last := es[..|es| - 1], es[|es| - 1];
    assert forall e :: e in es <==> e in rest || e == last;
    assert Enters(n, self, last) ==> Arrives(n, self, es, last);
    forall e | Arrives(n, self, rest, e) ensures Arrives(n, self, es, e) {}
  }

  lemma OneMoreArrival(n: State, before: State, self: Self, setup: Simulation.Setup, es: seq<Roster.Entry>, now: real)
    requires InOrder(n, self) && InOrder(before, self) && LobbyRoster(es, self) && es != []
    requires BroadcastEffect(n, before, self, setup, es[..|es| - 1])
    ensures BroadcastEffect(n, Reentered(before, self, setup, es[|es| - 1], now), self, setup, es)
  {
    hide InOrder;
    var last := es[|es| - 1];
    SlotUntouched(n, before, self, setup, es);
    BroadcastGrows(n, self, setup, es);
    NobodyElseBrings(n, self, setup, es);
    var r := Reentered(before, self, setup, last, now);
    if Enters(n, self, last) {
      ArrivalEffect(before, self, setup, last, now);
      hide Reentered;
      OneMoreEntry(n, before.roster, r.roster, self, setup, es);
      OneMoreSaved(n, before.rejoinStates, r.rejoinStates, self, setup, es);
      OneMoreCharacter(n, before.world.players, r.world.players, self, setup, es);
    } else {
      assert r == before;
      hide Reentered;
      assert RosterEffect(n, before.roster, self, es) && SavedEffect(n, before.rejoinStates, self, es);
      assert WorldEffect(n, before.world.players, self, setup, es);
    }
  }

  lemma OneMoreEntry(n: State, before: seq<Roster.Entry>, after: seq<Roster.Entry>, self: Self,
      setup: Simulation.Setup, es: seq<Roster.Entry>)
    requires es != [] && Grows(n, self, setup, es) && RosterEffect(n, before, self, es[..|es| - 1])
    requires var last := es[|es| - 1];
      && Enters(n, self, last) && !SlotTaken(n, self, es[..|es| - 1], last.joinIndex)
      && forall f :: f in after <==> f == last || (f in before && f.joinIndex != last.joinIndex)
    ensures RosterEffect(n, after, self, es)
  {
    var rest, last := es[..|es| - 1], es[|es| - 1];
    assert forall f :: Arrives(n, self, rest, f) && f.joinIndex == last.joinIndex ==>
        SlotTaken(n, self, rest, last.joinIndex);
  }

  lemma OneMoreSaved(n: State, before: map<int, Player>, after: map<int, Player>, self: Self, setup: Simulation.Setup,
      es: seq<Roster.Entry>)
    requires es != [] && Grows(n, self, setup, es) && SavedEffect(n, before, self, es[..|es| - 1])
    requires Enters(n, self, es[|es| - 1]) && after == before - {es[|es| - 1].joinIndex}
    ensures SavedEffect(n, after, self, es)
  {
  }

  lemma OneMoreCharacter(n: State, before: seq<Player>, after: seq<Player>, self: Self, setup: Simulation.Setup,
      es: seq<Roster.Entry>)
    requires es != [] && Grows(n, self, setup, es) && WorldEffect(n, before, self, setup, es[..|es| - 1]) &&
        UniqueIds(after)
    requires var last, p := es[|es| - 1], Brings(n, setup, es[|es| - 1]);
      && Enters(n, self, last)
      && (forall q :: Brought(n, self, setup, es[..|es| - 1], q) ==> q.id != last.playerId)
      && !Replaced(n, self, setup, es[..|es| - 1], last.playerId)
      && forall q :: q in after <==> if p.Some? then q == p.value || (q in before && q.id != last.playerId)
           else q in before
    ensures WorldEffect(n, after, self, setup, es)
  {
  }

  /** Different slots have different ids, so arrivals never replace each other's characters. */
  lemma NobodyElseBrings(n: State, self: Self, setup: Simulation.Setup, es: seq<Roster.Entry>)
    requires LobbyRoster(es, self) && es != []
    ensures !Replaced(n, self, setup, es[..|es| - 1], es[|es| - 1].playerId)
    ensures forall p :: Brought(n, self, setup, es[..|es| - 1], p) ==> p.id != es[|es| - 1].playerId
  {
    var rest, last := es[..|es| - 1], es[|es| - 1];
    forall e | Arrives(n, self, rest, e) ensures e.playerId != last.playerId {
      EarlierIndexDiffers(es, e);
      assert Lobby.Canonical(e) && Lobby.Canonical(last);
      if e.playerId == last.playerId { Roster.PlayerIdsAreDistinct(e.joinIndex, last.joinIndex); }
    }
  }

  /** Somebody returns or is new in this broadcast. */
  ghost predicate SomeoneArrives(n: State, self: Self, es: seq<Roster.Entry>) { exists e :: Arrives(n, self, es, e) }

  lemma {:induction false} SomeoneEntersExactly(n: State, self: Self, setup: Simulation.Setup, es: seq<Roster.Entry>,
      now: real)
    requires InOrder(n, self) && n.promotionDone && LobbyRoster(es, self) && UniqueIds(n.world.players)
    ensures SomeoneEnters(n, self, setup, es, now) <==> SomeoneArrives(n, self, es)
    ensures !SomeoneArrives(n, self, es) ==> AllReentered(n, self, setup, es, now) == n
  {
    if es != [] {
      hide InOrder, UniqueIds, Enters, BroadcastEffect, Reentered;
      var rest, last := es[..|es| - 1], es[|es| - 1];
      SomeoneEntersExactly(n, self, setup, rest, now);
      BroadcastExactly(n, self, setup, rest, now);
      ReentriesKeepOk(n, self, setup, rest, now);
      SlotUntouched(n, AllReentered(n, self, setup, rest, now), self, setup, es);
      if Enters(n, self, last) { assert Arrives(n, self, es, last); }
      if e :| Arrives(n, self, rest, e) { assert Arrives(n, self, es, e); }
      if e :| Arrives(n, self, es, e) { assert e != last ==> Arrives(n, self, rest, e); }
      NotEntering(AllReentered(n, self, setup, rest, now), self, setup, last, now);
    }
  }

  lemma NotEntering(n: State, self: Self, setup: Simulation.Setup, e: Roster.Entry, now: real)
    ensures !Enters(n, self, e) ==> Reentered(n, self, setup, e, now) == n
  {
  }

  /** The world sent out shows every arrival's character: its saved one, or a new one. */
  ghost predicate ShowsArrivals(n: State, w: Simulation.World, self: Self, setup: Simulation.Setup,
      es: seq<Roster.Entry>) {
    forall e :: Arrives(n, self, es, e) && Brings(n, setup, e).Some? ==> Brings(n, setup, e).value in w.players
  }

  /** When somebody arrives in a broadcast exactly one message goes out, the world that results, with
      every arrival's character in it; otherwise nothing is sent and nothing changes. */
  lemma SyncIsSentExactly(n: State, self: Self, setup: Simulation.Setup, es: seq<Roster.Entry>, now: real)
    requires InOrder(n, self) && n.promotionDone && LobbyRoster(es, self) && UniqueIds(n.world.players)
    ensures var r := BroadcastHeard(n, self, setup, es, now);
      if SomeoneArrives(n, self, es)
      then r.sent == n.sent + [InitialStateSync(r.world)] && ShowsArrivals(n, r.world, self, setup, es)
      else r == n
  {
    SomeoneEntersExactly(n, self, setup, es, now);
    BroadcastExactly(n, self, setup, es, now);
    ReentriesSendNothing(n, self, setup, es, now);
    forall e | Arrives(n, self, es, e) && Brings(n, setup, e).Some?
        ensures Brought(n, self, setup, es, Brings(n, setup, e).value) {
    }
  }

  lemma {:induction false} ReentriesSendNothing(n: State, self: Self, setup: Simulation.Setup, es: seq<Roster.Entry>,
      now: real)
    ensures AllReentered(n, self, setup, es, now).sent == n.sent
  {
    if es != [] { ReentriesSendNothing(n, self, setup, es[..|es| - 1], now); }
  }

  lemma SlotIsGivenBack(n: State, self: Self, s: Lobby.Session, joinIndex: nat, host: string, port: int)
    requires InOrder(n, self) && joinIndex in n.rejoinStates && Lobby.SessionOk(s) && joinIndex in s.reserved
    ensures var id := Roster.PlayerIdFor(joinIndex);
      var joined := Lobby.Joined(s, id, host, port, Some(joinIndex));
      && id != self.id
      && joined.Some? && joined.value.1 == joinIndex
      && joined.value.0.entries == s.entries + [Lobby.NewEntry(joinIndex, host, port)]
      && Roster.DistinctIndices(joined.value.0.entries)
  {
    var id := Roster.PlayerIdFor(joinIndex);
    Lobby.IndexListed(s.entries, joinIndex);
    Lobby.JoinKeepsOk(s, id, host, port, Some(joinIndex));
    if id == self.id { Roster.PlayerIdsAreDistinct(joinIndex, self.joinIndex); }
  }

  /** Whoever waits to return gets its slot back from any lobby session of this host that has it
      reserved, whoever else has joined or come back by then. The broadcast that follows puts exactly
      its saved character into the world, in place of one a restored snapshot may have left behind,
      and touches no character but those of the arrivals. */
  lemma ReturnRestoresTheCharacter(
      n: State, self: Self, setup: Simulation.Setup, s: Lobby.Session, joinIndex: nat, host: string, port: int,
      now: real)
    requires InOrder(n, self) && n.promotionDone && UniqueIds(n.world.players)
    requires joinIndex in n.rejoinStates && !Roster.HasIndex(n.roster, joinIndex)
    requires Lobby.SessionOk(s) && joinIndex in s.reserved && Lobby.HostIs(s, self.id)
    ensures var id := Roster.PlayerIdFor(joinIndex);
      var joined := Lobby.Joined(s, id, host, port, Some(joinIndex));
      && !Lobby.Full(s, Some(joinIndex)) && joined.Some? && joined.value.1 == joinIndex
      && var after := BroadcastHeard(n, self, setup, Roster.Sorted(joined.value.0.entries), now);
         && (forall p :: p in after.world.players && p.id == id <==>
              p == n.rejoinStates[joinIndex].(joinIndex := joinIndex))
         && (forall p :: p in n.world.players && p.id != id && !Replaced(n, self, setup, s.entries, p.id) ==>
              p in after.world.players)
         && ((forall e :: e in s.entries ==> Settled(n, self, e)) ==>
               forall p :: p in after.world.players && p.id != id ==> p in n.world.players)
         && Lobby.NewEntry(joinIndex, host, port) in after.roster && joinIndex !in after.rejoinStates
         && after.cache == n.cache && after.sent == n.sent + [InitialStateSync(after.world)]
  {
    hide BroadcastHeard, InOrder, Settled;
    SlotIsGivenBack(n, self, s, joinIndex, host, port);
    var x := Lobby.NewEntry(joinIndex, host, port);
    var joined := Lobby.Joined(s, x.playerId, host, port, Some(joinIndex)).value.0;
    hide Lobby.Joined;
    JoinedRosterIsSound(s, self, x, joined);
    ReturnIsHeard(n, self, setup, s.entries, Roster.Sorted(joined.entries), x, now);
  }

  /** A broadcast heard in which x returns to its saved character. */
  lemma ReturnIsHeard(n: State, self: Self, setup: Simulation.Setup, others: seq<Roster.Entry>, es: seq<Roster.Entry>,
                      x: Roster.Entry, now: real)
    requires InOrder(n, self) && n.promotionDone && UniqueIds(n.world.players)
    requires LobbyRoster(es, self) && forall e :: e in es <==> e in others || e == x
    requires x.playerId != self.id && x.joinIndex in n.rejoinStates && !Roster.HasIndex(n.roster, x.joinIndex)
    ensures var r := BroadcastHeard(n, self, setup, es, now);
      && (forall p :: p in r.world.players && p.id == x.playerId <==>
           p == n.rejoinStates[x.joinIndex].(joinIndex := x.joinIndex))
      && (forall p :: p in n.world.players && p.id != x.playerId && !Replaced(n, self, setup, others, p.id) ==>
           p in r.world.players)
      && ((forall e :: e in others ==> Settled(n, self, e)) ==>
            forall p :: p in r.world.players && p.id != x.playerId ==> p in n.world.players)
      && x in r.roster && x.joinIndex !in r.rejoinStates && r.cache == n.cache
      && r.sent == n.sent + [InitialStateSync(r.world)]
  {
    SyncIsSentExactly(n, self, setup, es, now);
    TheReturner(n, self, setup, others, es, x);
    assert SomeoneArrives(n, self, es);
    hide AllReentered, SomeoneEnters, InOrder, LobbyRoster, Settled, Replaced, BroadcastEffect, Arrives;
    BroadcastExactly(n, self, setup, es, now);
    ReentriesKeepInputs(n, self, setup, es, now);
    ReturnerAmongOthers(n, self, setup, others, es, x, AllReentered(n, self, setup, es, now));
  }

  /** The effect of a broadcast in which x returns to its saved character. */
  lemma ReturnerAmongOthers(n: State, self: Self, setup: Simulation.Setup, others: seq<Roster.Entry>,
      es: seq<Roster.Entry>, x: Roster.Entry, r: State)
    requires InOrder(n, self) && LobbyRoster(es, self) && forall e :: e in es <==> e in others || e == x
    requires x.playerId != self.id && x.joinIndex in n.rejoinStates && !Roster.HasIndex(n.roster, x.joinIndex)
    requires BroadcastEffect(n, r, self, setup, es)
    ensures forall p :: p in r.world.players && p.id == x.playerId <==>
              p == n.rejoinStates[x.joinIndex].(joinIndex := x.joinIndex)
    ensures forall p :: p in n.world.players && p.id != x.playerId && !Replaced(n, self, setup, others, p.id) ==>
        p in r.world.players
    ensures (forall e :: e in others ==> Settled(n, self, e)) ==>
              forall p :: p in r.world.players && p.id != x.playerId ==> p in n.world.players
    ensures x in r.roster && x.joinIndex !in r.rejoinStates
  {
    TheReturner(n, self, setup, others, es, x);
    OthersArriveAlike(n, self, setup, others, es, x);
    assert Brought(n, self, setup, es, n.rejoinStates[x.joinIndex].(joinIndex := x.joinIndex));
    forall p | Brought(n, self, setup, es, p) && p.id == x.playerId
      ensures p == n.rejoinStates[x.joinIndex].(joinIndex := x.joinIndex)
    {
      var e :| Arrives(n, self, es, e) && Brings(n, setup, e) == Some(p);
      assert e.playerId == p.id;
    }
  }

  lemma JoinedRosterIsSound(s: Lobby.Session, self: Self, x: Roster.Entry, joined: Lobby.Session)
    requires Lobby.SessionOk(s) && Lobby.HostIs(s, self.id) && Lobby.Canonical(x) && !x.isHost
    requires joined.entries == s.entries + [x] && Roster.DistinctIndices(joined.entries)
    ensures LobbyRoster(Roster.Sorted(joined.entries), self)
    ensures forall e :: e in Roster.Sorted(joined.entries) <==> e in s.entries || e == x
  {
    Roster.SameEntries(joined.entries);
    Roster.SortedIsDistinct(joined.entries);
  }

  /** In the broadcast the returning player arrives, with its saved character, and nobody else brings
      a character with its id. */
  lemma TheReturner(n: State, self: Self, setup: Simulation.Setup, others: seq<Roster.Entry>, es: seq<Roster.Entry>,
      x: Roster.Entry)
    requires InOrder(n, self) && LobbyRoster(es, self) && forall e :: e in es <==> e in others || e == x
    requires x.playerId != self.id && x.joinIndex in n.rejoinStates && !Roster.HasIndex(n.roster, x.joinIndex)
    ensures Arrives(n, self, es, x) && Brings(n, setup, x) ==
        Some(n.rejoinStates[x.joinIndex].(joinIndex := x.joinIndex))
    ensures forall e :: e in es && e.playerId == x.playerId ==> e == x
    ensures forall e, p :: e in es && Brings(n, setup, e) == Some(p) ==> p.id == e.playerId
    ensures Replaced(n, self, setup, es, x.playerId) && SlotTaken(n, self, es, x.joinIndex)
  {
    assert Lobby.Canonical(x);
    SamePlayerSameEntry(es);
  }

  lemma OthersArriveAlike(n: State, self: Self, setup: Simulation.Setup, others: seq<Roster.Entry>,
      es: seq<Roster.Entry>, x: Roster.Entry)
    requires Roster.DistinctIndices(n.roster) && forall e :: e in es <==> e in others || e == x
    ensures forall id :: id != x.playerId ==>
        (Replaced(n, self, setup, es, id) <==> Replaced(n, self, setup, others, id))
    ensures (forall e :: e in others ==> Settled(n, self, e)) ==> forall e :: Arrives(n, self, es, e) ==> e == x
  {
    forall id | id != x.playerId ensures Replaced(n, self, setup, es, id) <==> Replaced(n, self, setup, others, id) {
      assert forall e :: Arrives(n, self, es, e) && e.playerId == id ==> Arrives(n, self, others, e);
      assert forall e :: Arrives(n, self, others, e) ==> Arrives(n, self, es, e);
    }
    forall e | e in others ensures Enters(n, self, e) <==> !Settled(n, self, e) { SettledExactly(n, self, e); }
  }

  // ---- While a player is away ---------------------------------------------------------------

  /** Its character is saved and its slot is nobody's. */
  ghost predicate Absent(n: State, joinIndex: nat, character: Player) {
    && joinIndex in n.rejoinStates && n.rejoinStates[joinIndex] == character
    && joinIndex !in Roster.IndicesOf(n.roster)
    && UniqueIds(n.world.players)
  }

  /** Nobody enters under that slot, and the simulation keeps one character per id. */
  ghost predicate Elsewhere(h: Happening, joinIndex: int) {
    match h
    case RosterArrives(es) => joinIndex !in Roster.IndicesOf(es)
    case LobbyArrives(es, _, _) => joinIndex !in Roster.IndicesOf(es)
    case WorldChanges(w, _, _) => UniqueIds(w.players)
    case _ => true
  }

  lemma EvictionKeepsAbsent(n: State, id: string, joinIndex: nat, character: Player)
    requires Absent(n, joinIndex, character)
    ensures Absent(Evicted(n, id), joinIndex, character)
  {
    var i := Roster.FindPlayer(n.roster, id);
    if i >= 0 { assert n.roster[i] in n.roster && n.roster[i].joinIndex in Roster.IndicesOf(n.roster); }
    RemovalKeepsUnique(n.world.players, id);
  }

  lemma {:induction false} DropsKeepAbsent(n: State, ids: seq<string>, joinIndex: nat, character: Player)
    requires Absent(n, joinIndex, character)
    ensures Absent(AllDropped(n, ids), joinIndex, character)
  {
    if ids != [] {
      DropsKeepAbsent(n, ids[..|ids| - 1], joinIndex, character);
      EvictionKeepsAbsent(AllDropped(n, ids[..|ids| - 1]), ids[|ids| - 1], joinIndex, character);
    }
  }

  lemma {:induction false} SilentDropsKeepAbsent(n: State, ids: seq<string>, now: real, joinIndex: nat,
      character: Player)
    requires Absent(n, joinIndex, character)
    ensures Absent(SilentDropped(n, ids, now), joinIndex, character)
  {
    if ids != [] {
      SilentDropsKeepAbsent(n, ids[..|ids| - 1], now, joinIndex, character);
      EvictionKeepsAbsent(SilentDropped(n, ids[..|ids| - 1], now), ids[|ids| - 1], joinIndex, character);
    }
  }

  lemma {:induction false} LearningKeepsAbsent(roster: seq<Roster.Entry>, known: set<int>, id: string,
      es: seq<Roster.Entry>, joinIndex: int)
    requires joinIndex !in Roster.IndicesOf(roster) && joinIndex !in Roster.IndicesOf(es)
    ensures joinIndex !in Roster.IndicesOf(Learned(roster, known, id, es))
  {
    if es != [] {
      var n := |es| - 1;
      assert es[n] in es && forall e :: e in es[..n] ==> e in es;
      assert es[n].joinIndex in Roster.IndicesOf(es);
      assert forall e :: e in es[..n] ==> e.joinIndex in Roster.IndicesOf(es);
      LearningKeepsAbsent(roster, known, id, es[..n], joinIndex);
      var before := Learned(roster, known, id, es[..n]);
      forall e | e in before + [es[n]] ensures e.joinIndex != joinIndex {
        if e in before { assert e.joinIndex in Roster.IndicesOf(before); }
      }
    }
  }

  lemma BroadcastKeepsAbsent(n: State, self: Self, setup: Simulation.Setup, es: seq<Roster.Entry>, now: real,
      joinIndex: nat, character: Player)
    requires InOrder(n, self) && n.promotionDone && LobbyRoster(es, self)
    requires Absent(n, joinIndex, character) && joinIndex !in Roster.IndicesOf(es)
    ensures Absent(BroadcastHeard(n, self, setup, es, now), joinIndex, character)
  {
    BroadcastExactly(n, self, setup, es, now);
    assert forall e :: Arrives(n, self, es, e) ==> e.joinIndex in Roster.IndicesOf(es);
    assert !SlotTaken(n, self, es, joinIndex);
    var r := AllReentered(n, self, setup, es, now);
    forall f | f in r.roster ensures f.joinIndex != joinIndex {
      assert f in n.roster ==> f.joinIndex in Roster.IndicesOf(n.roster);
    }
  }

  lemma HappeningKeepsAbsent(n: State, self: Self, h: Happening, joinIndex: nat, character: Player)
    requires InOrder(n, self) && n.promotionDone && CanHappen(n, self, h) && Elsewhere(h, joinIndex)
    requires Absent(n, joinIndex, character)
    ensures Absent(Happened(n, self, h), joinIndex, character)
  {
    match h {
      case PlayerLeft(id) => EvictionKeepsAbsent(n, id, joinIndex, character);
      case ConnectionsChecked(disconnected, heard, now) =>
        DropsKeepAbsent(n, disconnected, joinIndex, character);
        SilentDropsKeepAbsent(AllDropped(n, disconnected), heard, now, joinIndex, character);
      case RosterArrives(es) => LearningKeepsAbsent(n.roster, Roster.IndicesOf(n.roster), self.id, es, joinIndex);
      case LobbyArrives(es, setup, now) => BroadcastKeepsAbsent(n, self, setup, es, now, joinIndex, character);
      case _ =>
    }
  }

  /** Whatever happens to the host meanwhile, its own ticks, evictions of others, broadcasts and inputs
      included: while nobody enters under the slot, the character stays saved for it. */
  lemma {:induction false} AbsenceKeepsTheCharacter(n: State, self: Self, hs: seq<Happening>, joinIndex: nat,
      character: Player)
    requires InOrder(n, self) && n.promotionDone && Lives(n, self, hs)
    requires forall i :: 0 <= i < |hs| ==> Elsewhere(hs[i], joinIndex)
    requires Absent(n, joinIndex, character)
    ensures var m := After(n, self, hs).node;
      InOrder(m, self) && m.promotionDone && Absent(m, joinIndex, character)
  {
    if hs != [] {
      var k := |hs| - 1;
      AbsenceKeepsTheCharacter(n, self, hs[..k], joinIndex, character);
      var before := After(n, self, hs[..k]);
      HappeningKeeps(before.node, self, hs[k], before.history);
      HappeningKeepsAbsent(before.node, self, hs[k], joinIndex, character);
    }
  }

  /** A participant that crashes while alive and returns. The lobby is registered by this host before
      or after the eviction; others join, leave and come back meanwhile, and the host ticks, evicts
      others, and hears broadcasts and inputs. The slot stays reserved and is given back, and the world
      then holds the character it had before the crash, and exactly the characters it held before when
      nothing else happened. Out of any stream of inputs after the return one is accepted exactly when
      the stream holds one numbered above everything of that player that arrived since its eviction.
      The one message the host sends then shows the returning client its character. */
  lemma CrashAndReturn(
      n: State, self: Self, setup: Simulation.Setup, e: Roster.Entry, early: bool, ops: seq<Lobby.Operation>,
      hs: seq<Happening>, host: string, port: int, now: real, stream: seq<Inputs.Packet>,
          client: ClientLoopModel.Client)
    requires InOrder(n, self) && n.promotionDone && self.sessionId != "" && self.ip != ""
    requires e in n.roster && e.playerId != self.id && UniqueIds(n.world.players) && Alive(n, e.playerId)
    requires n.world.players[Simulation.FindPlayer(n.world.players, e.playerId)].joinIndex == e.joinIndex
    requires forall i :: 0 <= i < |ops| ==> Lobby.ByOthers(ops[i], e.joinIndex, self.joinIndex)
    requires Lives(Evicted(n, e.playerId), self, hs)
    requires forall i :: 0 <= i < |hs| ==> Elsewhere(hs[i], e.joinIndex)
    ensures var crashed, was := Evicted(n, e.playerId),
        n.world.players[Simulation.FindPlayer(n.world.players, e.playerId)];
      var m := RecreateRequest(if early then n else crashed, self);
      && Lobby.Validated(m) && e.joinIndex >= 0
      && var s := Lobby.OperatedAll(Lobby.Recreated(m), ops);
         var joined := Lobby.Joined(s, e.playerId, host, port, Some(e.joinIndex));
         && e.joinIndex in s.reserved && joined.Some? && joined.value.1 == e.joinIndex
         && var later := After(crashed, self, hs).node;
            var after := BroadcastHeard(later, self, setup, Roster.Sorted(joined.value.0.entries), now);
            && (forall p :: p in after.world.players && p.id == e.playerId <==> p == was)
            && (ops == [] && hs == [] ==> forall p :: p in after.world.players <==> p in n.world.players)
            && Lobby.NewEntry(e.joinIndex, host, port) in after.roster
            && ToldItsCharacter(later, after, client, was)
            && HeardAgainExactly(after.cache, ArrivedSince(crashed, self, hs, e.playerId), stream, e.playerId)
  {
    hide BroadcastHeard, Evicted, Lobby.Joined, InOrder, After, HeardAgainExactly, ToldItsCharacter;
    hide Lobby.Recreated, RecreateRequest, Lobby.Validated, Elsewhere, Roster.PlayerIdFor;
    var crashed, was := Evicted(n, e.playerId), n.world.players[Simulation.FindPlayer(n.world.players, e.playerId)];
    ReadyToReturn(n, self, e);
    var m := RecreateRequest(if early then n else crashed, self);
    RequestIsAccepted(if early then n else crashed, self);
    Lobby.ReservationSurvives(Lobby.Recreated(m), ops, e.joinIndex, self.joinIndex, self.id);
    var s := Lobby.OperatedAll(Lobby.Recreated(m), ops);
    Lobby.IndexListed(crashed.roster, e.joinIndex);
    AbsenceKeepsTheCharacter(crashed, self, hs, e.joinIndex, was);
    var later := After(crashed, self, hs).node;
    Lobby.IndexListed(later.roster, e.joinIndex);
    ReturnRestoresTheCharacter(later, self, setup, s, e.joinIndex, host, port, now);
    var es := Roster.Sorted(Lobby.Joined(s, e.playerId, host, port, Some(e.joinIndex)).value.0.entries);
    SyncTells(later, BroadcastHeard(later, self, setup, es, now), client, was);
    ReturnerIsHeardAgain(n, self, e, hs, stream);
    if ops == [] && hs == [] {
      NothingElseHappened(n, self, setup, e, s, crashed, hs);
    }
  }

  /** One message was sent, and a client that takes over the world in it sees its character as it was. */
  ghost predicate ToldItsCharacter(before: State, after: State, client: ClientLoopModel.Client, was: Player) {
    && |after.sent| == |before.sent| + 1 && after.sent[..|before.sent|] == before.sent
    && var m := after.sent[|before.sent|];
       && m.InitialStateSync?
       && forall p :: p in ClientLoopModel.AfterSync(client, m.world).sim.world.players && p.id == was.id <==> p == was
  }

  lemma SyncTells(before: State, after: State, client: ClientLoopModel.Client, was: Player)
    requires after.sent == before.sent + [InitialStateSync(after.world)]
    requires forall p :: p in after.world.players && p.id == was.id <==> p == was
    ensures ToldItsCharacter(before, after, client, was)
  {
    assert after.sent[..|before.sent|] == before.sent;
  }

  /** Some input of the stream is accepted exactly when one is numbered above all that arrived; without
      one the host goes on with the highest-numbered input among these, if any. */
  ghost predicate HeardAgainExactly(c: Inputs.Cache, arrived: seq<Inputs.Packet>, stream: seq<Inputs.Packet>,
      id: string)
  {
    && (Inputs.SomeAccepted(c, stream, id) <==> Inputs.SomeNewer(stream, arrived, id))
    && (!Inputs.SomeNewer(stream, arrived, id) ==>
          Inputs.SameAbout(Inputs.CachedAll(Inputs.EMPTY_CACHE, arrived), Inputs.CachedAll(c, stream), id))
  }

  lemma ReturnerIsHeardAgain(n: State, self: Self, e: Roster.Entry, hs: seq<Happening>, stream: seq<Inputs.Packet>)
    requires InOrder(n, self) && n.promotionDone && e.playerId != self.id && Lives(Evicted(n, e.playerId), self, hs)
    ensures var crashed := Evicted(n, e.playerId);
      HeardAgainExactly(After(crashed, self, hs).node.cache, ArrivedSince(crashed, self, hs, e.playerId), stream,
          e.playerId)
  {
    var crashed, id := Evicted(n, e.playerId), e.playerId;
    EvictionForgets(n, id, id);
    EvictionKeepsOk(n, self, id);
    KnowsWhatArrived(crashed, self, hs, id);
    Inputs.HeardAfterExactly(After(crashed, self, hs).node.cache, ArrivedSince(crashed, self, hs, id), stream, id);
  }

  lemma NothingElseHappened(n: State, self: Self, setup: Simulation.Setup, e: Roster.Entry, s: Lobby.Session,
      crashed: State, hs: seq<Happening>)
    requires hs == [] && Lives(crashed, self, hs) && forall f :: f in s.entries ==> f.playerId == self.id
    requires UniqueIds(n.world.players) && Alive(n, e.playerId)
    ensures After(crashed, self, hs).node == crashed
    ensures forall f :: f in s.entries ==> Settled(crashed, self, f)
    ensures forall id :: !Replaced(crashed, self, setup, s.entries, id)
    ensures forall p :: p in n.world.players <==>
              (p in n.world.players && p.id != e.playerId) ||
                  p == n.world.players[Simulation.FindPlayer(n.world.players, e.playerId)]
  {
    OnlyThatCharacter(n.world.players, e.playerId);
  }

  lemma ReadyToReturn(n: State, self: Self, e: Roster.Entry)
    requires InOrder(n, self) && e in n.roster && e.playerId != self.id && Alive(n, e.playerId)
    ensures var crashed := Evicted(n, e.playerId);
      && InOrder(crashed, self) && crashed.promotionDone == n.promotionDone
      && ReservedSlots(crashed, self) == ReservedSlots(n, self)
      && 0 <= e.joinIndex && e.playerId == Roster.PlayerIdFor(e.joinIndex)
      && crashed.rejoinStates ==
           n.rejoinStates[e.joinIndex := n.world.players[Simulation.FindPlayer(n.world.players, e.playerId)]]
      && !Roster.HasIndex(crashed.roster, e.joinIndex)
      && (forall f :: f in crashed.roster <==> f in n.roster && f != e)
      && (forall p :: p in crashed.world.players <==> p in n.world.players && p.id != e.playerId)
      && (UniqueIds(n.world.players) ==> UniqueIds(crashed.world.players))
      && Inputs.LastNumber(crashed.cache, e.playerId) == -1
  {
    var crashed := Evicted(n, e.playerId);
    assert Lobby.Canonical(e);
    EvictionKeepsOk(n, self, e.playerId);
    ReservationIsKeptExactly(n, self, e);
    OneEntryLeaves(n.roster, e);
    OneIndexLeaves(n.roster, e);
    forall k | 0 <= k < |crashed.roster| ensures crashed.roster[k].joinIndex != e.joinIndex {
      assert crashed.roster[k] in crashed.roster;
    }
    RemovedPlayers(n.world.players, e.playerId);
    if UniqueIds(n.world.players) { RemovalKeepsUnique(n.world.players, e.playerId); }
  }

  lemma {:induction false} RemovalKeepsUnique(ps: seq<Player>, id: string)
    requires UniqueIds(ps)
    ensures UniqueIds(Simulation.RemovePlayer(ps, id))
  {
    if ps != [] {
      RemovalKeepsUnique(ps[1..], id);
      RemovedPlayers(ps[1..], id);
      var rest := Simulation.RemovePlayer(ps[1..], id);
      forall k | 0 <= k < |rest| ensures rest[k].id != ps[0].id {
        assert rest[k] in rest;
        var j :| 0 <= j < |ps| - 1 && ps[1..][j] == rest[k];
      }
    }
  }

  lemma OnlyThatCharacter(ps: seq<Player>, id: string)
    requires UniqueIds(ps) && Simulation.FindPlayer(ps, id) >= 0
    ensures forall p :: p in ps <==> (p in ps && p.id != id) || p == ps[Simulation.FindPlayer(ps, id)]
  {
    var j := Simulation.FindPlayer(ps, id);
    forall p | p in ps && p.id == id ensures p == ps[j] {
      var i :| 0 <= i < |ps| && ps[i] == p;
    }
  }

  /** The claimant once promoted, with the third player listed but dead. */
  function HostWithDeadPlayer(): State {
    var n := Claimant(NewPlayer(Roster.PlayerIdFor(2), 0.0, 0.0, 2));
    n.(roster := [Member(1, "second", true), Member(2, "third", false)], world := WorldOf([]),
       authoritative := true, role := Host, promotionDone := true, pendingAcks := {})
  }

  /** Evicting it there loses its slot: a newcomer can take the join index. */
  lemma DeadPlayerLosesItsSlot()
    ensures var n, e := HostWithDeadPlayer(), Member(2, "third", false);
      && InOrder(n, SECOND) && e in n.roster && e.joinIndex in ReservedSlots(n, SECOND)
      && e.joinIndex !in ReservedSlots(Evicted(n, e.playerId), SECOND)
  {
    hide Roster.PlayerIdFor;
    var n, e := HostWithDeadPlayer(), Member(2, "third", false);
    ClaimantIsInOrder(NewPlayer(Roster.PlayerIdFor(2), 0.0, 0.0, 2));
    assert n.roster[0] in n.roster && n.roster[1] in n.roster;
    assert InOrder(n, SECOND);
    ReservationIsKeptExactly(n, SECOND, e);
  }

  // ---- A listed player that comes back at a new address --------------------------------------

  /** It keeps its last input number: out of any stream of inputs after its return one is accepted
      exactly when the stream holds one above that number, and until then the host goes on using its
      old input. After an eviction any input numbered from 0 on will do. */
  lemma MovedPlayerIsHeardExactly(n: State, self: Self, setup: Simulation.Setup, e: Roster.Entry, now: real,
      stream: seq<Inputs.Packet>)
    requires InOrder(n, self) && Enters(n, self, e)
    ensures var cache, last := Reentered(n, self, setup, e, now).cache, Inputs.LastNumber(n.cache, e.playerId);
      && (Inputs.SomeAccepted(cache, stream, e.playerId) <==> Inputs.SomeAbove(stream, e.playerId, last))
      && (!Inputs.SomeAbove(stream, e.playerId, last) ==>
           Inputs.SameAbout(n.cache, Inputs.CachedAll(cache, stream), e.playerId))
    ensures var cache := Reentered(Evicted(n, e.playerId), self, setup, e, now).cache;
      Inputs.SomeAccepted(cache, stream, e.playerId) <==> Inputs.SomeAbove(stream, e.playerId, -1)
  {
    Inputs.HeardFromExactly(Reentered(n, self, setup, e, now).cache, stream, e.playerId);
    Inputs.HeardFromExactly(Reentered(Evicted(n, e.playerId), self, setup, e, now).cache, stream, e.playerId);
  }

  /** While it is ignored it is also not heard: the first check more than ten seconds after its return,
      and no earlier one, drops it, and only then its last number is forgotten. */
  lemma IgnoredPlayerIsDropped(
      n: State, self: Self, setup: Simulation.Setup, e: Roster.Entry, entered: real, hs: seq<Happening>,
      check: Happening)
    requires InOrder(n, self) && n.promotionDone && Lobby.Canonical(e) && !e.isHost && Enters(n, self, e)
    requires var m, id := Reentered(n, self, setup, e, entered), e.playerId;
      && Lives(m, self, hs) && InTime(m, self, hs, id, entered)
      && (forall i :: 0 <= i < |hs| ==> LeavesAlone(hs[i], e))
      && (forall i :: 0 <= i < |hs| && hs[i].InputsArrive? ==>
            !Inputs.SomeAbove(hs[i].packets, id, Inputs.LastNumber(n.cache, id)))
      && check.ConnectionsChecked? && id in check.heard && LeavesAlone(check, e)
      && CanHappen(After(m, self, hs).node, self, check)
    ensures var before := After(Reentered(n, self, setup, e, entered), self, hs).node;
      var after := Happened(before, self, check);
      && Inputs.LastNumber(before.cache, e.playerId) == Inputs.LastNumber(n.cache, e.playerId)
      && (if check.now - entered > UDP_INPUT_TIMEOUT then Gone(after, e.playerId) else Present(after, e, entered))
  {
    var m := Reentered(n, self, setup, e, entered);
    ReentryKeepsOk(n, self, setup, e, entered);
    EntriesStayInOrder(n.roster, e);
    assert Present(m, e, entered);
    hide Reentered, InOrder, Present, Happened, CanHappen, LeavesAlone;
    UnheardSinceEntry(m, self, hs, e, entered, Inputs.LastNumber(n.cache, e.playerId));
    DroppedExactlyForSilence(m, self, hs, e, entered, check);
  }

  /** The third player's last input had number 5. */
  function HostThatHeardFive(input: Input): State {
    var id := Roster.PlayerIdFor(2);
    HostWithDeadPlayer().(cache := Inputs.Cache(map[id := 5], map[id := input]))
  }

  lemma InputsDoNotMatter(n: State, self: Self, cache: Inputs.Cache)
    requires InOrder(n, self)
    ensures InOrder(n.(cache := cache), self)
  {
  }

  lemma EntersElsewhere(cache: Inputs.Cache)
    ensures Enters(HostWithDeadPlayer().(cache := cache), SECOND, Member(2, "elsewhere", false))
  {
    hide Roster.PlayerIdFor;
    ClaimantIsInOrder(NewPlayer(Roster.PlayerIdFor(2), 0.0, 0.0, 2));
    var roster := HostWithDeadPlayer().roster;
    assert roster[1] == Member(2, "third", false) && roster[0].joinIndex == 1;
    assert |"elsewhere"| != |"third"|;
  }

  /** It restarts elsewhere and comes back, and none of its first five inputs is heard. */
  lemma RestartedPlayerIsIgnored(setup: Simulation.Setup, now: real, lastInput: Input, stream: seq<Inputs.Packet>)
    requires forall i :: 0 <= i < |stream| ==> stream[i].InputPacket? && 1 <= stream[i].number <= 5
    ensures var n, e := HostThatHeardFive(lastInput), Member(2, "elsewhere", false);
      var cache := Reentered(n, SECOND, setup, e, now).cache;
      && InOrder(n, SECOND) && Enters(n, SECOND, e)
      && !Inputs.SomeAccepted(cache, stream, e.playerId)
      && e.playerId in Inputs.CachedAll(cache, stream).inputs &&
           Inputs.CachedAll(cache, stream).inputs[e.playerId] == lastInput
  {
    hide Roster.PlayerIdFor, InOrder, Reentered;
    var n, e := HostThatHeardFive(lastInput), Member(2, "elsewhere", false);
    DeadPlayerLosesItsSlot();
    InputsDoNotMatter(HostWithDeadPlayer(), SECOND, n.cache);
    EntersElsewhere(n.cache);
    MovedPlayerIsHeardExactly(n, SECOND, setup, e, now, stream);
  }

  // ---- An input that arrives after the eviction ----------------------------------------------

  /** The promoted claimant, with the third player alive. */
  function HostWithLivingPlayer(): State {
    HostWithDeadPlayer().(world := WorldOf([NewPlayer(Roster.PlayerIdFor(2), 0.0, 0.0, 2)]))
  }

  /** The player is back under this entry, with a character, and nothing of the stream is heard: the
      host goes on with the straggler. */
  ghost predicate BackButSilenced(n: State, e: Roster.Entry, straggler: Inputs.Packet, stream: seq<Inputs.Packet>)
    requires straggler.InputPacket?
  {
    var c := Inputs.CachedAll(n.cache, stream);
    && e in n.roster && (exists p :: p in n.world.players && p.id == e.playerId)
    && !Inputs.SomeAccepted(n.cache, stream, e.playerId)
    && e.playerId in c.inputs && c.inputs[e.playerId] == straggler.input
  }

  /** One input that arrives after the eviction is enough: the player returns, and none of its inputs
      numbered up to that one is heard. */
  lemma ReturnAfterStraggler(
      n: State, self: Self, setup: Simulation.Setup, e: Roster.Entry, straggler: Inputs.Packet, at: real,
      host: string, port: int, now: real, stream: seq<Inputs.Packet>)
    requires InOrder(n, self) && n.promotionDone && self.sessionId != "" && self.ip != ""
    requires e in n.roster && e.playerId != self.id && UniqueIds(n.world.players) && Alive(n, e.playerId)
    requires n.world.players[Simulation.FindPlayer(n.world.players, e.playerId)].joinIndex == e.joinIndex
    requires straggler.InputPacket? && straggler.playerId == e.playerId && straggler.number >= 0
    requires forall i :: 0 <= i < |stream| ==> stream[i].InputPacket? && stream[i].number <= straggler.number
    ensures var crashed, hs := Evicted(n, e.playerId), [InputsArrive([straggler], at)];
      && e.joinIndex >= 0 && Lives(crashed, self, hs)
      && var s := Lobby.Recreated(RecreateRequest(crashed, self));
         var joined := Lobby.Joined(s, e.playerId, host, port, Some(e.joinIndex));
         && joined.Some?
         && var es := Roster.Sorted(joined.value.0.entries);
            BackButSilenced(BroadcastHeard(After(crashed, self, hs).node, self, setup, es, now),
                            Lobby.NewEntry(e.joinIndex, host, port), straggler, stream)
  {
    hide InOrder, BroadcastHeard, Lobby.Joined, RecreateRequest, Evicted, After, ArrivedSince, HeardAgainExactly;
    hide Lobby.Recreated, UniqueIds, Roster.PlayerIdFor;
    var crashed, hs := Evicted(n, e.playerId), [InputsArrive([straggler], at)];
    var was := n.world.players[Simulation.FindPlayer(n.world.players, e.playerId)];
    HostsArePromoted(n, self);
    EvictionKeepsAddress(n, e.playerId);
    OneArrival(crashed, self, straggler, at);
    var client := ClientLoopModel.Client(Simulation.Sim(n.world, map[], []), [], 0, 0, map[], false);
    CrashAndReturn(n, self, setup, e, false, [], hs, host, port, now, stream, client);
    OnlyCanonical(n, self, e);
    var s := Lobby.OperatedAll(Lobby.Recreated(RecreateRequest(crashed, self)), []);
    var es := Roster.Sorted(Lobby.Joined(s, e.playerId, host, port, Some(e.joinIndex)).value.0.entries);
    var after := BroadcastHeard(After(crashed, self, hs).node, self, setup, es, now);
    assert was in after.world.players && was.id == e.playerId;
    NothingNewer(after.cache, straggler, stream);
  }

  lemma OnlyCanonical(n: State, self: Self, e: Roster.Entry)
    requires InOrder(n, self) && e in n.roster
    ensures Lobby.Canonical(e)
  {
  }

  lemma HostsArePromoted(n: State, self: Self)
    requires InOrder(n, self)
    ensures n.promotionDone <==> n.role == Host
  {
  }

  /** The third player crashes, and one of its inputs, number 5, is still on its way: it gets slot and
      character back, and none of its inputs up to number 5 is heard. */
  lemma StragglerSilencesTheReturn(
      setup: Simulation.Setup, input: Input, at: real, host: string, port: int, now: real, stream: seq<Inputs.Packet>)
    requires forall i :: 0 <= i < |stream| ==> stream[i].InputPacket? && stream[i].number <= 5
    ensures var crashed, id := Evicted(HostWithLivingPlayer(), Roster.PlayerIdFor(2)), Roster.PlayerIdFor(2);
      var straggler := Inputs.InputPacket(id, 5, input);
      var hs := [InputsArrive([straggler], at)];
      var joined := Lobby.Joined(Lobby.Recreated(RecreateRequest(crashed, SECOND)), id, host, port, Some(2));
      && Lives(crashed, SECOND, hs) && joined.Some?
      && var es := Roster.Sorted(joined.value.0.entries);
         BackButSilenced(BroadcastHeard(After(crashed, SECOND, hs).node, SECOND, setup, es, now),
                         Lobby.NewEntry(2, host, port), straggler, stream)
  {
    hide Roster.PlayerIdFor, InOrder, BackButSilenced, Alive, HostWithLivingPlayer, BroadcastHeard, After, Evicted;
    hide Lobby.Joined, RecreateRequest, Lobby.Recreated, UniqueIds, Lives;
    var n, e := HostWithLivingPlayer(), Member(2, "third", false);
    ThirdCanCrash(n, e);
    ReturnAfterStraggler(n, SECOND, setup, e, Inputs.InputPacket(e.playerId, 5, input), at, host, port, now, stream);
  }

  lemma ThirdCanCrash(n: State, e: Roster.Entry)
    requires n == HostWithLivingPlayer() && e == Member(2, "third", false)
    ensures InOrder(n, SECOND) && n.promotionDone && e in n.roster && e.playerId != SECOND.id
    ensures UniqueIds(n.world.players) && Alive(n, e.playerId)
    ensures n.world.players[Simulation.FindPlayer(n.world.players, e.playerId)].joinIndex == 2
  {
    hide Roster.PlayerIdFor, InOrder;
    DeadPlayerLosesItsSlot();
    WorldDoesNotMatter(HostWithDeadPlayer(), SECOND, n.world);
    ClaimantIsInOrder(NewPlayer(Roster.PlayerIdFor(2), 0.0, 0.0, 2));
    assert n.world.players[0].id == e.playerId;
  }

  lemma OneArrival(n: State, self: Self, p: Inputs.Packet, at: real)
    requires n.role == Host && p.InputPacket?
    ensures var hs := [InputsArrive([p], at)];
      && Lives(n, self, hs) && ArrivedSince(n, self, hs, p.playerId) == [p]
      && forall joinIndex :: Elsewhere(hs[0], joinIndex)
  {
    var hs, none := [InputsArrive([p], at)], [];
    assert hs[..0] == none && Lives(n, self, none);
    assert ArrivedSince(n, self, none, p.playerId) == [];
    assert !EvictedBy(n, self, hs[0], p.playerId);
  }

  lemma NothingNewer(c: Inputs.Cache, p: Inputs.Packet, stream: seq<Inputs.Packet>)
    requires p.InputPacket? && p.number >= 0 && HeardAgainExactly(c, [p], stream, p.playerId)
    requires forall i :: 0 <= i < |stream| ==> stream[i].InputPacket? && stream[i].number <= p.number
    ensures !Inputs.SomeAccepted(c, stream, p.playerId)
    ensures var d := Inputs.CachedAll(c, stream); p.playerId in d.inputs && d.inputs[p.playerId] == p.input
  {
    hide Inputs.SomeAccepted, Inputs.CachedAll;
    assert forall i :: 0 <= i < |stream| ==> !Inputs.Newer(stream[i], [p], p.playerId) by {
      assert Inputs.Above([p][0], p.playerId, -1);
    }
    OnePacketIsCached(p);
  }

  lemma WorldDoesNotMatter(n: State, self: Self, world: Simulation.World)
    requires InOrder(n, self)
    ensures InOrder(n.(world := world), self)
  {
  }

  lemma OnePacketIsCached(p: Inputs.Packet)
    requires p.InputPacket? && p.number >= 0
    ensures Inputs.CachedAll(Inputs.EMPTY_CACHE, [p]) ==
        Inputs.Cache(map[p.playerId := p.number], map[p.playerId := p.input])
  {
    var one, none := [p], [];
    assert one[..0] == none && Inputs.CachedAll(Inputs.EMPTY_CACHE, none) == Inputs.EMPTY_CACHE;
  }
}
