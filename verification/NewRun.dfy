/** Starting another run in the same session: the level is reset and the characters are rebuilt from
    the roster (application/lobby/coordinator.py:77-97, 302-321). */
module NewRun {
  import opened Prelude
  import opened Entities
  import opened Simulation
  import opened GameEngineModel
  import Participants
  import Roster

  function SeatOf(setup: Setup, e: Roster.Entry): Player {
    Spawned(setup, e.playerId, SpawnPosition(setup, e.joinIndex), e.joinIndex)
  }

  function Seated(setup: Setup, es: seq<Roster.Entry>): seq<Player> {
    if es == [] then [] else PutPlayer(Seated(setup, es[..|es| - 1]), SeatOf(setup, es[|es| - 1]))
  }

  /** `es` is the roster in order. */
  function Rebuilt(s: Sim, setup: Setup, es: seq<Roster.Entry>): Sim {
    s.(world := s.world.(players := Seated(setup, es)))
  }

  /** `heardAt` is when each other participant was last heard. */
  method RebuildWorldFromRoster(engine: GameEngine, localId: string, roster: seq<Roster.Entry>, now: real)
    returns (heardAt: map<string, real>)
    modifies engine`world
    ensures engine.Sim() == Rebuilt(old(engine.Sim()), engine.setup, Roster.Sorted(roster))
    ensures forall id :: id in heardAt <==> id != localId && exists e :: e in roster && e.playerId == id
    ensures forall id :: id in heardAt ==> heardAt[id] == now
  {
    var es := Roster.Sorted(roster);
    Roster.SameEntries(roster);
    engine.world := engine.world.(players := []);
    var k := 0;
    while k < |es|
      invariant 0 <= k <= |es|
      invariant engine.Sim() == Rebuilt(old(engine.Sim()), engine.setup, es[..k])
    {
      assert es[..k + 1][..k] == es[..k];
      engine.SpawnPlayer(es[k].playerId, SpawnPosition(engine.setup, es[k].joinIndex), es[k].joinIndex);
      k := k + 1;
    }
    assert es[..k] == es;
    heardAt := map e | e in roster && e.playerId != localId :: e.playerId := now;
  }

  /** Another run begins. */
  method ReplayLobbyPhase(engine: GameEngine, localId: string, roster: seq<Roster.Entry>, now: real)
    returns (heardAt: map<string, real>)
    modifies engine
    ensures engine.Sim() == Rebuilt(ResetForNewRun(old(engine.Sim()), engine.setup), engine.setup,
        Roster.Sorted(roster))
  {
    engine.ResetForNewRun();
    heardAt := RebuildWorldFromRoster(engine, localId, roster, now);
  }

  ghost predicate DistinctPlayerIds(es: seq<Roster.Entry>) {
    forall i, j :: 0 <= i < j < |es| ==> es[i].playerId != es[j].playerId
  }

  lemma {:induction false} SeatedExactly(setup: Setup, es: seq<Roster.Entry>)
    requires DistinctPlayerIds(es)
    ensures |Seated(setup, es)| == |es| && forall i :: 0 <= i < |es| ==> Seated(setup, es)[i] == SeatOf(setup, es[i])
  {
    if es != [] {
      var n := |es| - 1;
      SeatedExactly(setup, es[..n]);
      var before := Seated(setup, es[..n]);
      forall i | 0 <= i < n ensures before[i].id != es[n].playerId { assert es[..n][i] == es[i]; }
    }
  }

  /** After a reset and a rebuild the participants are exactly the roster's players under their join
      indices, each fresh at its own spawn point, and nobody waits: those who were waiting to respawn
      when the run ended are back with the others. */
  lemma NewRunSeatsTheRoster(s: Sim, setup: Setup, roster: seq<Roster.Entry>)
    requires DistinctPlayerIds(Roster.Sorted(roster))
    ensures var es := Roster.Sorted(roster);
      var t := Rebuilt(ResetForNewRun(s, setup), setup, es);
      && Participants.Consistent(t)
      && (forall seat :: seat in Participants.Members(t) <==>
           exists e :: e in roster && seat == (e.playerId, e.joinIndex))
      && (forall p :: p in t.world.players <==> exists e :: e in roster && p == SeatOf(setup, e))
      && t.world.timers == [] && t.world.blocks == setup.level.blocks && !t.world.victory
  {
    var es := Roster.Sorted(roster);
    Roster.SameEntries(roster);
    SeatsExactly(setup, es);
    var t := Rebuilt(ResetForNewRun(s, setup), setup, es);
    assert Participants.SavedSeats(t.saved) == {};
    assert Participants.Waiting(t.world.timers) == {};
    assert Participants.Members(t) == Participants.Seats(t.world.players);
  }

  lemma SeatsExactly(setup: Setup, es: seq<Roster.Entry>)
    requires DistinctPlayerIds(es)
    ensures Participants.DistinctPlayers(Seated(setup, es))
    ensures forall p :: p in Seated(setup, es) <==> exists e :: e in es && p == SeatOf(setup, e)
    ensures forall seat :: seat in Participants.Seats(Seated(setup, es)) <==>
        exists e :: e in es && seat == (e.playerId, e.joinIndex)
  {
    SeatedExactly(setup, es);
    var ps := Seated(setup, es);
    forall e | e in es ensures SeatOf(setup, e) in ps && (e.playerId, e.joinIndex) in Participants.Seats(ps) {
      var i :| 0 <= i < |es| && es[i] == e;
      assert ps[i] in ps;
    }
    forall p | p in ps ensures exists e :: e in es && p == SeatOf(setup, e) {
      var i :| 0 <= i < |ps| && ps[i] == p;
      assert es[i] in es;
    }
  }
}
