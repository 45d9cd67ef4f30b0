/** What a new host inherits: which join indices survive a promotion, and when everybody in the world
    is in the roster (domain/game_engine.py:317-367, application/election/mixin.py:135-157,
    application/gameplay/events.py:39-46). */
module Succession {
  import opened Prelude
  import opened Config
  import opened Entities
  import opened Simulation
  import opened Participants
  import Migration
  import NodeState
  import Rejoin
  import Roster

  // ---- Join indices saved for waiting players ----------------------------------------------

  /** Two engines that differ only in saved join indices of 0, which is what a missing one counts as. */
  ghost predicate SameButZeros(s: Sim, t: Sim) {
    && t.world == s.world && t.events == s.events
    && (forall id :: id in s.saved ==> id in t.saved && t.saved[id] == s.saved[id])
    && (forall id :: id in t.saved && id !in s.saved ==> t.saved[id] == 0)
  }

  lemma {:induction false} ContactKeepsZeros(s: Sim, t: Sim, e: Enemy, ps: seq<Player>, k: nat, now: real)
    requires SameButZeros(s, t)
    ensures SameButZeros(ContactFrom(s, e, ps, k, now), ContactFrom(t, e, ps, k, now))
    decreases |ps| - k
  {
    if k < |ps| {
      var p := ps[k].(effectExpiresAt := Unexpired(ps[k].effectExpiresAt, now));
      if !Collides(ps[k], e.box) {
        ContactKeepsZeros(s, t, e, ps, k + 1, now);
      } else if !(p.effectExpiresAt.Some? || IsStomp(p, e.box)) {
        ContactKeepsZeros(QueueDeath(s, p, e.id, now), QueueDeath(t, p, e.id, now), e, ps, k + 1, now);
      }
    }
  }

  lemma {:induction false} ContactsKeepZeros(s: Sim, t: Sim, es: seq<Enemy>, j: nat, now: real)
    requires SameButZeros(s, t)
    ensures SameButZeros(EnemyContactsFrom(s, es, j, now), EnemyContactsFrom(t, es, j, now))
    decreases |es| - j
  {
    if j < |es| {
      ContactKeepsZeros(s, t, es[j], s.world.players, 0, now);
      ContactsKeepZeros(ContactFrom(s, es[j], s.world.players, 0, now), ContactFrom(t, es[j], t.world.players, 0, now),
          es, j + 1, now);
    }
  }

  lemma {:induction false} FallsKeepZeros(s: Sim, t: Sim, ps: seq<Player>, k: nat, height: real, now: real)
    requires SameButZeros(s, t)
    ensures SameButZeros(VoidDeathsFrom(s, ps, k, height, now), VoidDeathsFrom(t, ps, k, height, now))
    decreases |ps| - k
  {
    if k < |ps| {
      if ps[k].y + ps[k].height <= height {
        FallsKeepZeros(s, t, ps, k + 1, height, now);
      } else {
        FallsKeepZeros(QueueDeath(s, ps[k], VOID_DEATH_CAUSE, now), QueueDeath(t, ps[k], VOID_DEATH_CAUSE, now), ps,
            k + 1, height, now);
      }
    }
  }

  lemma {:induction false} RespawnsKeepZeros(s: Sim, t: Sim, setup: Setup, ts: seq<Timer>, k: nat, now: real)
    requires SameButZeros(s, t)
    ensures SameButZeros(RespawnsFrom(s, setup, ts, k, now), RespawnsFrom(t, setup, ts, k, now))
    decreases |ts| - k
  {
    if k < |ts| {
      if now >= ts[k].due {
        RespawnsKeepZeros(Respawn(s, setup, ts[k].id), Respawn(t, setup, ts[k].id), setup, ts, k + 1, now);
      } else {
        RespawnsKeepZeros(s, t, setup, ts, k + 1, now);
      }
    }
  }

  lemma TickKeepsZeros(s: Sim, t: Sim, setup: Setup, authoritative: bool, call: TickCall)
    requires SameButZeros(s, t)
    ensures SameButZeros(TickBy(s, setup, authoritative, call), TickBy(t, setup, authoritative, call))
  {
    if !s.world.victory {
      UntilDeathsKeepsZeros(s, t, setup, authoritative, call);
      var a := TickUntilDeaths(s, setup, authoritative, call.dt, call.inputs, call.commands, call.clock);
      var b := TickUntilDeaths(t, setup, authoritative, call.dt, call.inputs, call.commands, call.clock);
      AfterDeathsKeepsZeros(a, b, setup, authoritative, call.clock.respawn);
    }
  }

  lemma UntilDeathsKeepsZeros(s: Sim, t: Sim, setup: Setup, authoritative: bool, call: TickCall)
    requires SameButZeros(s, t)
    ensures SameButZeros(TickUntilDeaths(s, setup, authoritative, call.dt, call.inputs, call.commands, call.clock),
                         TickUntilDeaths(t, setup, authoritative, call.dt, call.inputs, call.commands, call.clock))
  {
    var a := EnemiesPhase(PowerUpsPhase(BlocksPhase(MovePhase(s, setup, call.inputs, call.dt, call.clock.expiry)),
                                        authoritative, call.clock.collect), call.commands, call.dt);
    var b := EnemiesPhase(PowerUpsPhase(BlocksPhase(MovePhase(t, setup, call.inputs, call.dt, call.clock.expiry)),
                                        authoritative, call.clock.collect), call.commands, call.dt);
    assert SameButZeros(a, b);
    ContactsKeepZeros(a, b, a.world.enemies, 0, call.clock.contact);
    var c, d := ContactPhase(a, authoritative, call.clock.contact), ContactPhase(b, authoritative, call.clock.contact);
    FallsKeepZeros(c, d, c.world.players, 0, setup.height, call.clock.fall);
  }

  lemma AfterDeathsKeepsZeros(s: Sim, t: Sim, setup: Setup, authoritative: bool, now: real)
    requires SameButZeros(s, t)
    ensures SameButZeros(TickAfterDeaths(s, setup, authoritative, now), TickAfterDeaths(t, setup, authoritative, now))
  {
    var a := VictoryPhase(ClampPhase(GatesPhase(TallyPhase(s)), setup), authoritative);
    var b := VictoryPhase(ClampPhase(GatesPhase(TallyPhase(t)), setup), authoritative);
    assert SameButZeros(a, b);
    RespawnsKeepZeros(a, b, setup, a.world.timers, 0, now);
  }

  lemma {:induction false} RunKeepsZeros(s: Sim, t: Sim, setup: Setup, authoritative: bool, calls: seq<TickCall>)
    requires SameButZeros(s, t)
    ensures SameButZeros(Run(s, setup, authoritative, calls), Run(t, setup, authoritative, calls))
  {
    if calls != [] {
      var n := |calls| - 1;
      RunKeepsZeros(s, t, setup, authoritative, calls[..n]);
      TickKeepsZeros(Run(s, setup, authoritative, calls[..n]), Run(t, setup, authoritative, calls[..n]), setup,
          authoritative, calls[n]);
    }
  }

  /** The engine of a promoted client: the old host's world from a snapshot, no saved join index. */
  function Inherited(world: World, events: seq<Event>): Sim { Sim(world, map[], events) }

  ghost function Zeros(ts: seq<Timer>): map<string, int> { map id | id in Waiting(ts) :: 0 }

  /** Who takes part after the promotion, and under which join index, however long the run. */
  ghost function HeirSeats(world: World): set<(string, int)> { Seats(world.players) + SavedSeats(Zeros(world.timers)) }

  /** After a promotion the living keep their join indices for ever and everybody who was waiting to
      respawn takes part under index 0; so a participant of the old host keeps its own exactly when it
      was alive in the snapshot or had index 0 anyway. */
  lemma JoinIndicesSurviveExactly(host: Sim, setup: Setup, events: seq<Event>, calls: seq<TickCall>)
    requires Consistent(host)
    ensures var t := Run(Inherited(host.world, events), setup, true, calls);
      && DistinctPlayers(t.world.players) && Alive(t.world.players) !! Waiting(t.world.timers)
      && Seats(t.world.players) <= HeirSeats(host.world)
      && Alive(t.world.players) + Waiting(t.world.timers) == Alive(host.world.players) + Waiting(host.world.timers)
    ensures forall seat :: seat in Members(host) ==>
              (seat in HeirSeats(host.world) <==> seat.0 in Alive(host.world.players) || seat.1 == 0)
  {
    var s := Inherited(host.world, events);
    var filled := s.(saved := Zeros(host.world.timers));
    assert Consistent(filled) && SameButZeros(s, filled);
    RunKeepsZeros(s, filled, setup, true, calls);
    RunConservesParticipants(filled, setup, true, calls);
    var t, u := Run(s, setup, true, calls), Run(filled, setup, true, calls);
    assert Members(u) == HeirSeats(host.world);
    SameIds(filled, u);
    forall seat | seat in Members(host)
      ensures seat in HeirSeats(host.world) <==> seat.0 in Alive(host.world.players) || seat.1 == 0
    {
      SeatInherited(host, seat);
    }
  }

  lemma SeatInherited(host: Sim, seat: (string, int))
    requires Consistent(host) && seat in Members(host)
    ensures seat in HeirSeats(host.world) <==> seat.0 in Alive(host.world.players) || seat.1 == 0
  {
    if seat in Seats(host.world.players) {
      assert seat.0 in Alive(host.world.players);
    } else {
      assert seat.0 in host.saved && seat.0 in Waiting(host.world.timers);
      var zeros := Zeros(host.world.timers);
      assert seat.0 in zeros && (seat.0, zeros[seat.0]) in SavedSeats(zeros);
      assert forall p :: p in host.world.players ==> p.id != seat.0;
    }
  }

  lemma SameIds(s: Sim, t: Sim)
    requires Consistent(s) && Consistent(t) && Members(s) == Members(t)
    ensures Alive(s.world.players) + Waiting(s.world.timers) == Alive(t.world.players) + Waiting(t.world.timers)
  {
    IdsAreKept(s, t);
    IdsAreKept(t, s);
  }

  lemma IdsAreKept(s: Sim, t: Sim)
    requires Consistent(s) && Consistent(t) && Members(s) <= Members(t)
    ensures Alive(s.world.players) + Waiting(s.world.timers) <= Alive(t.world.players) + Waiting(t.world.timers)
  {
    forall id | id in Alive(s.world.players) ensures id in Alive(t.world.players) + Waiting(t.world.timers) {
      var p :| p in s.world.players && p.id == id;
      assert (id, p.joinIndex) in Seats(s.world.players);
      SeatHasId(t, (id, p.joinIndex));
    }
    forall id | id in Waiting(s.world.timers) ensures id in Alive(t.world.players) + Waiting(t.world.timers) {
      assert id in s.saved.Keys;
      assert (id, s.saved[id]) in SavedSeats(s.saved);
      SeatHasId(t, (id, s.saved[id]));
    }
  }

  lemma SeatHasId(s: Sim, seat: (string, int))
    requires Consistent(s) && seat in Members(s)
    ensures seat.0 in Alive(s.world.players) + Waiting(s.world.timers)
  {
    if seat in Seats(s.world.players) {
      var p :| p in s.world.players && (p.id, p.joinIndex) == seat;
    } else {
      assert seat in SavedSeats(s.saved) && seat.0 in s.saved.Keys;
    }
  }

  // ---- Everybody in the world is in the roster ----------------------------------------------

  ghost predicate Listed(ps: seq<Roster.Entry>, id: string) { exists e :: e in ps && e.playerId == id }

  /** The living and the waiting are listed. */
  ghost predicate AllListed(w: World, ps: seq<Roster.Entry>) {
    forall id :: id in Alive(w.players) || id in Waiting(w.timers) ==> Listed(ps, id)
  }

  ghost predicate LivingListed(w: World, ps: seq<Roster.Entry>) {
    forall id :: id in Alive(w.players) ==> Listed(ps, id)
  }

  ghost predicate LivingStayListed(s: Sim, setup: Setup, ps: seq<Roster.Entry>) {
    forall calls :: LivingListed(Run(s, setup, true, calls).world, ps)
  }

  /** Consistent but for join indices that were never saved, as in an engine promoted while somebody
      waits. */
  ghost predicate Orderly(s: Sim) {
    && DistinctPlayers(s.world.players) && DistinctTimers(s.world.timers)
    && s.saved.Keys <= Waiting(s.world.timers)
    && Alive(s.world.players) !! Waiting(s.world.timers)
  }

  ghost function Filled(s: Sim): Sim {
    s.(saved := map id | id in Waiting(s.world.timers) :: if id in s.saved then s.saved[id] else 0)
  }

  lemma FilledIsConsistent(s: Sim)
    requires Orderly(s)
    ensures Consistent(Filled(s)) && SameButZeros(s, Filled(s))
  {
  }

  /** Every living character stays listed through all runs exactly when those waiting to respawn are
      listed too; promoted engines are no exception. */
  lemma LivingStayListedExactly(s: Sim, setup: Setup, ps: seq<Roster.Entry>)
    requires Orderly(s) && !s.world.victory
    ensures LivingStayListed(s, setup, ps) <==> AllListed(s.world, ps)
  {
    FilledIsConsistent(s);
    if AllListed(s.world, ps) {
      forall calls ensures LivingListed(Run(s, setup, true, calls).world, ps) {
        RunConservesParticipants(Filled(s), setup, true, calls);
        SameIds(Filled(s), Run(Filled(s), setup, true, calls));
        RunKeepsZeros(s, Filled(s), setup, true, calls);
      }
    }
    if LivingStayListed(s, setup, ps) {
      var none: seq<TickCall> := [];
      assert Run(s, setup, true, none) == s && LivingListed(Run(s, setup, true, none).world, ps);
      forall id | id in Waiting(s.world.timers) ensures Listed(ps, id) {
        var call := SomeoneReturns(Filled(s), setup, id);
        TickKeepsZeros(s, Filled(s), setup, true, call);
        var one := [call];
        assert one[..0] == [];
        assert Run(s, setup, true, one) == TickBy(s, setup, true, call);
        assert LivingListed(Run(s, setup, true, one).world, ps);
      }
      assert forall id :: id in Alive(s.world.players) ==> Listed(ps, id);
      assert AllListed(s.world, ps);
    }
  }

  /** A tick late enough brings back whoever waits. */
  lemma SomeoneReturns(s: Sim, setup: Setup, id: string) returns (call: TickCall)
    requires Consistent(s) && !s.world.victory && id in Waiting(s.world.timers)
    ensures id in Alive(TickBy(s, setup, true, call).world.players)
  {
    var early := TickUntilDeaths(s, setup, true, 0.0, map[], map[], Clock(0.0, 0.0, 0.0, 0.0, 0.0));
    UntilDeathsConserves(s, setup, true, 0.0, map[], map[], Clock(0.0, 0.0, 0.0, 0.0, 0.0));
    var t := VictoryPhase(ClampPhase(GatesPhase(TallyPhase(early)), setup), true);
    var late := LatestTimer(t.world.timers);
    call := TickCall(0.0, map[], map[], Clock(0.0, 0.0, 0.0, 0.0, late));
    SameIds(s, early);
    EverybodyReturns(t, setup, t.world.timers, 0, late, id);
    TickAfter(s, setup, call, early);
  }

  lemma TickAfter(s: Sim, setup: Setup, call: TickCall, early: Sim)
    requires !s.world.victory && early == TickUntilDeaths(s, setup, true, call.dt, call.inputs, call.commands,
        call.clock)
    ensures var t := VictoryPhase(ClampPhase(GatesPhase(TallyPhase(early)), setup), true);
      TickBy(s, setup, true, call).world.players ==
          RespawnsFrom(t, setup, t.world.timers, 0, call.clock.respawn).world.players
  {
  }

  function LatestTimer(ts: seq<Timer>): (late: real)
    ensures forall i :: 0 <= i < |ts| ==> ts[i].due <= late
  {
    if ts == [] then 0.0
    else
      var n := |ts| - 1;
      var before := LatestTimer(ts[..n]);
      assert forall i :: 0 <= i < n ==> ts[..n][i] == ts[i];
      if ts[n].due > before then ts[n].due else before
  }

  lemma {:induction false} EverybodyReturns(s: Sim, setup: Setup, ts: seq<Timer>, k: nat, now: real, id: string)
    requires forall i :: 0 <= i < |ts| ==> ts[i].due <= now
    requires id in Alive(s.world.players) || exists i :: k <= i < |ts| && ts[i].id == id
    ensures id in Alive(RespawnsFrom(s, setup, ts, k, now).world.players)
    decreases |ts| - k
  {
    if k < |ts| {
      var joinIndex := if ts[k].id in s.saved then s.saved[ts[k].id] else 0;
      var p := Spawned(setup, ts[k].id, SpawnPosition(setup, joinIndex), joinIndex);
      PuttingKeepsAlive(s.world.players, p);
      EverybodyReturns(Respawn(s, setup, ts[k].id), setup, ts, k + 1, now, id);
    }
  }

  lemma PuttingKeepsAlive(ps: seq<Player>, p: Player)
    ensures p.id in Alive(PutPlayer(ps, p)) && Alive(ps) <= Alive(PutPlayer(ps, p))
  {
    var i := FindPlayer(ps, p.id);
    var after := PutPlayer(ps, p);
    assert after[if i < 0 then |ps| else i] in after;
    forall q | q in ps ensures q.id in Alive(after) {
      var k :| 0 <= k < |ps| && ps[k] == q;
      assert after[k] in after;
    }
  }

  /** Evicting somebody leaves everybody listed exactly when that player was not waiting to respawn:
      the timer of a waiting one survives the eviction. */
  lemma EvictionLeavesAllListedExactly(n: NodeState.State, id: string)
    requires AllListed(n.world, n.roster)
    ensures AllListed(NodeState.Evicted(n, id).world, NodeState.Evicted(n, id).roster) <==>
        id !in Waiting(n.world.timers)
  {
    var m := NodeState.Evicted(n, id);
    assert m.world.timers == n.world.timers;
    assert !Listed(m.roster, id);
    OthersStayAlive(n.world.players, id);
    forall other | other != id && Listed(n.roster, other) ensures Listed(m.roster, other) {
      var e :| e in n.roster && e.playerId == other;
      assert e in m.roster;
    }
  }

  lemma OthersStayAlive(ps: seq<Player>, id: string)
    ensures Alive(RemovePlayer(ps, id)) == Alive(ps) - {id}
  {
    Migration.RemovedPlayers(ps, id);
    forall p | p in ps && p.id != id ensures p.id in Alive(RemovePlayer(ps, id)) {}
  }

  // ---- Both at concrete states --------------------------------------------------------------

  /** The old host's engine: the second player died and waits under join index 1. */
  function HostOfTheDead(): Sim {
    Sim(Migration.WorldOf([]).(timers := [Timer("player2", 3.0)]), map["player2" := 1], [])
  }

  lemma RunOfOne(s: Sim, setup: Setup, authoritative: bool, call: TickCall)
    ensures Run(s, setup, authoritative, [call]) == TickBy(s, setup, authoritative, call)
  {
    hide TickBy;
    var one: seq<TickCall> := [call];
    var none: seq<TickCall> := [];
    assert one[..|one| - 1] == none;
    assert Run(s, setup, authoritative, none) == s;
  }

  /** A node promoted from that snapshot brings the second player back under join index 0. */
  lemma WaitingPlayerLosesItsIndex(setup: Setup) returns (call: TickCall)
    ensures Consistent(HostOfTheDead()) && ("player2", 1) in Members(HostOfTheDead())
    ensures var t := TickBy(Inherited(HostOfTheDead().world, []), setup, true, call);
      ("player2", 0) in Seats(t.world.players) && ("player2", 1) !in Seats(t.world.players)
  {
    var host := HostOfTheDead();
    var ts := host.world.timers;
    assert ts[0] in ts && Waiting(ts) == {"player2"};
    assert "player2" in host.saved && host.saved["player2"] == 1;
    assert ("player2", 1) in SavedSeats(host.saved);
    var s := Inherited(host.world, []);
    FilledIsConsistent(s);
    call := SomeoneReturns(Filled(s), setup, "player2");
    TickKeepsZeros(s, Filled(s), setup, true, call);
    var one, t := [call], TickBy(s, setup, true, call);
    RunOfOne(s, setup, true, call);
    JoinIndicesSurviveExactly(host, setup, [], one);
    var p :| p in t.world.players && p.id == "player2";
    assert (p.id, p.joinIndex) in Seats(t.world.players);
    assert HeirSeats(host.world) == SavedSeats(Zeros(ts));
    assert forall seat :: seat in HeirSeats(host.world) ==> seat.1 == 0;
  }

  /** The promoted claimant, with the third player waiting to respawn. */
  function HostWithWaiter(): NodeState.State {
    var n := Rejoin.HostWithDeadPlayer();
    n.(world := n.world.(timers := [Timer(Roster.PlayerIdFor(2), 3.0)]))
  }

  /** Everybody is listed until the third player is evicted; then its timer brings back a character
      that is in no roster. */
  lemma EvictedWaiterComesBackUnlisted(setup: Setup)
    ensures var n, id := HostWithWaiter(), Roster.PlayerIdFor(2);
      var m := NodeState.Evicted(n, id);
      && AllListed(n.world, n.roster) && !AllListed(m.world, m.roster)
      && !LivingStayListed(Sim(m.world, map[id := 2], []), setup, m.roster)
  {
    hide Roster.PlayerIdFor;
    var n, id := HostWithWaiter(), Roster.PlayerIdFor(2);
    var m := NodeState.Evicted(n, id);
    var ts := n.world.timers;
    assert ts[0] in ts && Waiting(ts) == {id};
    assert n.roster[1] in n.roster && n.roster[1].playerId == id;
    assert AllListed(n.world, n.roster);
    EvictionLeavesAllListedExactly(n, id);
    assert m.world == n.world;
    LivingStayListedExactly(Sim(m.world, map[id := 2], []), setup, m.roster);
  }
}
