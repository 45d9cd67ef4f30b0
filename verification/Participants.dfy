/** Deaths and respawns neither lose nor duplicate a participant (domain/game_engine.py). */
module Participants {
  import opened Prelude
  import opened Entities
  import opened Simulation

  predicate DistinctPlayers(ps: seq<Player>) {
    forall i, j :: 0 <= i < j < |ps| ==> ps[i].id != ps[j].id
  }

  predicate DistinctTimers(ts: seq<Timer>) {
    forall i, j :: 0 <= i < j < |ts| ==> ts[i].id != ts[j].id
  }

  ghost function Alive(ps: seq<Player>): set<string> { set p | p in ps :: p.id }

  ghost function Waiting(ts: seq<Timer>): set<string> { set t | t in ts :: t.id }

  ghost function Seats(ps: seq<Player>): set<(string, int)> { set p | p in ps :: (p.id, p.joinIndex) }

  ghost function SavedSeats(saved: map<string, int>): set<(string, int)> {
    set id | id in saved :: (id, saved[id])
  }

  /** Every participant with its join index, alive or waiting to respawn. */
  ghost function Members(s: Sim): set<(string, int)> { Seats(s.world.players) + SavedSeats(s.saved) }

  /** Alive and waiting ids are disjoint, without repetition, and exactly the waiting ones have a
      saved join index. */
  ghost predicate Consistent(s: Sim) {
    && DistinctPlayers(s.world.players)
    && DistinctTimers(s.world.timers)
    && s.saved.Keys == Waiting(s.world.timers)
    && Alive(s.world.players) !! Waiting(s.world.timers)
  }

  function Deaths(events: seq<Event>, id: string): nat {
    if events == [] then 0
    else
      var last := events[|events| - 1];
      Deaths(events[..|events| - 1], id) + (if last.PlayerDied? && last.playerId == id then 1 else 0)
  }

  ghost function Lives(s: Sim, id: string): nat { if id in Alive(s.world.players) then 1 else 0 }

  /** Deaths reported plus lives left: a death moves one unit from the second to the first. */
  ghost function Ledger(s: Sim, id: string): nat { Deaths(s.events, id) + Lives(s, id) }

  ghost predicate Conserves(s: Sim, t: Sim) {
    && Consistent(t)
    && Members(t) == Members(s)
    && forall id :: Ledger(t, id) == Ledger(s, id)
  }

  // ---- Steps that keep every player in place ----------------------------------------------

  lemma SameSeats(before: seq<Player>, after: seq<Player>)
    requires SameParticipants(before, after)
    ensures Alive(after) == Alive(before) && Seats(after) == Seats(before)
    ensures DistinctPlayers(before) ==> DistinctPlayers(after)
  {
    forall p | p in before ensures p.id in Alive(after) && (p.id, p.joinIndex) in Seats(after) {
      var i :| 0 <= i < |before| && before[i] == p;
      assert after[i] in after;
    }
    forall p | p in after ensures p.id in Alive(before) && (p.id, p.joinIndex) in Seats(before) {
      var i :| 0 <= i < |after| && after[i] == p;
      assert before[i] in before;
    }
  }

  lemma KeepingPlayersConserves(s: Sim, t: Sim)
    requires Consistent(s)
    requires SameParticipants(s.world.players, t.world.players)
    requires t.world.timers == s.world.timers && t.saved == s.saved
    requires forall id :: Deaths(t.events, id) == Deaths(s.events, id)
    ensures Conserves(s, t)
  {
    SameSeats(s.world.players, t.world.players);
  }

  lemma AppendedEvent(events: seq<Event>, e: Event, id: string)
    ensures Deaths(events + [e], id) == Deaths(events, id) + (if e.PlayerDied? && e.playerId == id then 1 else 0)
  {
    assert (events + [e])[..|events|] == events;
  }

  lemma {:induction false} BlocksKillNobody(p: Player, blocks: seq<Block>, events: seq<Event>, j: nat, id: string)
    ensures Deaths(BlocksFrom(p, blocks, events, j).events, id) == Deaths(events, id)
    decreases |blocks| - j
  {
    if j < |blocks| {
      var b := blocks[j];
      if b.destroyed || !Collides(p, b.box) {
        BlocksKillNobody(p, blocks, events, j + 1, id);
      } else if IsHeadBump(p, b.box) {
        var (broken, event) := Destroy(b).value;
        AppendedEvent(events, event, id);
        BlocksKillNobody(ResolveCollision(p, b.box), blocks[j := broken], events + [event], j + 1, id);
      } else {
        BlocksKillNobody(ResolveCollision(p, b.box), blocks, events, j + 1, id);
      }
    }
  }

  lemma {:induction false} HitsKillNobody(ps: seq<Player>, blocks: seq<Block>, events: seq<Event>, i: nat, id: string)
    ensures Deaths(HitBlocksFrom(ps, blocks, events, i).events, id) == Deaths(events, id)
    decreases |ps| - i
  {
    if i < |ps| {
      BlocksKillNobody(ps[i], blocks, events, 0, id);
      var hit := BlocksFrom(ps[i], blocks, events, 0);
      HitsKillNobody(ps[i := hit.player], hit.blocks, hit.events, i + 1, id);
    }
  }

  lemma {:induction false} CollectingKillsNobody(ps: seq<Player>, pus: seq<PowerUp>, events: seq<Event>, j: nat,
      now: real, id: string)
    ensures Deaths(CollectFrom(ps, pus, events, j, now).events, id) == Deaths(events, id)
    decreases |pus| - j
  {
    if j < |pus| {
      var w := if pus[j].collected then -1 else WinnerFrom(ps, pus[j].box, 0, -1);
      if w < 0 {
        CollectingKillsNobody(ps, pus, events, j + 1, now, id);
      } else {
        var (taken, event) := Collect(pus[j], ps[w].id).value;
        AppendedEvent(events, event, id);
        var ps' := if IsStar(pus[j])
                   then ps[w := ps[w].(effectExpiresAt := Some(now + Config.STAR_EFFECT_S))] else ps;
        CollectingKillsNobody(ps', pus[j := taken], events + [event], j + 1, now, id);
      }
    }
  }

  lemma {:induction false} GatesKillNobody(ps: seq<Player>, gates: seq<Gate>, events: seq<Event>, j: nat, t: Tally,
      id: string)
    ensures Deaths(GatesFrom(ps, gates, events, j, t).events, id) == Deaths(events, id)
    decreases |gates| - j
  {
    if j < |gates| {
      var (g, change) := UpdateGate(gates[j], RequirementsMet(gates[j], t));
      var ps' := if g.state == Closed then PushOutAll(ps, g.box) else ps;
      if change == [] { assert events + change == events; } else { AppendedEvent(events, change[0], id); }
      GatesKillNobody(ps', gates[j := g], events + change, j + 1, t, id);
    }
  }

  // ---- Deaths -----------------------------------------------------------------------------

  lemma {:induction false} RemovedPlayer(ps: seq<Player>, id: string)
    ensures forall p :: p in RemovePlayer(ps, id) <==> p in ps && p.id != id
    ensures DistinctPlayers(ps) ==> DistinctPlayers(RemovePlayer(ps, id))
  {
    if ps != [] {
      RemovedPlayer(ps[1..], id);
      var rest := RemovePlayer(ps[1..], id);
      assert forall p :: p in ps <==> p == ps[0] || p in ps[1..];
      if DistinctPlayers(ps) {
        assert DistinctPlayers(ps[1..]) by {
          assert forall i :: 0 <= i < |ps| - 1 ==> ps[1..][i] == ps[i + 1];
        }
        forall k | 0 <= k < |rest| ensures rest[k].id != ps[0].id {
          assert rest[k] in ps[1..];
        }
      }
    }
  }

  lemma {:induction false} AddedTimer(ts: seq<Timer>, t: Timer)
    requires t.id !in Waiting(ts)
    ensures PutTimer(ts, t) == ts + [t]
  {
    if ts != [] {
      assert ts[0] in ts && ts == [ts[0]] + ts[1..];
      assert t.id !in Waiting(ts[1..]);
      AddedTimer(ts[1..], t);
    }
  }

  lemma SeatsAfterDeath(ps: seq<Player>, id: string, joinIndex: int)
    requires DistinctPlayers(ps) && (id, joinIndex) in Seats(ps)
    ensures DistinctPlayers(RemovePlayer(ps, id))
    ensures Alive(RemovePlayer(ps, id)) == Alive(ps) - {id}
    ensures Seats(RemovePlayer(ps, id)) == Seats(ps) - {(id, joinIndex)}
  {
    RemovedPlayer(ps, id);
    var p :| p in ps && p.id == id && p.joinIndex == joinIndex;
    OnePlayerPerId(ps, p);
  }

  lemma TimersAfterDeath(ts: seq<Timer>, t: Timer)
    requires DistinctTimers(ts) && t.id !in Waiting(ts)
    ensures DistinctTimers(PutTimer(ts, t))
    ensures Waiting(PutTimer(ts, t)) == Waiting(ts) + {t.id}
  {
    AddedTimer(ts, t);
    assert forall x :: x in ts + [t] <==> x in ts || x == t;
    assert forall i :: 0 <= i < |ts| ==> ts[i].id in Waiting(ts);
  }

  lemma DeathConserves(s: Sim, p: Player, cause: string, now: real)
    requires Consistent(s) && (p.id, p.joinIndex) in Seats(s.world.players)
    ensures Conserves(s, QueueDeath(s, p, cause, now))
    ensures Seats(QueueDeath(s, p, cause, now).world.players) == Seats(s.world.players) - {(p.id, p.joinIndex)}
  {
    var t := QueueDeath(s, p, cause, now);
    assert p.id in Alive(s.world.players);
    SeatsAfterDeath(s.world.players, p.id, p.joinIndex);
    TimersAfterDeath(s.world.timers, Timer(p.id, now + Config.RESPAWN_DELAY_S));
    SavingSeat(s.saved, p.id, p.joinIndex);
    forall id ensures Ledger(t, id) == Ledger(s, id) {
      AppendedEvent(s.events, PlayerDied(p.id, cause), id);
    }
  }

  lemma SavingSeat(saved: map<string, int>, id: string, joinIndex: int)
    requires id !in saved
    ensures SavedSeats(saved[id := joinIndex]) == SavedSeats(saved) + {(id, joinIndex)}
  {
    var after := saved[id := joinIndex];
    forall seat ensures seat in SavedSeats(after) <==> seat in SavedSeats(saved) + {(id, joinIndex)} {
      if seat in SavedSeats(saved) { assert seat.0 in after && after[seat.0] == saved[seat.0]; }
      if seat == (id, joinIndex) { assert id in after && after[id] == joinIndex; }
    }
  }

  lemma ReleasingSeat(saved: map<string, int>, id: string)
    requires id in saved
    ensures SavedSeats(saved) == SavedSeats(saved - {id}) + {(id, saved[id])}
  {
    assert (saved - {id})[id := saved[id]] == saved;
    SavingSeat(saved - {id}, id, saved[id]);
  }

  lemma OnePlayerPerId(ps: seq<Player>, p: Player)
    requires DistinctPlayers(ps) && p in ps
    ensures forall q :: q in ps && q.id == p.id ==> q == p
  {
  }

  lemma DefeatConserves(s: Sim, e: Enemy, p: Player)
    requires Consistent(s) && (p.id, p.joinIndex) in Seats(s.world.players)
    ensures Conserves(s, DefeatEnemy(s, e, p))
  {
    var ps := s.world.players;
    var seat :| seat in ps && seat.id == p.id && seat.joinIndex == p.joinIndex;
    OnePlayerPerId(ps, seat);
    assert FindPlayer(ps, p.id) >= 0;
    KeepingPlayersConserves(s, DefeatEnemy(s, e, p));
  }

  /** The players still to be visited are all alive, with the join index they had. */
  ghost predicate Visitable(s: Sim, ps: seq<Player>, k: nat) {
    DistinctPlayers(ps) && forall i :: k <= i < |ps| ==> (ps[i].id, ps[i].joinIndex) in Seats(s.world.players)
  }

  lemma {:induction false} ContactConserves(s: Sim, e: Enemy, ps: seq<Player>, k: nat, now: real)
    requires Consistent(s) && Visitable(s, ps, k)
    ensures Conserves(s, ContactFrom(s, e, ps, k, now))
    decreases |ps| - k
  {
    if k < |ps| {
      var p := ps[k].(effectExpiresAt := Unexpired(ps[k].effectExpiresAt, now));
      if !Collides(ps[k], e.box) {
        ContactConserves(s, e, ps, k + 1, now);
      } else if p.effectExpiresAt.Some? || IsStomp(p, e.box) {
        DefeatConserves(s, e, p);
      } else {
        DeathConserves(s, p, e.id, now);
        ContactConserves(QueueDeath(s, p, e.id, now), e, ps, k + 1, now);
      }
    }
  }

  lemma EveryoneVisitable(s: Sim)
    requires Consistent(s)
    ensures Visitable(s, s.world.players, 0)
  {
  }

  lemma {:induction false} ContactsConserve(s: Sim, es: seq<Enemy>, j: nat, now: real)
    requires Consistent(s)
    ensures Conserves(s, EnemyContactsFrom(s, es, j, now))
    decreases |es| - j
  {
    if j < |es| {
      EveryoneVisitable(s);
      ContactConserves(s, es[j], s.world.players, 0, now);
      ContactsConserve(ContactFrom(s, es[j], s.world.players, 0, now), es, j + 1, now);
    }
  }

  lemma {:induction false} FallsConserve(s: Sim, ps: seq<Player>, k: nat, height: real, now: real)
    requires Consistent(s) && Visitable(s, ps, k)
    ensures Conserves(s, VoidDeathsFrom(s, ps, k, height, now))
    decreases |ps| - k
  {
    if k < |ps| {
      if ps[k].y + ps[k].height <= height {
        FallsConserve(s, ps, k + 1, height, now);
      } else {
        DeathConserves(s, ps[k], Config.VOID_DEATH_CAUSE, now);
        FallsConserve(QueueDeath(s, ps[k], Config.VOID_DEATH_CAUSE, now), ps, k + 1, height, now);
      }
    }
  }

  // ---- Respawns ---------------------------------------------------------------------------

  lemma {:induction false} RemovedTimer(ts: seq<Timer>, id: string)
    ensures forall t :: t in RemoveTimer(ts, id) <==> t in ts && t.id != id
    ensures DistinctTimers(ts) ==> DistinctTimers(RemoveTimer(ts, id))
  {
    if ts != [] {
      RemovedTimer(ts[1..], id);
      var rest := RemoveTimer(ts[1..], id);
      assert forall t :: t in ts <==> t == ts[0] || t in ts[1..];
      if DistinctTimers(ts) {
        assert DistinctTimers(ts[1..]) by {
          assert forall i :: 0 <= i < |ts| - 1 ==> ts[1..][i] == ts[i + 1];
        }
        forall k | 0 <= k < |rest| ensures rest[k].id != ts[0].id {
          assert rest[k] in ts[1..];
        }
      }
    }
  }

  lemma RespawnConserves(s: Sim, setup: Setup, id: string)
    requires Consistent(s) && id in Waiting(s.world.timers)
    ensures Consistent(Respawn(s, setup, id))
    ensures Members(Respawn(s, setup, id)) == Members(s)
    ensures Waiting(Respawn(s, setup, id).world.timers) == Waiting(s.world.timers) - {id}
    ensures Respawn(s, setup, id).events == s.events
  {
    var t := Respawn(s, setup, id);
    var ps := s.world.players;
    RemovedTimer(s.world.timers, id);
    var joinIndex := s.saved[id];
    var p := Spawned(setup, id, SpawnPosition(setup, joinIndex), joinIndex);
    assert forall k :: 0 <= k < |ps| ==> ps[k].id in Alive(ps);
    assert t.world.players == ps + [p];
    assert forall q :: q in ps + [p] <==> q in ps || q == p;
    assert Waiting(t.world.timers) == Waiting(s.world.timers) - {id};
    assert Alive(ps + [p]) == Alive(ps) + {id};
    assert Seats(ps + [p]) == Seats(ps) + {(id, joinIndex)};
    ReleasingSeat(s.saved, id);
    assert Members(t) == Members(s);
  }

  lemma {:induction false} RespawnsConserve(s: Sim, setup: Setup, ts: seq<Timer>, k: nat, now: real)
    requires Consistent(s) && DistinctTimers(ts)
    requires forall i :: k <= i < |ts| ==> ts[i].id in Waiting(s.world.timers)
    ensures Consistent(RespawnsFrom(s, setup, ts, k, now))
    ensures Members(RespawnsFrom(s, setup, ts, k, now)) == Members(s)
    ensures RespawnsFrom(s, setup, ts, k, now).events == s.events
    decreases |ts| - k
  {
    if k < |ts| {
      if now >= ts[k].due {
        RespawnConserves(s, setup, ts[k].id);
        RespawnsConserve(Respawn(s, setup, ts[k].id), setup, ts, k + 1, now);
      } else {
        RespawnsConserve(s, setup, ts, k + 1, now);
      }
    }
  }

  // ---- A tick, a run ----------------------------------------------------------------------

  lemma UntilDeathsConserves(s: Sim, setup: Setup, authoritative: bool, dt: real,
                             inputs: map<string, Input>, commands: map<string, Command>, clock: Clock)
    requires Consistent(s)
    ensures Conserves(s, TickUntilDeaths(s, setup, authoritative, dt, inputs, commands, clock))
  {
    var s1 := MovePhase(s, setup, inputs, dt, clock.expiry);
    KeepingPlayersConserves(s, s1);
    var s2 := BlocksPhase(s1);
    forall id { HitsKillNobody(s1.world.players, s1.world.blocks, s1.events, 0, id); }
    KeepingPlayersConserves(s1, s2);
    var s3 := PowerUpsPhase(s2, authoritative, clock.collect);
    forall id { CollectingKillsNobody(s2.world.players, s2.world.powerUps, s2.events, 0, clock.collect, id); }
    KeepingPlayersConserves(s2, s3);
    var s4 := EnemiesPhase(s3, commands, dt);
    KeepingPlayersConserves(s3, s4);
    var s5 := ContactPhase(s4, authoritative, clock.contact);
    ContactsConserve(s4, s4.world.enemies, 0, clock.contact);
    EveryoneVisitable(s5);
    FallsConserve(s5, s5.world.players, 0, setup.height, clock.fall);
  }

  lemma AfterDeathsKeepsMembers(s: Sim, setup: Setup, authoritative: bool, now: real)
    requires Consistent(s)
    ensures Consistent(TickAfterDeaths(s, setup, authoritative, now))
    ensures Members(TickAfterDeaths(s, setup, authoritative, now)) == Members(s)
    ensures forall id :: Deaths(TickAfterDeaths(s, setup, authoritative, now).events, id) == Deaths(s.events, id)
  {
    var s1 := TallyPhase(s);
    var s2 := GatesPhase(s1);
    forall id ensures Deaths(s2.events, id) == Deaths(s.events, id) {
      GatesKillNobody(s1.world.players, s1.world.gates, s1.events, 0, s1.world.tally, id);
    }
    KeepingPlayersConserves(s, s2);
    var s3 := VictoryPhase(ClampPhase(s2, setup), authoritative);
    KeepingPlayersConserves(s2, s3);
    assert forall i :: 0 <= i < |s3.world.timers| ==> s3.world.timers[i].id in Waiting(s3.world.timers);
    RespawnsConserve(s3, setup, s3.world.timers, 0, now);
  }

  /** One tick: the participants and their join indices stay the same, alive and waiting ids stay a
      partition, and a participant dies at most once and only if it was alive. */
  lemma TickConservesParticipants(s: Sim, setup: Setup, authoritative: bool, call: TickCall)
    requires Consistent(s)
    ensures Consistent(TickBy(s, setup, authoritative, call))
    ensures Members(TickBy(s, setup, authoritative, call)) == Members(s)
    ensures forall id :: Deaths(TickBy(s, setup, authoritative, call).events, id) <= Deaths(s.events, id) + Lives(s, id)
  {
    if !s.world.victory {
      UntilDeathsConserves(s, setup, authoritative, call.dt, call.inputs, call.commands, call.clock);
      var mid := TickUntilDeaths(s, setup, authoritative, call.dt, call.inputs, call.commands, call.clock);
      AfterDeathsKeepsMembers(mid, setup, authoritative, call.clock.respawn);
      assert forall id :: Deaths(mid.events, id) <= Ledger(mid, id) == Ledger(s, id);
    }
  }

  lemma {:induction false} RunConservesParticipants(s: Sim, setup: Setup, authoritative: bool, calls: seq<TickCall>)
    requires Consistent(s)
    ensures Consistent(Run(s, setup, authoritative, calls))
    ensures Members(Run(s, setup, authoritative, calls)) == Members(s)
    ensures forall id :: Deaths(Run(s, setup, authoritative, calls).events, id) <= Deaths(s.events, id) + |calls|
  {
    if calls != [] {
      var before := calls[..|calls| - 1];
      RunConservesParticipants(s, setup, authoritative, before);
      TickConservesParticipants(Run(s, setup, authoritative, before), setup, authoritative, calls[|calls| - 1]);
    }
  }

  /** In a consistent state a participant has exactly one join index and one status. */
  lemma MembersAreFunctional(s: Sim, id: string, a: int, b: int)
    requires Consistent(s) && (id, a) in Members(s) && (id, b) in Members(s)
    ensures a == b
    ensures (id in Alive(s.world.players)) != (id in Waiting(s.world.timers))
  {
    if id in Alive(s.world.players) {
      var p :| p in s.world.players && p.id == id;
      OnePlayerPerId(s.world.players, p);
    } else {
      assert (id, a) !in Seats(s.world.players) && (id, b) !in Seats(s.world.players);
    }
  }

  /** A level reset keeps the living and forgets everyone who was waiting to respawn. */
  lemma ResetForgetsTheWaiting(s: Sim, setup: Setup)
    requires Consistent(s)
    ensures Consistent(ResetForNewRun(s, setup))
    ensures Members(ResetForNewRun(s, setup)) == Members(s) - SavedSeats(s.saved)
  {
    var t := ResetForNewRun(s, setup);
    SameSeats(s.world.players, t.world.players);
    forall seat | seat in Seats(s.world.players) ensures seat !in SavedSeats(s.saved) {
      assert seat.0 in Alive(s.world.players);
    }
    assert SavedSeats(t.saved) == {};
  }
}
