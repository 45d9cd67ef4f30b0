/** domain/game_engine.py: the engine object. Its methods change the world step by step; each is
    proved to reach the state the simulation function of the same phase describes. */
module GameEngineModel {
  import opened Prelude
  import opened Config
  import opened Entities
  import opened Simulation
  import PowerUpRace
  import Participants
  import Contacts

  class GameEngine {
    const setup: Setup
    var world: World
    var saved: map<string, int>
    var events: seq<Event>
    var isAuthoritative: bool

    ghost function Sim(): Sim
      reads this
    {
      Simulation.Sim(world, saved, events)
    }

    constructor (setup: Setup, authoritative: bool)
      ensures this.setup == setup && isAuthoritative == authoritative
      ensures events == [] && saved == map[]
      ensures world == LoadLevel(World(0, [], [], [], [], [], Tally(0, 0, 0), 0, false, None, []), setup.level)
    {
      this.setup := setup;
      world := LoadLevel(World(0, [], [], [], [], [], Tally(0, 0, 0), 0, false, None, []), setup.level);
      saved, events, isAuthoritative := map[], [], authoritative;
    }

    method SetPlayer(i: nat, p: Player)
      requires i < |world.players|
      modifies `world
      ensures world == old(world).(players := old(world.players)[i := p])
    {
      world := world.(players := world.players[i := p]);
    }

    /** Everything that moves a player on its own: previous position, expiry, input, physics. */
    method MoveAll(dt: real, inputs: map<string, Input>, now: real)
      modifies `world
      ensures Sim() == MovePhase(old(Sim()), setup, inputs, dt, now)
    {
      ghost var was := world.players;
      RecordPreviousAndExpire(now);
      ApplyInputs(inputs);
      var i := 0;
      while i < |world.players|
        invariant 0 <= i <= |world.players| == |was|
        invariant world == old(world).(players := world.players)
        invariant forall k :: 0 <= k < i ==> world.players[k] == Moved(was[k], inputs, dt, now)
        invariant forall k :: i <= k < |was| ==> ApplyPhysics(world.players[k], dt) == Moved(was[k], inputs, dt, now)
      {
        SetPlayer(i, ApplyPhysics(world.players[i], dt));
        i := i + 1;
      }
      HandleCollisions();
    }

    method RecordPreviousAndExpire(now: real)
      modifies `world
      ensures world == old(world).(players := world.players) && |world.players| == |old(world.players)|
      ensures forall k :: 0 <= k < |world.players| ==>
                var p := old(world.players)[k];
                world.players[k] == p.(prevX := p.x, prevY := p.y, effectExpiresAt := Unexpired(p.effectExpiresAt, now))
    {
      ghost var was := world.players;
      var i := 0;
      while i < |world.players|
        invariant 0 <= i <= |world.players| == |was|
        invariant world == old(world).(players := world.players)
        invariant forall k :: 0 <= k < i ==>
                    world.players[k] == was[k].(prevX := was[k].x, prevY := was[k].y,
                      effectExpiresAt := Unexpired(was[k].effectExpiresAt, now))
        invariant forall k :: i <= k < |was| ==> world.players[k] == was[k]
      {
        var p := world.players[i].(prevX := world.players[i].x, prevY := world.players[i].y);
        if p.effectExpiresAt.Some? && p.effectExpiresAt.value <= now {
          p := p.(effectExpiresAt := None);
        }
        SetPlayer(i, p);
        i := i + 1;
      }
    }

    method ApplyInputs(inputs: map<string, Input>)
      modifies `world
      ensures world == old(world).(players := world.players) && |world.players| == |old(world.players)|
      ensures forall k :: 0 <= k < |world.players| ==>
                var p := old(world.players)[k];
                world.players[k] == if p.id in inputs then ApplyInput(p, inputs[p.id]) else p
    {
      ghost var was := world.players;
      var i := 0;
      while i < |world.players|
        invariant 0 <= i <= |world.players| == |was|
        invariant world == old(world).(players := world.players)
        invariant forall k :: 0 <= k < i ==>
                    world.players[k] == if was[k].id in inputs then ApplyInput(was[k], inputs[was[k].id]) else was[k]
        invariant forall k :: i <= k < |was| ==> world.players[k] == was[k]
      {
        var p := world.players[i];
        if p.id in inputs {
          SetPlayer(i, ApplyInput(p, inputs[p.id]));
        }
        i := i + 1;
      }
    }

    method HandleCollisions()
      modifies `world
      ensures world == old(world).(players := world.players) && |world.players| == |old(world.players)|
      ensures forall k :: 0 <= k < |world.players| ==>
                world.players[k] == Landed(old(world.players)[k], setup.platforms)
    {
      ghost var was := world.players;
      var i := 0;
      while i < |world.players|
        invariant 0 <= i <= |world.players| == |was|
        invariant world == old(world).(players := world.players)
        invariant forall k :: 0 <= k < i ==> world.players[k] == Landed(was[k], setup.platforms)
        invariant forall k :: i <= k < |was| ==> world.players[k] == was[k]
      {
        var p := world.players[i].(onGround := false);
        var j := 0;
        while j < |setup.platforms|
          invariant 0 <= j <= |setup.platforms|
          invariant PlatformsFrom(p, setup.platforms, j) == Landed(was[i], setup.platforms)
        {
          if Collides(p, setup.platforms[j]) {
            p := ResolveCollision(p, setup.platforms[j]);
          }
          j := j + 1;
        }
        SetPlayer(i, p);
        i := i + 1;
      }
    }

    method HandleBlockCollisions()
      modifies `world, `events
      ensures Sim() == BlocksPhase(old(Sim()))
    {
      ghost var goal := HitBlocksFrom(world.players, world.blocks, events, 0);
      var i := 0;
      while i < |world.players|
        invariant 0 <= i <= |world.players|
        invariant world == old(world).(players := world.players, blocks := world.blocks)
        invariant HitBlocksFrom(world.players, world.blocks, events, i) == goal
      {
        var p, j := world.players[i], 0;
        ghost var hit := BlocksFrom(p, world.blocks, events, 0);
        ghost var ps := world.players;
        while j < |world.blocks|
          invariant 0 <= j <= |world.blocks|
          invariant world == old(world).(players := ps, blocks := world.blocks)
          invariant BlocksFrom(p, world.blocks, events, j) == hit
        {
          var b := world.blocks[j];
          if !b.destroyed && Collides(p, b.box) {
            if IsHeadBump(p, b.box) {
              var (broken, event) := Destroy(b).value;
              world := world.(blocks := world.blocks[j := broken]);
              events := events + [event];
            }
            p := ResolveCollision(p, b.box);
          }
          j := j + 1;
        }
        SetPlayer(i, p);
        i := i + 1;
      }
    }

    method HandlePowerUpCollisions(now: real)
      modifies `world, `events
      ensures Sim() == PowerUpsPhase(old(Sim()), isAuthoritative, now)
      ensures isAuthoritative ==>
                PowerUpRace.RaceResult(old(world.players), old(world.powerUps), 0,
                                       CollectPhase(world.players, world.powerUps, events), now)
    {
      if !isAuthoritative { return; }
      PowerUpRace.CollectedByTheLeast(world.players, world.powerUps, events, 0, now);
      hide PowerUpRace.RaceResult, PowerUpRace.Wins, PowerUpRace.Untouched, WinnerFrom, Collides, IsStar,
          SameParticipants;
      ghost var goal := CollectFrom(world.players, world.powerUps, events, 0, now);
      var j := 0;
      while j < |world.powerUps|
        invariant 0 <= j <= |world.powerUps|
        invariant world == old(world).(players := world.players, powerUps := world.powerUps)
        invariant CollectFrom(world.players, world.powerUps, events, j, now) == goal
      {
        var powerUp := world.powerUps[j];
        if !powerUp.collected {
          var w := FindWinner(powerUp.box);
          if w >= 0 {
            var (taken, event) := Collect(powerUp, world.players[w].id).value;
            world := world.(powerUps := world.powerUps[j := taken]);
            events := events + [event];
            if IsStar(powerUp) {
              SetPlayer(w, world.players[w].(effectExpiresAt := Some(now + STAR_EFFECT_S)));
            }
          }
        }
        j := j + 1;
      }
    }

    method FindWinner(b: Box) returns (w: int)
      ensures w == WinnerFrom(world.players, b, 0, -1)
      ensures -1 <= w < |world.players|
      ensures if w < 0 then PowerUpRace.Untouched(world.players, b) else PowerUpRace.Wins(world.players, b, w)
    {
      PowerUpRace.WinnerIsLeast(world.players, b);
      w := -1;
      var k := 0;
      while k < |world.players|
        invariant 0 <= k <= |world.players| && -1 <= w < |world.players|
        invariant WinnerFrom(world.players, b, k, w) == WinnerFrom(world.players, b, 0, -1)
      {
        var p := world.players[k];
        if Collides(p, b) && (w < 0 || p.joinIndex < world.players[w].joinIndex) {
          w := k;
        }
        k := k + 1;
      }
    }

    method UpdateEnemies(dt: real, commands: map<string, Command>)
      modifies `world
      ensures Sim() == EnemiesPhase(old(Sim()), commands, dt)
    {
      ghost var was := world.enemies;
      var i := 0;
      while i < |world.enemies|
        invariant 0 <= i <= |world.enemies| == |was|
        invariant world == old(world).(enemies := world.enemies)
        invariant forall k :: 0 <= k < i ==> world.enemies[k] == EnemyMoved(was[k], commands, dt)
        invariant forall k :: i <= k < |was| ==> world.enemies[k] == was[k]
      {
        var e := MoveEnemy(world.enemies[i], commands, dt);
        world := world.(enemies := world.enemies[i := e]);
        i := i + 1;
      }
    }

    /** The body of the enemy loop: a stopped enemy keeps everything, others move and bounce. */
    static method MoveEnemy(enemy: Enemy, commands: map<string, Command>, dt: real) returns (e: Enemy)
      ensures e == EnemyMoved(enemy, commands, dt)
    {
      e := enemy;
      if e.id in commands {
        if commands[e.id] == Stop { return; }
        e := e.(vx := if commands[e.id] == MoveLeft then -e.speed else e.speed);
      }
      var vx := e.vx;
      assert vx == Steered(enemy, commands);
      var x := e.box.x + vx * dt;
      assert EnemyMoved(enemy, commands, dt) == Bounced(enemy, vx, x);
      e := e.(box := e.box.(x := x));
      if e.box.x < e.leftBound {
        e := e.(box := e.box.(x := e.leftBound), vx := -e.vx);
      } else if e.box.x + e.box.width > e.rightBound {
        e := e.(box := e.box.(x := e.rightBound - e.box.width), vx := -e.vx);
      }
    }

    method QueuePlayerDeath(p: Player, cause: string, now: real)
      modifies `world, `saved, `events
      ensures Sim() == QueueDeath(old(Sim()), p, cause, now)
    {
      events := events + [PlayerDied(p.id, cause)];
      saved := saved[p.id := p.joinIndex];
      world := world.(players := RemovePlayer(world.players, p.id));
      world := world.(timers := PutTimer(world.timers, Timer(p.id, now + RESPAWN_DELAY_S)));
    }

    /** No id occurs twice, neither among the living nor among the waiting. */
    ghost predicate Clear()
      reads this
    {
      Participants.DistinctPlayers(world.players) && Participants.DistinctTimers(world.timers)
    }

    method HandleEnemyCollisions(now: real)
      modifies `world, `saved, `events
      ensures Sim() == ContactPhase(old(Sim()), isAuthoritative, now)
      ensures isAuthoritative && old(Clear()) ==> forall e :: e in world.enemies ==>
          Contacts.NobodyTouches(world.players, e)
    {
      if !isAuthoritative { return; }
      if Clear() { Contacts.NoContactIsLeft(Sim(), now); }
      ghost var goal := ContactPhase(Sim(), true, now);
      var enemies := world.enemies;
      var j := 0;
      while j < |enemies|
        invariant 0 <= j <= |enemies|
        invariant EnemyContactsFrom(Sim(), enemies, j, now) == goal
      {
        MeetEnemy(enemies[j], now);
        j := j + 1;
      }
    }

    method MeetEnemy(e: Enemy, now: real)
      modifies `world, `saved, `events
      ensures Sim() == ContactFrom(old(Sim()), e, old(world.players), 0, now)
      ensures old(Clear()) ==> Contacts.Meets(old(Sim()), Sim(), e, old(world.players), 0, now)
    {
      if Clear() { Contacts.ContactIsMeeting(Sim(), e, world.players, 0, now); }
      hide Contacts.Meets, Collides, IsStomp, QueueDeath;
      var players := world.players;
      ghost var goal := ContactFrom(Sim(), e, players, 0, now);
      var k := 0;
      while k < |players|
        invariant 0 <= k <= |players|
        invariant ContactFrom(Sim(), e, players, k, now) == goal
      {
        var p := players[k];
        if Collides(p, e.box) {
          p := p.(effectExpiresAt := Unexpired(p.effectExpiresAt, now));
          if p.effectExpiresAt.Some? || IsStomp(p, e.box) {
            world := world.(enemies := RemoveEnemy(world.enemies, e.id));
            world := world.(players := PutPlayer(world.players, p.(vy := JUMP_FORCE * 0.6)));
            return;
          }
          QueuePlayerDeath(p, e.id, now);
        }
        k := k + 1;
      }
    }

    method HandleVoidDeaths(now: real)
      modifies `world, `saved, `events
      ensures Sim() == VoidPhase(old(Sim()), isAuthoritative, setup.height, now)
      ensures isAuthoritative && old(Clear()) ==>
                Contacts.Falls(old(Sim()), Sim(), old(world.players),
                    Contacts.Fallen(old(world.players), 0, setup.height), now)
    {
      if !isAuthoritative { return; }
      if Clear() { Contacts.FallsExactly(Sim(), world.players, 0, setup.height, now); }
      hide Contacts.Falls, Contacts.Fallen, QueueDeath;
      var players := world.players;
      ghost var goal := VoidDeathsFrom(Sim(), players, 0, setup.height, now);
      var k := 0;
      while k < |players|
        invariant 0 <= k <= |players|
        invariant VoidDeathsFrom(Sim(), players, k, setup.height, now) == goal
      {
        if players[k].y + players[k].height > setup.height {
          QueuePlayerDeath(players[k], VOID_DEATH_CAUSE, now);
        }
        k := k + 1;
      }
    }

    method SyncObjectiveProgress()
      modifies `world
      ensures Sim() == TallyPhase(old(Sim()))
    {
      var coins, blocks, i := 0, 0, 0;
      while i < |world.powerUps|
        invariant 0 <= i <= |world.powerUps|
        invariant coins == CoinCount(world.powerUps[..i])
      {
        assert world.powerUps[..i + 1][..i] == world.powerUps[..i];
        if world.powerUps[i].collected && IsCoin(world.powerUps[i]) { coins := coins + 1; }
        i := i + 1;
      }
      assert world.powerUps[..i] == world.powerUps;
      i := 0;
      while i < |world.blocks|
        invariant 0 <= i <= |world.blocks|
        invariant blocks == DestroyedCount(world.blocks[..i])
      {
        assert world.blocks[..i + 1][..i] == world.blocks[..i];
        if world.blocks[i].destroyed { blocks := blocks + 1; }
        i := i + 1;
      }
      assert world.blocks[..i] == world.blocks;
      var defeated := world.initialEnemies - |world.enemies|;
      world := world.(tally := Tally(coins, blocks, if defeated > 0 then defeated else 0));
    }

    method HandleGateCollisions()
      modifies `world, `events
      ensures Sim() == GatesPhase(old(Sim()))
    {
      ghost var goal := GatesFrom(world.players, world.gates, events, 0, world.tally);
      var j := 0;
      while j < |world.gates|
        invariant 0 <= j <= |world.gates|
        invariant world == old(world).(players := world.players, gates := world.gates)
        invariant GatesFrom(world.players, world.gates, events, j, world.tally) == goal
      {
        var (gate, change) := UpdateGate(world.gates[j], RequirementsMet(world.gates[j], world.tally));
        world := world.(gates := world.gates[j := gate]);
        events := events + change;
        if gate.state == Closed {
          KeepOut(gate.box);
        }
        j := j + 1;
      }
    }

    method KeepOut(b: Box)
      modifies `world
      ensures world == old(world).(players := PushOutAll(old(world.players), b))
    {
      ghost var was := world.players;
      var i := 0;
      while i < |world.players|
        invariant 0 <= i <= |world.players| == |was|
        invariant world == old(world).(players := world.players)
        invariant forall k :: 0 <= k < i ==> world.players[k] == PushOut(was[k], b)
        invariant forall k :: i <= k < |was| ==> world.players[k] == was[k]
      {
        if Collides(world.players[i], b) {
          SetPlayer(i, ResolveCollision(world.players[i], b));
        }
        i := i + 1;
      }
      assert world.players == PushOutAll(was, b);
    }

    method ClampPlayersToWorld()
      modifies `world
      ensures Sim() == ClampPhase(old(Sim()), setup)
    {
      ghost var was := world.players;
      var i := 0;
      while i < |world.players|
        invariant 0 <= i <= |world.players| == |was|
        invariant world == old(world).(players := world.players)
        invariant forall k :: 0 <= k < i ==> world.players[k] == ClampToWorld(was[k], setup, false)
        invariant forall k :: i <= k < |was| ==> world.players[k] == was[k]
      {
        SetPlayer(i, ClampToWorld(world.players[i], setup, false));
        i := i + 1;
      }
    }

    method HandleVictoryCondition()
      modifies `world
      ensures Sim() == VictoryPhase(old(Sim()), isAuthoritative)
    {
      if !isAuthoritative || world.victory { return; }
      var j := 0;
      while j < |world.gates|
        invariant 0 <= j <= |world.gates|
        invariant VictorFrom(world.players, world.gates, j) == VictorFrom(world.players, world.gates, 0)
      {
        if world.gates[j].state == Open && world.gates[j].isFinal {
          var k := 0;
          while k < |world.players|
            invariant 0 <= k <= |world.players|
            invariant ToucherFrom(world.players, world.gates[j].box, k)
                   == ToucherFrom(world.players, world.gates[j].box, 0)
          {
            if Collides(world.players[k], world.gates[j].box) {
              world := world.(victory := true, victor := Some(world.players[k].id));
              return;
            }
            k := k + 1;
          }
        }
        j := j + 1;
      }
    }

    method SpawnPlayer(id: string, position: (real, real), joinIndex: int)
      modifies `world
      ensures world == old(world).(players :=
                         PutPlayer(old(world.players), Spawned(setup, id, position, joinIndex)))
    {
      world := world.(players := PutPlayer(world.players, Spawned(setup, id, position, joinIndex)));
    }

    method ProcessRespawns(now: real)
      modifies `world, `saved
      ensures Sim() == RespawnPhase(old(Sim()), setup, isAuthoritative, now)
      ensures isAuthoritative && old(Clear()) ==> Contacts.Returns(old(Sim()), Sim(), setup, old(world.timers), 0, now)
    {
      if !isAuthoritative { return; }
      if Clear() { Contacts.ReturnsExactly(Sim(), setup, world.timers, 0, now); }
      hide Contacts.Returns;
      ghost var goal := RespawnPhase(Sim(), setup, true, now);
      var timers := world.timers;
      var k := 0;
      while k < |timers|
        invariant 0 <= k <= |timers|
        invariant RespawnsFrom(Sim(), setup, timers, k, now) == goal
      {
        if now >= timers[k].due {
          var joinIndex := if timers[k].id in saved then saved[timers[k].id] else 0;
          saved := saved - {timers[k].id};
          SpawnPlayer(timers[k].id, SpawnPosition(setup, joinIndex), joinIndex);
          world := world.(timers := RemoveTimer(world.timers, timers[k].id));
        }
        k := k + 1;
      }
    }

    method Tick(dt: real, inputs: map<string, Input>, commands: map<string, Command>, clock: Clock)
      modifies `world, `saved, `events
      ensures Sim() == Simulation.Tick(old(Sim()), setup, isAuthoritative, dt, inputs, commands, clock)
    {
      hide MovePhase, BlocksPhase, PowerUpsPhase, EnemiesPhase, ContactPhase, VoidPhase;
      hide TallyPhase, GatesPhase, ClampPhase, VictoryPhase, RespawnPhase;
      if world.victory {
        world := world.(number := world.number + 1);
        return;
      }
      MoveAll(dt, inputs, clock.expiry);
      HandleBlockCollisions();
      HandlePowerUpCollisions(clock.collect);
      UpdateEnemies(dt, commands);
      HandleEnemyCollisions(clock.contact);
      HandleVoidDeaths(clock.fall);
      SyncObjectiveProgress();
      HandleGateCollisions();
      ClampPlayersToWorld();
      HandleVictoryCondition();
      ProcessRespawns(clock.respawn);
      world := world.(number := world.number + 1);
    }

    method ResetForNewRun()
      modifies `world, `saved, `events
      ensures Sim() == Simulation.ResetForNewRun(old(Sim()), setup)
    {
      ghost var was := world.players;
      world := LoadLevel(world, setup.level);
      saved := map[];
      world := world.(timers := []);
      ghost var loaded := world;
      var i := 0;
      while i < |world.players|
        invariant 0 <= i <= |world.players| == |was|
        invariant world == loaded.(players := world.players) && saved == map[] && events == old(events)
        invariant forall k :: 0 <= k < i ==> world.players[k] == Restarted(was[k], setup)
        invariant forall k :: i <= k < |was| ==> world.players[k] == was[k]
      {
        SetPlayer(i, Restarted(world.players[i], setup));
        i := i + 1;
      }
      assert world.players == RestartPlayers(was, setup);
      events := events + [LevelReset];
    }
  }
}
