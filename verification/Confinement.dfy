/** Nobody leaves the level: after every live tick the players are inside the world's side and upper
    borders, and enemies never leave their patrol range (domain/game_engine.py). */
module Confinement {
  import opened Prelude
  import opened Config
  import opened Entities
  import opened Simulation

  /** Falling out at the bottom is what the void is for. */
  predicate InWorld(p: Player, setup: Setup) {
    0.0 <= p.x <= Max(0.0, setup.width - p.width) && 0.0 <= p.y
  }

  ghost predicate AllInWorld(ps: seq<Player>, setup: Setup) { forall p :: p in ps ==> InWorld(p, setup) }

  predicate Roams(e: Enemy) { e.leftBound <= e.box.x && e.box.x + e.box.width <= e.rightBound }

  ghost predicate AllRoam(es: seq<Enemy>) { forall e :: e in es ==> Roams(e) }

  /** Whatever it is told and however long the step, an enemy turns at its bounds. */
  lemma EnemyStaysInRange(e: Enemy, commands: map<string, Command>, dt: real)
    requires Roams(e)
    ensures Roams(EnemyMoved(e, commands, dt))
  {
  }

  lemma MovedEnemiesRoam(es: seq<Enemy>, commands: map<string, Command>, dt: real)
    requires AllRoam(es)
    ensures AllRoam(MoveEnemies(es, commands, dt))
  {
    var after := MoveEnemies(es, commands, dt);
    forall e | e in after ensures Roams(e) {
      var i :| 0 <= i < |after| && after[i] == e;
      assert es[i] in es;
      EnemyStaysInRange(es[i], commands, dt);
    }
  }

  lemma {:induction false} RemovalKeepsOthers(es: seq<Enemy>, id: string)
    ensures forall e :: e in RemoveEnemy(es, id) ==> e in es
  {
    if es != [] { RemovalKeepsOthers(es[1..], id); }
  }

  lemma {:induction false} ContactKeepsEnemies(s: Sim, e: Enemy, ps: seq<Player>, k: nat, now: real)
    ensures forall f :: f in ContactFrom(s, e, ps, k, now).world.enemies ==> f in s.world.enemies
    decreases |ps| - k
  {
    if k < |ps| {
      var p := ps[k].(effectExpiresAt := Unexpired(ps[k].effectExpiresAt, now));
      if !Collides(ps[k], e.box) {
        ContactKeepsEnemies(s, e, ps, k + 1, now);
      } else if p.effectExpiresAt.Some? || IsStomp(p, e.box) {
        RemovalKeepsOthers(s.world.enemies, e.id);
      } else {
        ContactKeepsEnemies(QueueDeath(s, p, e.id, now), e, ps, k + 1, now);
      }
    }
  }

  lemma {:induction false} ContactsKeepEnemies(s: Sim, es: seq<Enemy>, j: nat, now: real)
    ensures forall f :: f in EnemyContactsFrom(s, es, j, now).world.enemies ==> f in s.world.enemies
    decreases |es| - j
  {
    if j < |es| {
      ContactKeepsEnemies(s, es[j], s.world.players, 0, now);
      ContactsKeepEnemies(ContactFrom(s, es[j], s.world.players, 0, now), es, j + 1, now);
    }
  }

  lemma {:induction false} FallsKeepEnemies(s: Sim, ps: seq<Player>, k: nat, height: real, now: real)
    ensures VoidDeathsFrom(s, ps, k, height, now).world.enemies == s.world.enemies
    decreases |ps| - k
  {
    if k < |ps| {
      var t := if ps[k].y + ps[k].height <= height then s else QueueDeath(s, ps[k], VOID_DEATH_CAUSE, now);
      FallsKeepEnemies(t, ps, k + 1, height, now);
    }
  }

  lemma ClampingConfines(ps: seq<Player>, setup: Setup)
    ensures AllInWorld(ClampPlayers(ps, setup), setup)
  {
    var after := ClampPlayers(ps, setup);
    forall p | p in after ensures InWorld(p, setup) {
      var i :| 0 <= i < |after| && after[i] == p;
    }
  }

  lemma {:induction false} RespawnsConfine(s: Sim, setup: Setup, ts: seq<Timer>, k: nat, now: real)
    requires AllInWorld(s.world.players, setup)
    ensures AllInWorld(RespawnsFrom(s, setup, ts, k, now).world.players, setup)
    ensures RespawnsFrom(s, setup, ts, k, now).world.enemies == s.world.enemies
    decreases |ts| - k
  {
    if k < |ts| {
      if now >= ts[k].due {
        var id := ts[k].id;
        var joinIndex := if id in s.saved then s.saved[id] else 0;
        ReturningConfined(s.world.players, setup, id, SpawnPosition(setup, joinIndex), joinIndex);
        RespawnsConfine(Respawn(s, setup, id), setup, ts, k + 1, now);
      } else {
        RespawnsConfine(s, setup, ts, k + 1, now);
      }
    }
  }

  lemma ReturningConfined(ps: seq<Player>, setup: Setup, id: string, position: (real, real), joinIndex: int)
    requires AllInWorld(ps, setup)
    ensures AllInWorld(PutPlayer(ps, Spawned(setup, id, position, joinIndex)), setup)
  {
    var p := Spawned(setup, id, position, joinIndex);
    assert InWorld(p, setup);
    var after := PutPlayer(ps, p);
    forall q | q in after ensures InWorld(q, setup) {
      var i :| 0 <= i < |after| && after[i] == q;
      assert q == p || q in ps;
    }
  }

  lemma TickConfines(s: Sim, setup: Setup, authoritative: bool, call: TickCall)
    requires AllRoam(s.world.enemies)
    ensures AllRoam(TickBy(s, setup, authoritative, call).world.enemies)
    ensures !s.world.victory || AllInWorld(s.world.players, setup) ==>
              AllInWorld(TickBy(s, setup, authoritative, call).world.players, setup)
  {
    if !s.world.victory {
      var s3 := PowerUpsPhase(BlocksPhase(MovePhase(s, setup, call.inputs, call.dt, call.clock.expiry)),
                              authoritative, call.clock.collect);
      var s4 := EnemiesPhase(s3, call.commands, call.dt);
      MovedEnemiesRoam(s.world.enemies, call.commands, call.dt);
      ContactsKeepEnemies(s4, s4.world.enemies, 0, call.clock.contact);
      var s5 := ContactPhase(s4, authoritative, call.clock.contact);
      FallsKeepEnemies(s5, s5.world.players, 0, setup.height, call.clock.fall);
      var s6 := VoidPhase(s5, authoritative, setup.height, call.clock.fall);
      var s8 := GatesPhase(TallyPhase(s6));
      ClampingConfines(s8.world.players, setup);
      var s10 := VictoryPhase(ClampPhase(s8, setup), authoritative);
      RespawnsConfine(s10, setup, s10.world.timers, 0, call.clock.respawn);
    }
  }

  /** In every run that has had a live tick everybody alive is inside the world, and enemies are in
      their range throughout. */
  lemma {:induction false} RunConfines(s: Sim, setup: Setup, authoritative: bool, calls: seq<TickCall>)
    requires AllRoam(s.world.enemies)
    ensures var t := Run(s, setup, authoritative, calls);
      && AllRoam(t.world.enemies)
      && (AllInWorld(s.world.players, setup) || (calls != [] && !s.world.victory) ==>
           AllInWorld(t.world.players, setup))
  {
    if calls != [] {
      var before := calls[..|calls| - 1];
      RunConfines(s, setup, authoritative, before);
      TickConfines(Run(s, setup, authoritative, before), setup, authoritative, calls[|calls| - 1]);
    }
  }

  // ---- Where an enemy goes ------------------------------------------------------------------

  /** Nothing but the position along its range and the velocity has changed. */
  predicate OnlyMoved(e: Enemy, f: Enemy) { f == e.(box := e.box.(x := f.box.x), vx := f.vx) }

  /** An enemy walks as far as told, to the end of its range at most, and turns around there; told to
      stop it stands, told nothing it goes on. */
  predicate Walks(e: Enemy, f: Enemy, commands: map<string, Command>, dt: real) {
    && OnlyMoved(e, f)
    && (e.id !in commands ==>
          f.box.x == Clamp(e.box.x + e.vx * dt, e.leftBound, e.rightBound - e.box.width)
          && f.vx == if f.box.x == e.box.x + e.vx * dt then e.vx else -e.vx)
    && (e.id in commands && commands[e.id] == Stop ==> f == e)
    && (e.id in commands && commands[e.id] == MoveLeft ==>
          f.box.x == Max(e.leftBound, e.box.x - e.speed * dt)
          && f.vx == if f.box.x == e.box.x - e.speed * dt then -e.speed else e.speed)
    && (e.id in commands && commands[e.id] == MoveRight ==>
          f.box.x == Min(e.rightBound - e.box.width, e.box.x + e.speed * dt)
          && f.vx == if f.box.x == e.box.x + e.speed * dt then e.speed else -e.speed)
  }

  /** Going d along the range with velocity vx. */
  lemma BouncedWalks(e: Enemy, vx: real, d: real)
    requires Roams(e)
    ensures var f := Bounced(e, vx, e.box.x + d);
      && OnlyMoved(e, f)
      && f.box.x == Clamp(e.box.x + d, e.leftBound, e.rightBound - e.box.width)
      && f.vx == if f.box.x == e.box.x + d then vx else -vx
  {
  }

  lemma Negated(a: real, b: real)
    ensures -a * b == -(a * b)
  {
  }

  lemma EnemyWalks(e: Enemy, commands: map<string, Command>, dt: real)
    requires Roams(e) && e.speed * dt >= 0.0
    ensures Walks(e, EnemyMoved(e, commands, dt), commands, dt)
  {
    if e.id !in commands {
      UntoldWalks(e, commands, dt);
    } else if commands[e.id] != Stop {
      ToldWalks(e, commands, dt, e.speed * dt);
    }
  }

  lemma UntoldWalks(e: Enemy, commands: map<string, Command>, dt: real)
    requires Roams(e) && e.id !in commands
    ensures Walks(e, EnemyMoved(e, commands, dt), commands, dt)
  {
    BouncedWalks(e, e.vx, e.vx * dt);
    assert EnemyMoved(e, commands, dt) == Bounced(e, e.vx, e.box.x + e.vx * dt);
    hide Bounced, EnemyMoved;
  }

  lemma ToldWalks(e: Enemy, commands: map<string, Command>, dt: real, d: real)
    requires Roams(e) && d == e.speed * dt >= 0.0 && e.id in commands && commands[e.id] != Stop
    ensures Walks(e, EnemyMoved(e, commands, dt), commands, dt)
  {
    Negated(e.speed, dt);
    var left := commands[e.id] == MoveLeft;
    BouncedWalks(e, if left then -e.speed else e.speed, if left then -d else d);
    assert EnemyMoved(e, commands, dt) == Bounced(e, if left then -e.speed else e.speed, e.box.x + if left then -d
        else d);
    hide Bounced, EnemyMoved;
  }

  /** A tick moves enemies and removes some; it adds none. */
  lemma EnemiesLeft(s: Sim, setup: Setup, authoritative: bool, call: TickCall)
    requires !s.world.victory
    ensures forall f :: f in TickBy(s, setup, authoritative, call).world.enemies ==>
              f in MoveEnemies(s.world.enemies, call.commands, call.dt)
  {
    var s3 := PowerUpsPhase(BlocksPhase(MovePhase(s, setup, call.inputs, call.dt, call.clock.expiry)),
                            authoritative, call.clock.collect);
    var s4 := EnemiesPhase(s3, call.commands, call.dt);
    hide MoveEnemies;
    ContactsKeepEnemies(s4, s4.world.enemies, 0, call.clock.contact);
    var s5 := ContactPhase(s4, authoritative, call.clock.contact);
    FallsKeepEnemies(s5, s5.world.players, 0, setup.height, call.clock.fall);
    var s6 := VoidPhase(s5, authoritative, setup.height, call.clock.fall);
    var s10 := VictoryPhase(ClampPhase(GatesPhase(TallyPhase(s6)), setup), authoritative);
    RespawnsKeepEnemies(s10, setup, s10.world.timers, 0, call.clock.respawn);
  }

  /** Every enemy left after a live tick is one from before it and has walked as its command says. */
  lemma EnemiesWalk(s: Sim, setup: Setup, authoritative: bool, call: TickCall)
    requires !s.world.victory && AllRoam(s.world.enemies)
    requires forall e :: e in s.world.enemies ==> e.speed * call.dt >= 0.0
    ensures forall f :: f in TickBy(s, setup, authoritative, call).world.enemies ==>
              exists e :: e in s.world.enemies && Walks(e, f, call.commands, call.dt)
  {
    hide TickBy, Walks, EnemyMoved;
    EnemiesLeft(s, setup, authoritative, call);
    var moved := MoveEnemies(s.world.enemies, call.commands, call.dt);
    forall f | f in moved ensures exists e :: e in s.world.enemies && Walks(e, f, call.commands, call.dt) {
      var i :| 0 <= i < |moved| && moved[i] == f;
      var e := s.world.enemies[i];
      assert e in s.world.enemies;
      EnemyWalks(e, call.commands, call.dt);
    }
  }

  lemma {:induction false} RespawnsKeepEnemies(s: Sim, setup: Setup, ts: seq<Timer>, k: nat, now: real)
    ensures RespawnsFrom(s, setup, ts, k, now).world.enemies == s.world.enemies
    decreases |ts| - k
  {
    if k < |ts| {
      RespawnsKeepEnemies(if now >= ts[k].due then Respawn(s, setup, ts[k].id) else s, setup, ts, k + 1, now);
    }
  }
}
