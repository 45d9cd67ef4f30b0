/** The meaning of one engine tick: what each phase of domain/game_engine.py computes, as functions
    of the state before it. Python's insertion-ordered dictionaries are sequences of entries with
    distinct ids, in iteration order. */
module Simulation {
  import opened Prelude
  import opened Config
  import opened Entities

  datatype Level = Level(
    blocks: seq<Block>, powerUps: seq<PowerUp>, enemies: seq<Enemy>, gates: seq<Gate>)

  /** What stays fixed while an engine lives. */
  datatype Setup = Setup(
    platforms: seq<Box>, width: real, height: real, spawnPoints: seq<(real, real)>, level: Level)

  datatype Tally = Tally(coins: int, blocks: int, enemies: int)

  datatype Timer = Timer(id: string, due: real)

  datatype World = World(
    number: int, players: seq<Player>,
    blocks: seq<Block>, powerUps: seq<PowerUp>, enemies: seq<Enemy>, gates: seq<Gate>,
    tally: Tally, initialEnemies: int, victory: bool, victor: Option<string>, timers: seq<Timer>)

  /** Everything an engine changes: the world, the join indices saved for players waiting to
      respawn, and the events emitted so far. */
  datatype Sim = Sim(world: World, saved: map<string, int>, events: seq<Event>)

  /** The wall-clock readings of one tick, one for each phase that looks at the clock. */
  datatype Clock = Clock(expiry: real, collect: real, contact: real, fall: real, respawn: real)

  // ---- Ordered dictionaries ---------------------------------------------------------------

  /** Index of the entry with this id, or -1. */
  function FindPlayer(ps: seq<Player>, id: string): (i: int)
    ensures -1 <= i < |ps|
    ensures i >= 0 ==> ps[i].id == id && forall k :: 0 <= k < i ==> ps[k].id != id
    ensures i < 0 ==> forall k :: 0 <= k < |ps| ==> ps[k].id != id
  {
    if ps == [] then -1
    else if ps[0].id == id then 0
    else var i := FindPlayer(ps[1..], id); if i < 0 then -1 else i + 1
  }

  function PutPlayer(ps: seq<Player>, p: Player): seq<Player> {
    var i := FindPlayer(ps, p.id);
    if i < 0 then ps + [p] else ps[i := p]
  }

  function RemovePlayer(ps: seq<Player>, id: string): seq<Player> {
    if ps == [] then []
    else if ps[0].id == id then RemovePlayer(ps[1..], id)
    else [ps[0]] + RemovePlayer(ps[1..], id)
  }

  function RemoveEnemy(es: seq<Enemy>, id: string): seq<Enemy> {
    if es == [] then []
    else if es[0].id == id then RemoveEnemy(es[1..], id)
    else [es[0]] + RemoveEnemy(es[1..], id)
  }

  function PutTimer(ts: seq<Timer>, t: Timer): seq<Timer> {
    if ts == [] then [t]
    else if ts[0].id == t.id then [t] + ts[1..]
    else [ts[0]] + PutTimer(ts[1..], t)
  }

  function RemoveTimer(ts: seq<Timer>, id: string): seq<Timer> {
    if ts == [] then []
    else if ts[0].id == id then RemoveTimer(ts[1..], id)
    else [ts[0]] + RemoveTimer(ts[1..], id)
  }

  // ---- Movement ---------------------------------------------------------------------------

  /** Each player of `after` is the same participant as its counterpart in `before`. */
  predicate SameParticipants(before: seq<Player>, after: seq<Player>) {
    && |before| == |after|
    && forall i :: 0 <= i < |before| ==>
         after[i].id == before[i].id && after[i].joinIndex == before[i].joinIndex
  }

  /** Remembers the previous position, expires the star effect, applies the input and integrates. */
  function Moved(p: Player, inputs: map<string, Input>, dt: real, now: real): (r: Player)
    ensures r.id == p.id && r.joinIndex == p.joinIndex
  {
    var q := p.(prevX := p.x, prevY := p.y, effectExpiresAt := Unexpired(p.effectExpiresAt, now));
    var q := if q.id in inputs then ApplyInput(q, inputs[q.id]) else q;
    ApplyPhysics(q, dt)
  }

  function Unexpired(expiry: Option<real>, now: real): Option<real> {
    if expiry.Some? && expiry.value <= now then None else expiry
  }

  function PlatformsFrom(p: Player, platforms: seq<Box>, j: nat): (r: Player)
    decreases |platforms| - j
    ensures r.id == p.id && r.joinIndex == p.joinIndex
  {
    if j >= |platforms| then p else PlatformsFrom(PushOut(p, platforms[j]), platforms, j + 1)
  }

  function Landed(p: Player, platforms: seq<Box>): (r: Player)
    ensures r.id == p.id && r.joinIndex == p.joinIndex
  {
    PlatformsFrom(p.(onGround := false), platforms, 0)
  }

  function MovePlayers(ps: seq<Player>, setup: Setup, inputs: map<string, Input>, dt: real, now: real)
    : (r: seq<Player>)
    ensures SameParticipants(ps, r)
  {
    seq(|ps|, i requires 0 <= i < |ps| => Landed(Moved(ps[i], inputs, dt, now), setup.platforms))
  }

  function ClampToWorld(p: Player, setup: Setup, clampBottom: bool): (r: Player)
    ensures r.id == p.id && r.joinIndex == p.joinIndex
  {
    var x := Clamp(p.x, 0.0, Max(0.0, setup.width - p.width));
    var y := if clampBottom then Clamp(p.y, 0.0, Max(0.0, setup.height - p.height))
             else Max(0.0, p.y);
    p.(x := x, y := y)
  }

  function ClampPlayers(ps: seq<Player>, setup: Setup): (r: seq<Player>)
    ensures SameParticipants(ps, r)
  {
    seq(|ps|, i requires 0 <= i < |ps| => ClampToWorld(ps[i], setup, false))
  }

  // ---- Blocks and power-ups ---------------------------------------------------------------

  datatype BlockHit = BlockHit(player: Player, blocks: seq<Block>, events: seq<Event>)

  /** One player against the blocks from index j on. */
  function BlocksFrom(p: Player, blocks: seq<Block>, events: seq<Event>, j: nat): (r: BlockHit)
    decreases |blocks| - j
    ensures r.player.id == p.id && r.player.joinIndex == p.joinIndex
    ensures |r.blocks| == |blocks|
  {
    if j >= |blocks| then BlockHit(p, blocks, events)
    else
      var b := blocks[j];
      if b.destroyed || !Collides(p, b.box) then BlocksFrom(p, blocks, events, j + 1)
      else if IsHeadBump(p, b.box) then
        var (broken, event) := Destroy(b).value;
        BlocksFrom(ResolveCollision(p, b.box), blocks[j := broken], events + [event], j + 1)
      else BlocksFrom(ResolveCollision(p, b.box), blocks, events, j + 1)
  }

  datatype BlockPhase = BlockPhase(players: seq<Player>, blocks: seq<Block>, events: seq<Event>)

  function HitBlocksFrom(ps: seq<Player>, blocks: seq<Block>, events: seq<Event>, i: nat): (r: BlockPhase)
    decreases |ps| - i
    ensures SameParticipants(ps, r.players)
    ensures |r.blocks| == |blocks|
  {
    if i >= |ps| then BlockPhase(ps, blocks, events)
    else
      var hit := BlocksFrom(ps[i], blocks, events, 0);
      HitBlocksFrom(ps[i := hit.player], hit.blocks, hit.events, i + 1)
  }

  /** Index of the colliding player with the least join index, the first one on ties; -1 if none. */
  function WinnerFrom(ps: seq<Player>, b: Box, k: nat, best: int): (w: int)
    requires -1 <= best < |ps|
    decreases |ps| - k
    ensures -1 <= w < |ps|
  {
    if k >= |ps| then best
    else if Collides(ps[k], b) && (best < 0 || ps[k].joinIndex < ps[best].joinIndex)
    then WinnerFrom(ps, b, k + 1, k)
    else WinnerFrom(ps, b, k + 1, best)
  }

  datatype CollectPhase = CollectPhase(
    players: seq<Player>, powerUps: seq<PowerUp>, events: seq<Event>)

  function CollectFrom(ps: seq<Player>, pus: seq<PowerUp>, events: seq<Event>, j: nat, now: real)
    : (r: CollectPhase)
    decreases |pus| - j
    ensures SameParticipants(ps, r.players)
    ensures |r.powerUps| == |pus|
  {
    if j >= |pus| then CollectPhase(ps, pus, events)
    else if pus[j].collected then CollectFrom(ps, pus, events, j + 1, now)
    else
      var w := WinnerFrom(ps, pus[j].box, 0, -1);
      if w < 0 then CollectFrom(ps, pus, events, j + 1, now)
      else
        var (taken, event) := Collect(pus[j], ps[w].id).value;
        var ps' := if IsStar(pus[j])
                   then ps[w := ps[w].(effectExpiresAt := Some(now + STAR_EFFECT_S))] else ps;
        CollectFrom(ps', pus[j := taken], events + [event], j + 1, now)
  }

  // ---- Enemies ----------------------------------------------------------------------------

  function Steered(e: Enemy, commands: map<string, Command>): real {
    if e.id !in commands then e.vx else if commands[e.id] == MoveLeft then -e.speed else e.speed
  }

  /** At position `x` with velocity `vx`, turned back at the bounds of its range. */
  function Bounced(e: Enemy, vx: real, x: real): (r: Enemy)
    ensures r.id == e.id
  {
    if x < e.leftBound then e.(box := e.box.(x := e.leftBound), vx := -vx)
    else if x + e.box.width > e.rightBound
    then e.(box := e.box.(x := e.rightBound - e.box.width), vx := -vx)
    else e.(box := e.box.(x := x), vx := vx)
  }

  function EnemyMoved(e: Enemy, commands: map<string, Command>, dt: real): (r: Enemy)
    ensures r.id == e.id
  {
    if e.id in commands && commands[e.id] == Stop then e
    else Bounced(e, Steered(e, commands), e.box.x + Steered(e, commands) * dt)
  }

  function MoveEnemies(es: seq<Enemy>, commands: map<string, Command>, dt: real): (r: seq<Enemy>)
    ensures |r| == |es| && forall i :: 0 <= i < |es| ==> r[i].id == es[i].id
  {
    seq(|es|, i requires 0 <= i < |es| => EnemyMoved(es[i], commands, dt))
  }

  function QueueDeath(s: Sim, p: Player, cause: string, now: real): Sim {
    s.(world := s.world.(players := RemovePlayer(s.world.players, p.id),
                         timers := PutTimer(s.world.timers, Timer(p.id, now + RESPAWN_DELAY_S))),
       saved := s.saved[p.id := p.joinIndex],
       events := s.events + [PlayerDied(p.id, cause)])
  }

  function DefeatEnemy(s: Sim, e: Enemy, p: Player): Sim {
    s.(world := s.world.(enemies := RemoveEnemy(s.world.enemies, e.id),
                         players := PutPlayer(s.world.players, p.(vy := JUMP_FORCE * 0.6))))
  }

  /** One enemy against the players listed in `ps` from index k on, as they were when it began. */
  function ContactFrom(s: Sim, e: Enemy, ps: seq<Player>, k: nat, now: real): Sim
    decreases |ps| - k
  {
    if k >= |ps| then s
    else if !Collides(ps[k], e.box) then ContactFrom(s, e, ps, k + 1, now)
    else
      var p := ps[k].(effectExpiresAt := Unexpired(ps[k].effectExpiresAt, now));
      if p.effectExpiresAt.Some? || IsStomp(p, e.box) then DefeatEnemy(s, e, p)
      else ContactFrom(QueueDeath(s, p, e.id, now), e, ps, k + 1, now)
  }

  function EnemyContactsFrom(s: Sim, es: seq<Enemy>, j: nat, now: real): Sim
    decreases |es| - j
  {
    if j >= |es| then s
    else EnemyContactsFrom(ContactFrom(s, es[j], s.world.players, 0, now), es, j + 1, now)
  }

  function VoidDeathsFrom(s: Sim, ps: seq<Player>, k: nat, height: real, now: real): Sim
    decreases |ps| - k
  {
    if k >= |ps| then s
    else if ps[k].y + ps[k].height <= height then VoidDeathsFrom(s, ps, k + 1, height, now)
    else VoidDeathsFrom(QueueDeath(s, ps[k], VOID_DEATH_CAUSE, now), ps, k + 1, height, now)
  }

  // ---- Objectives and gates ---------------------------------------------------------------

  function CoinCount(pus: seq<PowerUp>): nat {
    if pus == [] then 0
    else CoinCount(pus[..|pus| - 1]) + (if pus[|pus| - 1].collected && IsCoin(pus[|pus| - 1]) then 1 else 0)
  }

  function DestroyedCount(blocks: seq<Block>): nat {
    if blocks == [] then 0
    else DestroyedCount(blocks[..|blocks| - 1]) + (if blocks[|blocks| - 1].destroyed then 1 else 0)
  }

  function CurrentTally(w: World): Tally {
    Tally(CoinCount(w.powerUps), DestroyedCount(w.blocks),
          if w.initialEnemies > |w.enemies| then w.initialEnemies - |w.enemies| else 0)
  }

  predicate RequirementsMet(g: Gate, t: Tally) {
    t.coins >= g.coinsRequired && t.blocks >= g.blocksRequired && t.enemies >= g.enemiesRequired
  }

  function PushOutAll(ps: seq<Player>, b: Box): (r: seq<Player>)
    ensures SameParticipants(ps, r)
  {
    seq(|ps|, i requires 0 <= i < |ps| => PushOut(ps[i], b))
  }

  datatype GatePhase = GatePhase(players: seq<Player>, gates: seq<Gate>, events: seq<Event>)

  function GatesFrom(ps: seq<Player>, gates: seq<Gate>, events: seq<Event>, j: nat, t: Tally): (r: GatePhase)
    decreases |gates| - j
    ensures SameParticipants(ps, r.players)
    ensures |r.gates| == |gates|
  {
    if j >= |gates| then GatePhase(ps, gates, events)
    else
      var (g, change) := UpdateGate(gates[j], RequirementsMet(gates[j], t));
      var ps' := if g.state == Closed then PushOutAll(ps, g.box) else ps;
      GatesFrom(ps', gates[j := g], events + change, j + 1, t)
  }

  /** First player touching gate `b` from index k on, or -1. */
  function ToucherFrom(ps: seq<Player>, b: Box, k: nat): (i: int)
    decreases |ps| - k
    ensures -1 <= i < |ps|
  {
    if k >= |ps| then -1 else if Collides(ps[k], b) then k else ToucherFrom(ps, b, k + 1)
  }

  function VictorFrom(ps: seq<Player>, gates: seq<Gate>, j: nat): Option<string>
    decreases |gates| - j
  {
    if j >= |gates| then None
    else
      var i := if gates[j].state == Open && gates[j].isFinal then ToucherFrom(ps, gates[j].box, 0) else -1;
      if i >= 0 then Some(ps[i].id) else VictorFrom(ps, gates, j + 1)
  }

  // ---- Respawns ---------------------------------------------------------------------------

  /** Python's `%` on a non-empty list: never negative. */
  function SpawnPosition(setup: Setup, joinIndex: int): (real, real) {
    if setup.spawnPoints == [] then (100.0, 100.0)
    else setup.spawnPoints[joinIndex % |setup.spawnPoints|]
  }

  function Spawned(setup: Setup, id: string, position: (real, real), joinIndex: int): (r: Player)
    ensures r.id == id && r.joinIndex == joinIndex
  {
    ClampToWorld(NewPlayer(id, position.0, position.1, joinIndex), setup, true)
  }

  function Respawn(s: Sim, setup: Setup, id: string): Sim {
    var joinIndex := if id in s.saved then s.saved[id] else 0;
    var p := Spawned(setup, id, SpawnPosition(setup, joinIndex), joinIndex);
    s.(world := s.world.(players := PutPlayer(s.world.players, p), timers := RemoveTimer(s.world.timers, id)),
       saved := s.saved - {id})
  }

  function RespawnsFrom(s: Sim, setup: Setup, ts: seq<Timer>, k: nat, now: real): Sim
    decreases |ts| - k
  {
    if k >= |ts| then s
    else if now >= ts[k].due then RespawnsFrom(Respawn(s, setup, ts[k].id), setup, ts, k + 1, now)
    else RespawnsFrom(s, setup, ts, k + 1, now)
  }

  // ---- The phases of a tick, on the whole state -------------------------------------------

  function MovePhase(s: Sim, setup: Setup, inputs: map<string, Input>, dt: real, now: real): Sim {
    s.(world := s.world.(players := MovePlayers(s.world.players, setup, inputs, dt, now)))
  }

  function BlocksPhase(s: Sim): Sim {
    var r := HitBlocksFrom(s.world.players, s.world.blocks, s.events, 0);
    s.(world := s.world.(players := r.players, blocks := r.blocks), events := r.events)
  }

  function PowerUpsPhase(s: Sim, authoritative: bool, now: real): Sim {
    if !authoritative then s
    else
      var r := CollectFrom(s.world.players, s.world.powerUps, s.events, 0, now);
      s.(world := s.world.(players := r.players, powerUps := r.powerUps), events := r.events)
  }

  function EnemiesPhase(s: Sim, commands: map<string, Command>, dt: real): Sim {
    s.(world := s.world.(enemies := MoveEnemies(s.world.enemies, commands, dt)))
  }

  function ContactPhase(s: Sim, authoritative: bool, now: real): Sim {
    if !authoritative then s else EnemyContactsFrom(s, s.world.enemies, 0, now)
  }

  function VoidPhase(s: Sim, authoritative: bool, height: real, now: real): Sim {
    if !authoritative then s else VoidDeathsFrom(s, s.world.players, 0, height, now)
  }

  function TallyPhase(s: Sim): Sim {
    s.(world := s.world.(tally := CurrentTally(s.world)))
  }

  function GatesPhase(s: Sim): Sim {
    var r := GatesFrom(s.world.players, s.world.gates, s.events, 0, s.world.tally);
    s.(world := s.world.(players := r.players, gates := r.gates), events := r.events)
  }

  function ClampPhase(s: Sim, setup: Setup): Sim {
    s.(world := s.world.(players := ClampPlayers(s.world.players, setup)))
  }

  function VictoryPhase(s: Sim, authoritative: bool): Sim {
    if !authoritative || s.world.victory then s
    else
      var victor := VictorFrom(s.world.players, s.world.gates, 0);
      if victor.None? then s else s.(world := s.world.(victory := true, victor := victor))
  }

  function RespawnPhase(s: Sim, setup: Setup, authoritative: bool, now: real): Sim {
    if !authoritative then s else RespawnsFrom(s, setup, s.world.timers, 0, now)
  }

  function CountPhase(s: Sim): Sim { s.(world := s.world.(number := s.world.number + 1)) }

  /** From the start of a tick to the last point where a player can die. */
  function TickUntilDeaths(s: Sim, setup: Setup, authoritative: bool, dt: real, inputs: map<string, Input>,
                           commands: map<string, Command>, clock: Clock): Sim
  {
    var s := MovePhase(s, setup, inputs, dt, clock.expiry);
    var s := BlocksPhase(s);
    var s := PowerUpsPhase(s, authoritative, clock.collect);
    var s := EnemiesPhase(s, commands, dt);
    var s := ContactPhase(s, authoritative, clock.contact);
    VoidPhase(s, authoritative, setup.height, clock.fall)
  }

  function TickAfterDeaths(s: Sim, setup: Setup, authoritative: bool, now: real): Sim {
    var s := TallyPhase(s);
    var s := GatesPhase(s);
    var s := ClampPhase(s, setup);
    var s := VictoryPhase(s, authoritative);
    var s := RespawnPhase(s, setup, authoritative, now);
    CountPhase(s)
  }

  function Tick(s: Sim, setup: Setup, authoritative: bool, dt: real, inputs: map<string, Input>,
                commands: map<string, Command>, clock: Clock): Sim
  {
    if s.world.victory then CountPhase(s)
    else
      TickAfterDeaths(TickUntilDeaths(s, setup, authoritative, dt, inputs, commands, clock),
                      setup, authoritative, clock.respawn)
  }

  /** The arguments of one call of `tick`. */
  datatype TickCall = TickCall(dt: real, inputs: map<string, Input>, commands: map<string, Command>, clock: Clock)

  function TickBy(s: Sim, setup: Setup, authoritative: bool, call: TickCall): Sim {
    Tick(s, setup, authoritative, call.dt, call.inputs, call.commands, call.clock)
  }

  /** A run: the calls in order, with nothing in between. */
  function Run(s: Sim, setup: Setup, authoritative: bool, calls: seq<TickCall>): Sim {
    if calls == [] then s
    else TickBy(Run(s, setup, authoritative, calls[..|calls| - 1]), setup, authoritative, calls[|calls| - 1])
  }

  // ---- Two worlds in one ------------------------------------------------------------------

  /** The snapshot's characters, enemies and counters with the local blocks, power-ups and gates. */
  function Rebased(local: World, snapshot: World): World {
    snapshot.(blocks := local.blocks, powerUps := local.powerUps, gates := local.gates)
  }

  /** The environment of the last stored snapshot, if there is one, under the local characters. */
  function Resynced(local: World, buffered: Option<World>): World {
    if buffered.None? then local else Rebased(buffered.value, local)
  }

  // ---- Restarting the level ---------------------------------------------------------------

  function LoadLevel(w: World, level: Level): World {
    w.(blocks := level.blocks, powerUps := level.powerUps, enemies := level.enemies, gates := level.gates,
       tally := Tally(0, 0, 0), initialEnemies := |level.enemies|, victory := false, victor := None)
  }

  function Restarted(p: Player, setup: Setup): (r: Player)
    ensures r.id == p.id && r.joinIndex == p.joinIndex
  {
    var position := SpawnPosition(setup, p.joinIndex);
    p.(x := position.0, y := position.1, vx := 0.0, vy := 0.0, onGround := false, crouching := false,
       effectExpiresAt := None)
  }

  function RestartPlayers(ps: seq<Player>, setup: Setup): (r: seq<Player>)
    ensures SameParticipants(ps, r)
  {
    seq(|ps|, i requires 0 <= i < |ps| => Restarted(ps[i], setup))
  }

  function ResetForNewRun(s: Sim, setup: Setup): Sim {
    Sim(LoadLevel(s.world, setup.level).(players := RestartPlayers(s.world.players, setup), timers := []),
        map[], s.events + [LevelReset])
  }
}
