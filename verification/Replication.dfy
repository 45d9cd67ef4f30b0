/** Rebuilding the environment on another node from the emitted events alone
    (application/gameplay/mapper.py, the receiving half of application/gameplay/events.py). */
module Replication {
  import opened Prelude
  import opened Entities
  import opened Simulation
  import opened GameEngineModel

  datatype Message =
    | BlockDestroyedMessage(x: real, y: real)
    | PowerUpCollectedMessage(powerUpId: string, playerId: string)
    | GateStateChangedMessage(gateId: string, newState: GateState)
    | PlayerDeathMessage(playerId: string, cause: string)
    | LevelResetMessage
    | PlayerLeft(playerId: string)

  function ToMessage(e: Event): Message {
    match e
    case BlockDestroyed(x, y) => BlockDestroyedMessage(x, y)
    case PowerUpCollected(id, player) => PowerUpCollectedMessage(id, player)
    case GateStateChanged(id, state) => GateStateChangedMessage(id, state)
    case PlayerDied(player, cause) => PlayerDeathMessage(player, cause)
    case LevelReset => LevelResetMessage
  }

  // ---- Lookups: the first entry that matches, as the accessors of domain/world.py ---------

  function FindBlock(blocks: seq<Block>, x: real, y: real): (i: int)
    ensures -1 <= i < |blocks|
    ensures i >= 0 ==> blocks[i].box.x == x && blocks[i].box.y == y
    ensures i < 0 ==> forall k :: 0 <= k < |blocks| ==> !(blocks[k].box.x == x && blocks[k].box.y == y)
  {
    if blocks == [] then -1
    else if blocks[0].box.x == x && blocks[0].box.y == y then 0
    else var i := FindBlock(blocks[1..], x, y); if i < 0 then -1 else i + 1
  }

  function FindPowerUp(pus: seq<PowerUp>, id: string): (i: int)
    ensures -1 <= i < |pus|
    ensures i >= 0 ==> pus[i].id == id
    ensures i < 0 ==> forall k :: 0 <= k < |pus| ==> pus[k].id != id
  {
    if pus == [] then -1
    else if pus[0].id == id then 0
    else var i := FindPowerUp(pus[1..], id); if i < 0 then -1 else i + 1
  }

  function FindGate(gates: seq<Gate>, id: string): (i: int)
    ensures -1 <= i < |gates|
    ensures i >= 0 ==> gates[i].id == id
    ensures i < 0 ==> forall k :: 0 <= k < |gates| ==> gates[k].id != id
  {
    if gates == [] then -1
    else if gates[0].id == id then 0
    else var i := FindGate(gates[1..], id); if i < 0 then -1 else i + 1
  }

  // ---- What one message does to the receiver ----------------------------------------------

  function Received(s: Sim, setup: Setup, localId: string, m: Message): Sim {
    var w := s.world;
    match m
    case BlockDestroyedMessage(x, y) =>
      var i := FindBlock(w.blocks, x, y);
      if i < 0 then s else s.(world := w.(blocks := w.blocks[i := w.blocks[i].(destroyed := true)]))
    case PowerUpCollectedMessage(id, player) =>
      var i := FindPowerUp(w.powerUps, id);
      if i < 0 then s
      else s.(world := w.(powerUps := w.powerUps[i := w.powerUps[i].(collected := true, owner := Some(player))]))
    case GateStateChangedMessage(id, state) =>
      var i := FindGate(w.gates, id);
      if i < 0 then s else s.(world := w.(gates := w.gates[i := w.gates[i].(state := state)]))
    case PlayerLeft(player) =>
      if player == localId then s else s.(world := w.(players := RemovePlayer(w.players, player)))
    case PlayerDeathMessage(player, _) => s.(world := w.(players := RemovePlayer(w.players, player)))
    case LevelResetMessage => ResetForNewRun(s, setup)
  }

  function ReceivedAll(s: Sim, setup: Setup, localId: string, ms: seq<Message>): Sim {
    if ms == [] then s
    else Received(ReceivedAll(s, setup, localId, ms[..|ms| - 1]), setup, localId, ms[|ms| - 1])
  }

  /** One polled message, applied to the engine. */
  method Apply(engine: GameEngine, localId: string, m: Message)
    modifies engine`world, engine`saved, engine`events
    ensures engine.Sim() == Received(old(engine.Sim()), engine.setup, localId, m)
  {
    match m {
      case BlockDestroyedMessage(x, y) =>
        var i := FindBlock(engine.world.blocks, x, y);
        if i >= 0 && !engine.world.blocks[i].destroyed {
          engine.world := engine.world.(blocks := engine.world.blocks[i := engine.world.blocks[i].(destroyed := true)]);
        } else if i >= 0 {
          assert engine.world.blocks[i := engine.world.blocks[i].(destroyed := true)] == engine.world.blocks;
        }
      case PowerUpCollectedMessage(id, player) =>
        var i := FindPowerUp(engine.world.powerUps, id);
        if i >= 0 {
          engine.world := engine.world.(powerUps :=
            engine.world.powerUps[i := engine.world.powerUps[i].(collected := true, owner := Some(player))]);
        }
      case GateStateChangedMessage(id, state) =>
        var i := FindGate(engine.world.gates, id);
        if i >= 0 {
          engine.world := engine.world.(gates := engine.world.gates[i := engine.world.gates[i].(state := state)]);
        }
      case PlayerLeft(player) =>
        if player != localId {
          engine.world := engine.world.(players := RemovePlayer(engine.world.players, player));
        }
      case PlayerDeathMessage(player, _) =>
        engine.world := engine.world.(players := RemovePlayer(engine.world.players, player));
      case LevelResetMessage =>
        engine.ResetForNewRun();
    }
  }

  /** The receiving loop: polls until the queue is empty, applying each message to the engine. */
  method DrainGameEvents(engine: GameEngine, localId: string, queue: seq<Message>)
    modifies engine`world, engine`saved, engine`events
    ensures engine.Sim() == ReceivedAll(old(engine.Sim()), engine.setup, localId, queue)
    ensures PlayersAfter(old(engine.world.players), engine.world.players, engine.setup, localId, queue)
  {
    PlayersAfterQueue(engine.Sim(), engine.setup, localId, queue);
    hide PlayersAfter;
    var n := 0;
    while n < |queue|
      invariant 0 <= n <= |queue|
      invariant engine.Sim() == ReceivedAll(old(engine.Sim()), engine.setup, localId, queue[..n])
    {
      assert queue[..n + 1][..n] == queue[..n];
      Apply(engine, localId, queue[n]);
      n := n + 1;
    }
    assert queue[..n] == queue;
  }

  // ---- What the messages do to the characters ---------------------------------------------

  /** The message takes this player out of the world: it died, or it left and is somebody else. */
  predicate TakesOut(m: Message, id: string, localId: string) {
    || (m.PlayerDeathMessage? && m.playerId == id)
    || (m.PlayerLeft? && m.playerId == id && id != localId)
  }

  predicate TakenOut(ms: seq<Message>, id: string, localId: string) {
    exists i :: 0 <= i < |ms| && TakesOut(ms[i], id, localId)
  }

  predicate HasReset(ms: seq<Message>) { exists i :: 0 <= i < |ms| && ms[i].LevelResetMessage? }

  /** After the reset of a level a character is back at its spawn point; otherwise nothing touches it. */
  function Remaining(p: Player, setup: Setup, ms: seq<Message>): (q: Player)
    ensures q.id == p.id && q.joinIndex == p.joinIndex
  {
    if HasReset(ms) then Restarted(p, setup) else p
  }

  lemma {:induction false} RemovedPlayers(ps: seq<Player>, id: string)
    ensures forall p :: p in RemovePlayer(ps, id) <==> p in ps && p.id != id
  {
    if ps != [] { RemovedPlayers(ps[1..], id); }
  }

  lemma RestartedPlayers(ps: seq<Player>, setup: Setup)
    ensures forall q :: q in RestartPlayers(ps, setup) <==> exists p :: p in ps && q == Restarted(p, setup)
  {
    var after := RestartPlayers(ps, setup);
    forall p | p in ps ensures Restarted(p, setup) in after {
      var i :| 0 <= i < |ps| && ps[i] == p;
      assert after[i] in after;
    }
    forall q | q in after ensures exists p :: p in ps && q == Restarted(p, setup) {
      var i :| 0 <= i < |after| && after[i] == q;
      assert ps[i] in ps;
    }
  }

  /** After any queue exactly those characters are there that were there before and that no message has
      taken out: as they were, or back at their spawn points if the level was reset. */
  ghost predicate PlayersAfter(ps: seq<Player>, qs: seq<Player>, setup: Setup, localId: string, ms: seq<Message>) {
    forall q :: q in qs <==> exists p :: p in ps && !TakenOut(ms, p.id, localId) && q == Remaining(p, setup, ms)
  }

  lemma {:induction false} PlayersAfterQueue(s: Sim, setup: Setup, localId: string, ms: seq<Message>)
    ensures PlayersAfter(s.world.players, ReceivedAll(s, setup, localId, ms).world.players, setup, localId, ms)
  {
    if ms != [] {
      var before, m := ms[..|ms| - 1], ms[|ms| - 1];
      PlayersAfterQueue(s, setup, localId, before);
      PlayersAfterMessage(ReceivedAll(s, setup, localId, before), setup, localId, m);
      forall id ensures TakenOut(ms, id, localId) <==> TakenOut(before, id, localId) || TakesOut(m, id, localId) {
        if i :| 0 <= i < |before| && TakesOut(before[i], id, localId) { assert TakesOut(ms[i], id, localId); }
        if TakesOut(m, id, localId) { assert TakesOut(ms[|ms| - 1], id, localId); }
        if i :| 0 <= i < |ms| && TakesOut(ms[i], id, localId) { assert i < |before| ==> before[i] == ms[i]; }
      }
      ResetOfLonger(ms);
      QueueOfLonger(s.world.players, ReceivedAll(s, setup, localId, before).world.players,
                    ReceivedAll(s, setup, localId, ms).world.players, setup, localId, before, m, ms);
    }
  }

  lemma ResetOfLonger(ms: seq<Message>)
    requires ms != []
    ensures HasReset(ms) <==> HasReset(ms[..|ms| - 1]) || ms[|ms| - 1].LevelResetMessage?
  {
    var before := ms[..|ms| - 1];
    if i :| 0 <= i < |before| && before[i].LevelResetMessage? { assert ms[i].LevelResetMessage?; }
    if i :| 0 <= i < |ms| && ms[i].LevelResetMessage? { assert i < |before| ==> before[i] == ms[i]; }
  }

  lemma PlayersAfterMessage(s: Sim, setup: Setup, localId: string, m: Message)
    ensures var qs := Received(s, setup, localId, m).world.players;
      forall q :: q in qs <==>
        exists p :: p in s.world.players && !TakesOut(m, p.id, localId)
                    && q == if m.LevelResetMessage? then Restarted(p, setup) else p
  {
    match m
    case PlayerLeft(id) => RemovedPlayers(s.world.players, id);
    case PlayerDeathMessage(id, _) => RemovedPlayers(s.world.players, id);
    case LevelResetMessage => RestartedPlayers(s.world.players, setup);
    case _ =>
  }

  lemma QueueOfLonger(ps: seq<Player>, qs: seq<Player>, rs: seq<Player>, setup: Setup, localId: string,
                      before: seq<Message>, m: Message, ms: seq<Message>)
    requires PlayersAfter(ps, qs, setup, localId, before)
    requires forall r :: r in rs <==>
               exists q :: q in qs && !TakesOut(m, q.id, localId) && r == if m.LevelResetMessage?
                   then Restarted(q, setup) else q
    requires forall id :: TakenOut(ms, id, localId) <==> TakenOut(before, id, localId) || TakesOut(m, id, localId)
    requires HasReset(ms) <==> HasReset(before) || m.LevelResetMessage?
    ensures PlayersAfter(ps, rs, setup, localId, ms)
  {
    hide TakenOut, HasReset, TakesOut;
    forall p | p in ps && !TakenOut(ms, p.id, localId) ensures Remaining(p, setup, ms) in rs {
      assert Remaining(p, setup, before) in qs;
    }
  }

  // ---- The replicated part of the environment ---------------------------------------------

  datatype Replica = Replica(blocks: seq<Block>, powerUps: seq<PowerUp>, gates: seq<Gate>)

  function View(s: Sim): Replica { Replica(s.world.blocks, s.world.powerUps, s.world.gates) }

  /** Block positions and ids identify one entry each. */
  predicate Identified(r: Replica) {
    && (forall i, j :: 0 <= i < j < |r.blocks| ==>
          r.blocks[i].box.x != r.blocks[j].box.x || r.blocks[i].box.y != r.blocks[j].box.y)
    && (forall i, j :: 0 <= i < j < |r.powerUps| ==> r.powerUps[i].id != r.powerUps[j].id)
    && (forall i, j :: 0 <= i < j < |r.gates| ==> r.gates[i].id != r.gates[j].id)
  }

  predicate Environmental(e: Event) { e.BlockDestroyed? || e.PowerUpCollected? || e.GateStateChanged? }

  function Messages(events: seq<Event>): seq<Message> {
    seq(|events|, i requires 0 <= i < |events| => ToMessage(events[i]))
  }

  /** The receiver after the messages of these events, starting from `r`. */
  function Replayed(r: Sim, setup: Setup, events: seq<Event>): Sim {
    ReceivedAll(r, setup, "", Messages(events))
  }

  /** Replaying `events` on `r` produces the environment `v`, and every environmental event on the
      way changes the receiver: nothing is missing and nothing is spurious. */
  predicate Reproduces(r: Sim, setup: Setup, events: seq<Event>, v: Replica)
  {
    && View(Replayed(r, setup, events)) == v
    && forall k :: 0 <= k < |events| && Environmental(events[k]) ==>
         View(Replayed(r, setup, events[..k + 1])) != View(Replayed(r, setup, events[..k]))
  }

  lemma ReplayedOneMore(r: Sim, setup: Setup, events: seq<Event>, e: Event)
    ensures Replayed(r, setup, events + [e]) == Received(Replayed(r, setup, events), setup, "", ToMessage(e))
  {
    var ms := Messages(events + [e]);
    assert ms[..|ms| - 1] == Messages(events);
  }

  /** Emitting one event that turns `v` into `v'` on the receiver keeps the correspondence. */
  lemma ReproducesOneMore(r: Sim, setup: Setup, events: seq<Event>, v: Replica, e: Event, v': Replica)
    requires Reproduces(r, setup, events, v)
    requires View(Received(Replayed(r, setup, events), setup, "", ToMessage(e))) == v'
    requires Environmental(e) ==> v' != v
    ensures Reproduces(r, setup, events + [e], v')
  {
    var more := events + [e];
    ReplayedOneMore(r, setup, events, e);
    forall k | 0 <= k < |more| && Environmental(more[k])
      ensures View(Replayed(r, setup, more[..k + 1])) != View(Replayed(r, setup, more[..k]))
    {
      if k < |events| {
        assert more[..k + 1] == events[..k + 1] && more[..k] == events[..k];
      } else {
        assert more[..k + 1] == more && more[..k] == events;
      }
    }
  }

  // ---- Every phase that changes the environment -------------------------------------------

  lemma {:induction false} BlocksReproduced(r: Sim, setup: Setup, p: Player, v: Replica, events: seq<Event>, j: nat)
    requires Reproduces(r, setup, events, v) && Identified(v)
    ensures var hit := BlocksFrom(p, v.blocks, events, j);
            Reproduces(r, setup, hit.events, v.(blocks := hit.blocks)) && Identified(v.(blocks := hit.blocks))
    decreases |v.blocks| - j
  {
    if j < |v.blocks| {
      var b := v.blocks[j];
      if b.destroyed || !Collides(p, b.box) {
        BlocksReproduced(r, setup, p, v, events, j + 1);
      } else if IsHeadBump(p, b.box) {
        var (broken, event) := Destroy(b).value;
        var v' := v.(blocks := v.blocks[j := broken]);
        assert FindBlock(v.blocks, b.box.x, b.box.y) == j;
        assert v'.blocks[j] != v.blocks[j];
        ReproducesOneMore(r, setup, events, v, event, v');
        BlocksReproduced(r, setup, ResolveCollision(p, b.box), v', events + [event], j + 1);
      } else {
        BlocksReproduced(r, setup, ResolveCollision(p, b.box), v, events, j + 1);
      }
    }
  }

  lemma {:induction false} HitsReproduced(r: Sim, setup: Setup, ps: seq<Player>, v: Replica, events: seq<Event>, i: nat)
    requires Reproduces(r, setup, events, v) && Identified(v)
    ensures var done := HitBlocksFrom(ps, v.blocks, events, i);
            Reproduces(r, setup, done.events, v.(blocks := done.blocks)) && Identified(v.(blocks := done.blocks))
    decreases |ps| - i
  {
    if i < |ps| {
      BlocksReproduced(r, setup, ps[i], v, events, 0);
      var hit := BlocksFrom(ps[i], v.blocks, events, 0);
      HitsReproduced(r, setup, ps[i := hit.player], v.(blocks := hit.blocks), hit.events, i + 1);
    }
  }

  lemma {:induction false} CollectionReproduced(r: Sim, setup: Setup, ps: seq<Player>, v: Replica, events: seq<Event>,
      j: nat, now: real)
    requires Reproduces(r, setup, events, v) && Identified(v)
    ensures var done := CollectFrom(ps, v.powerUps, events, j, now);
            Reproduces(r, setup, done.events, v.(powerUps := done.powerUps)) &&
                Identified(v.(powerUps := done.powerUps))
    decreases |v.powerUps| - j
  {
    if j < |v.powerUps| {
      var pu := v.powerUps[j];
      var w := if pu.collected then -1 else WinnerFrom(ps, pu.box, 0, -1);
      if w < 0 {
        CollectionReproduced(r, setup, ps, v, events, j + 1, now);
      } else {
        var (taken, event) := Collect(pu, ps[w].id).value;
        var v' := v.(powerUps := v.powerUps[j := taken]);
        assert FindPowerUp(v.powerUps, pu.id) == j;
        assert v'.powerUps[j] != v.powerUps[j];
        ReproducesOneMore(r, setup, events, v, event, v');
        var ps' := if IsStar(pu) then ps[w := ps[w].(effectExpiresAt := Some(now + Config.STAR_EFFECT_S))] else ps;
        CollectionReproduced(r, setup, ps', v', events + [event], j + 1, now);
      }
    }
  }

  lemma GateReproduced(r: Sim, setup: Setup, v: Replica, events: seq<Event>, j: nat, shouldBeOpen: bool)
    requires Reproduces(r, setup, events, v) && Identified(v) && j < |v.gates|
    ensures var (g, change) := UpdateGate(v.gates[j], shouldBeOpen);
            var v' := v.(gates := v.gates[j := g]);
            Reproduces(r, setup, events + change, v') && Identified(v')
  {
    var (g, change) := UpdateGate(v.gates[j], shouldBeOpen);
    var v' := v.(gates := v.gates[j := g]);
    if change == [] {
      assert v'.gates == v.gates && events + change == events;
    } else {
      assert FindGate(v.gates, g.id) == j;
      assert v'.gates[j] != v.gates[j];
      ReproducesOneMore(r, setup, events, v, change[0], v');
      assert events + change == events + [change[0]];
    }
  }

  lemma {:induction false} GatesReproduced(r: Sim, setup: Setup, ps: seq<Player>, v: Replica, events: seq<Event>,
      j: nat, t: Tally)
    requires Reproduces(r, setup, events, v) && Identified(v)
    ensures var done := GatesFrom(ps, v.gates, events, j, t);
            Reproduces(r, setup, done.events, v.(gates := done.gates)) && Identified(v.(gates := done.gates))
    decreases |v.gates| - j
  {
    hide Reproduces, Identified, UpdateGate, RequirementsMet, PushOutAll;
    if j < |v.gates| {
      var met := RequirementsMet(v.gates[j], t);
      GateReproduced(r, setup, v, events, j, met);
      var (g, change) := UpdateGate(v.gates[j], met);
      var ps' := if g.state == Closed then PushOutAll(ps, g.box) else ps;
      GatesReproduced(r, setup, ps', v.(gates := v.gates[j := g]), events + change, j + 1, t);
    }
  }

  lemma DeathReproduced(r: Sim, setup: Setup, s: Sim, p: Player, cause: string, now: real)
    requires Reproduces(r, setup, s.events, View(s))
    ensures Reproduces(r, setup, QueueDeath(s, p, cause, now).events, View(s))
  {
    ReproducesOneMore(r, setup, s.events, View(s), PlayerDied(p.id, cause), View(s));
  }

  lemma {:induction false} ContactReproduced(r: Sim, setup: Setup, s: Sim, e: Enemy, ps: seq<Player>, k: nat, now: real)
    requires Reproduces(r, setup, s.events, View(s))
    ensures var t := ContactFrom(s, e, ps, k, now); View(t) == View(s) && Reproduces(r, setup, t.events, View(s))
    decreases |ps| - k
  {
    if k < |ps| {
      var p := ps[k].(effectExpiresAt := Unexpired(ps[k].effectExpiresAt, now));
      if !Collides(ps[k], e.box) {
        ContactReproduced(r, setup, s, e, ps, k + 1, now);
      } else if p.effectExpiresAt.Some? || IsStomp(p, e.box) {
      } else {
        DeathReproduced(r, setup, s, p, e.id, now);
        ContactReproduced(r, setup, QueueDeath(s, p, e.id, now), e, ps, k + 1, now);
      }
    }
  }

  lemma {:induction false} ContactsReproduced(r: Sim, setup: Setup, s: Sim, es: seq<Enemy>, j: nat, now: real)
    requires Reproduces(r, setup, s.events, View(s))
    ensures var t := EnemyContactsFrom(s, es, j, now); View(t) == View(s) && Reproduces(r, setup, t.events, View(s))
    decreases |es| - j
  {
    if j < |es| {
      ContactReproduced(r, setup, s, es[j], s.world.players, 0, now);
      ContactsReproduced(r, setup, ContactFrom(s, es[j], s.world.players, 0, now), es, j + 1, now);
    }
  }

  lemma {:induction false} FallsReproduced(r: Sim, setup: Setup, s: Sim, ps: seq<Player>, k: nat, height: real,
      now: real)
    requires Reproduces(r, setup, s.events, View(s))
    ensures var t := VoidDeathsFrom(s, ps, k, height, now);
      View(t) == View(s) && Reproduces(r, setup, t.events, View(s))
    decreases |ps| - k
  {
    if k < |ps| {
      if ps[k].y + ps[k].height <= height {
        FallsReproduced(r, setup, s, ps, k + 1, height, now);
      } else {
        DeathReproduced(r, setup, s, ps[k], Config.VOID_DEATH_CAUSE, now);
        FallsReproduced(r, setup, QueueDeath(s, ps[k], Config.VOID_DEATH_CAUSE, now), ps, k + 1, height, now);
      }
    }
  }

  lemma {:induction false} RespawnsKeepEnvironment(s: Sim, setup: Setup, ts: seq<Timer>, k: nat, now: real)
    ensures var t := RespawnsFrom(s, setup, ts, k, now); View(t) == View(s) && t.events == s.events
    decreases |ts| - k
  {
    if k < |ts| {
      RespawnsKeepEnvironment(if now >= ts[k].due then Respawn(s, setup, ts[k].id) else s, setup, ts, k + 1, now);
    }
  }

  // ---- A tick, a run ----------------------------------------------------------------------

  ghost predicate InStep(r: Sim, setup: Setup, s: Sim) {
    Reproduces(r, setup, s.events, View(s)) && Identified(View(s))
  }

  lemma UntilDeathsReproduced(r: Sim, setup: Setup, s: Sim, authoritative: bool, call: TickCall)
    requires InStep(r, setup, s)
    ensures InStep(r, setup, TickUntilDeaths(s, setup, authoritative, call.dt, call.inputs, call.commands, call.clock))
  {
    var s1 := MovePhase(s, setup, call.inputs, call.dt, call.clock.expiry);
    HitsReproduced(r, setup, s1.world.players, View(s1), s1.events, 0);
    var s2 := BlocksPhase(s1);
    CollectionReproduced(r, setup, s2.world.players, View(s2), s2.events, 0, call.clock.collect);
    var s3 := PowerUpsPhase(s2, authoritative, call.clock.collect);
    var s4 := EnemiesPhase(s3, call.commands, call.dt);
    ContactsReproduced(r, setup, s4, s4.world.enemies, 0, call.clock.contact);
    var s5 := ContactPhase(s4, authoritative, call.clock.contact);
    FallsReproduced(r, setup, s5, s5.world.players, 0, setup.height, call.clock.fall);
  }

  lemma TickReproduced(r: Sim, setup: Setup, s: Sim, authoritative: bool, call: TickCall)
    requires InStep(r, setup, s)
    ensures InStep(r, setup, TickBy(s, setup, authoritative, call))
  {
    if !s.world.victory {
      UntilDeathsReproduced(r, setup, s, authoritative, call);
      var s1 := TallyPhase(TickUntilDeaths(s, setup, authoritative, call.dt, call.inputs, call.commands, call.clock));
      GatesReproduced(r, setup, s1.world.players, View(s1), s1.events, 0, s1.world.tally);
      var s2 := VictoryPhase(ClampPhase(GatesPhase(s1), setup), authoritative);
      RespawnsKeepEnvironment(s2, setup, s2.world.timers, 0, call.clock.respawn);
    }
  }

  lemma ResetReproduced(r: Sim, setup: Setup, s: Sim)
    requires InStep(r, setup, s)
    requires Identified(Replica(setup.level.blocks, setup.level.powerUps, setup.level.gates))
    ensures InStep(r, setup, ResetForNewRun(s, setup))
  {
    ReproducesOneMore(r, setup, s.events, View(s), LevelReset, View(ResetForNewRun(s, setup)));
  }

  /** What the host does to its world between two broadcasts. */
  datatype HostStep = HostTick(call: TickCall) | HostReset

  function HostRun(s: Sim, setup: Setup, steps: seq<HostStep>): Sim {
    if steps == [] then s
    else
      var before := HostRun(s, setup, steps[..|steps| - 1]);
      match steps[|steps| - 1]
      case HostTick(call) => TickBy(before, setup, true, call)
      case HostReset => ResetForNewRun(before, setup)
  }

  lemma {:induction false} HostRunReproduced(r: Sim, setup: Setup, s: Sim, steps: seq<HostStep>)
    requires InStep(r, setup, s)
    requires Identified(Replica(setup.level.blocks, setup.level.powerUps, setup.level.gates))
    ensures InStep(r, setup, HostRun(s, setup, steps))
  {
    if steps != [] {
      HostRunReproduced(r, setup, s, steps[..|steps| - 1]);
      var before := HostRun(s, setup, steps[..|steps| - 1]);
      match steps[|steps| - 1]
      case HostTick(call) => TickReproduced(r, setup, before, true, call);
      case HostReset => ResetReproduced(r, setup, before);
    }
  }

  /** A second copy of the environment that receives the messages of any authoritative run, in
      order, ends up equal to the host's, and every environmental message changed it. */
  lemma EventsReproduceTheEnvironment(replica: Sim, host: Sim, setup: Setup, steps: seq<HostStep>)
    requires View(replica) == View(host) && host.events == []
    requires Identified(View(host))
    requires Identified(Replica(setup.level.blocks, setup.level.powerUps, setup.level.gates))
    ensures var done := HostRun(host, setup, steps);
            && View(Replayed(replica, setup, done.events)) == View(done)
            && Reproduces(replica, setup, done.events, View(done))
    ensures CharactersAfter(replica.world.players,
        Replayed(replica, setup, HostRun(host, setup, steps).events).world.players,
                            setup, HostRun(host, setup, steps).events)
  {
    assert Messages(host.events) == [];
    HostRunReproduced(replica, setup, host, steps);
    EventsLeaveTheLiving(replica, setup, HostRun(host, setup, steps).events);
  }

  predicate HasDied(events: seq<Event>, id: string) {
    exists i :: 0 <= i < |events| && events[i].PlayerDied? && events[i].playerId == id
  }

  /** Exactly the characters of those that have not died, at their spawn points after a reset. */
  ghost predicate CharactersAfter(ps: seq<Player>, qs: seq<Player>, setup: Setup, events: seq<Event>) {
    forall q :: q in qs <==>
      exists p :: p in ps && !HasDied(events, p.id) && q == if LevelReset in events then Restarted(p, setup) else p
  }

  /** The messages of any events leave a replica exactly the characters of those that did not die. */
  lemma EventsLeaveTheLiving(replica: Sim, setup: Setup, events: seq<Event>)
    ensures CharactersAfter(replica.world.players, Replayed(replica, setup, events).world.players, setup, events)
  {
    var ms := Messages(events);
    PlayersAfterQueue(replica, setup, "", ms);
    forall id ensures TakenOut(ms, id, "") <==> HasDied(events, id) {
      if i :| 0 <= i < |ms| && TakesOut(ms[i], id, "") { assert events[i].PlayerDied?; }
      if i :| 0 <= i < |events| && events[i].PlayerDied? && events[i].playerId == id { assert TakesOut(ms[i], id, ""); }
    }
    assert HasReset(ms) <==> LevelReset in events by {
      if i :| 0 <= i < |ms| && ms[i].LevelResetMessage? { assert events[i] == LevelReset; }
      if i :| 0 <= i < |events| && events[i] == LevelReset { assert ms[i].LevelResetMessage?; }
    }
  }
}
