/** What a run of ticks can never undo: broken blocks, collected power-ups, defeated enemies,
    opened gates and victory (domain/game_engine.py, domain/entity.py). */
module Progress {
  import opened Prelude
  import opened Entities
  import opened Simulation

  predicate BlocksAdvance(before: seq<Block>, after: seq<Block>) {
    && |before| == |after|
    && forall i :: 0 <= i < |before| ==>
         after[i].box == before[i].box && (before[i].destroyed ==> after[i].destroyed)
  }

  /** A collected power-up keeps its owner. */
  predicate PowerUpsAdvance(before: seq<PowerUp>, after: seq<PowerUp>) {
    && |before| == |after|
    && forall i :: 0 <= i < |before| ==>
         && after[i].id == before[i].id && after[i].box == before[i].box
         && (before[i].collected ==> after[i] == before[i])
  }

  ghost function EnemyIds(es: seq<Enemy>): set<string> { set e | e in es :: e.id }

  ghost predicate EnemiesShrink(before: seq<Enemy>, after: seq<Enemy>) {
    |after| <= |before| && EnemyIds(after) <= EnemyIds(before)
  }

  /** Only the state of a gate may change. */
  predicate GatesFixed(before: seq<Gate>, after: seq<Gate>) {
    && |before| == |after|
    && forall i :: 0 <= i < |before| ==> after[i].(state := before[i].state) == before[i]
  }

  predicate NotBelow(t: Tally, u: Tally) { t.coins <= u.coins && t.blocks <= u.blocks && t.enemies <= u.enemies }

  ghost predicate Advances(w: World, v: World) {
    && BlocksAdvance(w.blocks, v.blocks)
    && PowerUpsAdvance(w.powerUps, v.powerUps)
    && EnemiesShrink(w.enemies, v.enemies)
    && GatesFixed(w.gates, v.gates)
    && v.initialEnemies == w.initialEnemies
    && (w.victory ==> v.victory && v.victor == w.victor)
  }

  /** The displayed counters never exceed what the environment shows. */
  predicate TallyBehind(w: World) { NotBelow(w.tally, CurrentTally(w)) }

  predicate GatesMatch(w: World) {
    forall i :: 0 <= i < |w.gates| ==> (w.gates[i].state == Open <==> RequirementsMet(w.gates[i], w.tally))
  }

  predicate OpenStaysOpen(before: seq<Gate>, after: seq<Gate>) {
    |before| == |after| && forall i :: 0 <= i < |before| ==> before[i].state == Open ==> after[i].state == Open
  }

  // ---- Counters follow the environment ----------------------------------------------------

  lemma {:induction false} DestroyedCountGrows(before: seq<Block>, after: seq<Block>)
    requires BlocksAdvance(before, after)
    ensures DestroyedCount(before) <= DestroyedCount(after)
  {
    if before != [] { DestroyedCountGrows(before[..|before| - 1], after[..|after| - 1]); }
  }

  lemma {:induction false} CoinCountGrows(before: seq<PowerUp>, after: seq<PowerUp>)
    requires PowerUpsAdvance(before, after)
    ensures CoinCount(before) <= CoinCount(after)
  {
    if before != [] { CoinCountGrows(before[..|before| - 1], after[..|after| - 1]); }
  }

  lemma TallyGrows(w: World, v: World)
    requires Advances(w, v)
    ensures NotBelow(CurrentTally(w), CurrentTally(v))
  {
    DestroyedCountGrows(w.blocks, v.blocks);
    CoinCountGrows(w.powerUps, v.powerUps);
  }

  // ---- Phases -----------------------------------------------------------------------------

  lemma {:induction false} BlocksFromAdvances(p: Player, blocks: seq<Block>, events: seq<Event>, j: nat)
    ensures BlocksAdvance(blocks, BlocksFrom(p, blocks, events, j).blocks)
    decreases |blocks| - j
  {
    if j < |blocks| {
      var b := blocks[j];
      if b.destroyed || !Collides(p, b.box) {
        BlocksFromAdvances(p, blocks, events, j + 1);
      } else if IsHeadBump(p, b.box) {
        var (broken, event) := Destroy(b).value;
        BlocksFromAdvances(ResolveCollision(p, b.box), blocks[j := broken], events + [event], j + 1);
      } else {
        BlocksFromAdvances(ResolveCollision(p, b.box), blocks, events, j + 1);
      }
    }
  }

  lemma {:induction false} HitBlocksAdvance(ps: seq<Player>, blocks: seq<Block>, events: seq<Event>, i: nat)
    ensures BlocksAdvance(blocks, HitBlocksFrom(ps, blocks, events, i).blocks)
    decreases |ps| - i
  {
    if i < |ps| {
      BlocksFromAdvances(ps[i], blocks, events, 0);
      var hit := BlocksFrom(ps[i], blocks, events, 0);
      HitBlocksAdvance(ps[i := hit.player], hit.blocks, hit.events, i + 1);
    }
  }

  lemma {:induction false} CollectAdvances(ps: seq<Player>, pus: seq<PowerUp>, events: seq<Event>, j: nat, now: real)
    ensures PowerUpsAdvance(pus, CollectFrom(ps, pus, events, j, now).powerUps)
    decreases |pus| - j
  {
    if j < |pus| {
      var w := if pus[j].collected then -1 else WinnerFrom(ps, pus[j].box, 0, -1);
      if w < 0 {
        CollectAdvances(ps, pus, events, j + 1, now);
      } else {
        var (taken, event) := Collect(pus[j], ps[w].id).value;
        var ps' := if IsStar(pus[j])
                   then ps[w := ps[w].(effectExpiresAt := Some(now + Config.STAR_EFFECT_S))] else ps;
        CollectAdvances(ps', pus[j := taken], events + [event], j + 1, now);
      }
    }
  }

  /** Contacts, falls and respawns touch players, timers and the list of enemies only. */
  ghost predicate SameScenery(w: World, v: World) {
    && v == w.(players := v.players, timers := v.timers, enemies := v.enemies)
    && EnemiesShrink(w.enemies, v.enemies)
  }

  lemma {:induction false} RemovalShrinks(es: seq<Enemy>, id: string)
    ensures EnemiesShrink(es, RemoveEnemy(es, id))
  {
    if es != [] {
      RemovalShrinks(es[1..], id);
      forall e | e in RemoveEnemy(es, id) ensures e.id in EnemyIds(es) {
        if e != es[0] {
          assert e.id in EnemyIds(RemoveEnemy(es[1..], id));
          var f :| f in es[1..] && f.id == e.id;
          assert f in es;
        }
      }
    }
  }

  lemma {:induction false} ContactKeepsScenery(s: Sim, e: Enemy, ps: seq<Player>, k: nat, now: real)
    ensures SameScenery(s.world, ContactFrom(s, e, ps, k, now).world)
    decreases |ps| - k
  {
    if k < |ps| {
      var p := ps[k].(effectExpiresAt := Unexpired(ps[k].effectExpiresAt, now));
      if !Collides(ps[k], e.box) {
        ContactKeepsScenery(s, e, ps, k + 1, now);
      } else if p.effectExpiresAt.Some? || IsStomp(p, e.box) {
        RemovalShrinks(s.world.enemies, e.id);
      } else {
        ContactKeepsScenery(QueueDeath(s, p, e.id, now), e, ps, k + 1, now);
      }
    }
  }

  lemma {:induction false} ContactsKeepScenery(s: Sim, es: seq<Enemy>, j: nat, now: real)
    ensures SameScenery(s.world, EnemyContactsFrom(s, es, j, now).world)
    decreases |es| - j
  {
    if j < |es| {
      var t := ContactFrom(s, es[j], s.world.players, 0, now);
      ContactKeepsScenery(s, es[j], s.world.players, 0, now);
      ContactsKeepScenery(t, es, j + 1, now);
    }
  }

  lemma {:induction false} FallsKeepScenery(s: Sim, ps: seq<Player>, k: nat, height: real, now: real)
    ensures SameScenery(s.world, VoidDeathsFrom(s, ps, k, height, now).world)
    ensures VoidDeathsFrom(s, ps, k, height, now).world.enemies == s.world.enemies
    decreases |ps| - k
  {
    if k < |ps| {
      var t := if ps[k].y + ps[k].height <= height then s else QueueDeath(s, ps[k], Config.VOID_DEATH_CAUSE, now);
      FallsKeepScenery(t, ps, k + 1, height, now);
    }
  }

  lemma {:induction false} RespawnsKeepScenery(s: Sim, setup: Setup, ts: seq<Timer>, k: nat, now: real)
    ensures SameScenery(s.world, RespawnsFrom(s, setup, ts, k, now).world)
    ensures RespawnsFrom(s, setup, ts, k, now).world.enemies == s.world.enemies
    decreases |ts| - k
  {
    if k < |ts| {
      var t := if now >= ts[k].due then Respawn(s, setup, ts[k].id) else s;
      RespawnsKeepScenery(t, setup, ts, k + 1, now);
    }
  }

  lemma {:induction false} GatesFromMatches(ps: seq<Player>, gates: seq<Gate>, events: seq<Event>, j: nat, t: Tally)
    ensures GatesFixed(gates, GatesFrom(ps, gates, events, j, t).gates)
    ensures forall i :: 0 <= i < |gates| ==>
              var after := GatesFrom(ps, gates, events, j, t).gates[i];
              if i < j then after == gates[i] else (after.state == Open <==> RequirementsMet(gates[i], t))
    decreases |gates| - j
  {
    if j < |gates| {
      var (g, change) := UpdateGate(gates[j], RequirementsMet(gates[j], t));
      var ps' := if g.state == Closed then PushOutAll(ps, g.box) else ps;
      GatesFromMatches(ps', gates[j := g], events + change, j + 1, t);
    }
  }

  // ---- A tick -----------------------------------------------------------------------------

  lemma SameEnemyIds(before: seq<Enemy>, after: seq<Enemy>)
    requires |after| == |before| && forall i :: 0 <= i < |before| ==> after[i].id == before[i].id
    ensures EnemiesShrink(before, after)
  {
    forall e | e in after ensures e.id in EnemyIds(before) {
      var i :| 0 <= i < |after| && after[i] == e;
      assert before[i] in before;
    }
  }

  lemma UntilDeathsAdvances(s: Sim, setup: Setup, authoritative: bool, dt: real,
                            inputs: map<string, Input>, commands: map<string, Command>, clock: Clock)
    ensures Advances(s.world, TickUntilDeaths(s, setup, authoritative, dt, inputs, commands, clock).world)
    ensures TickUntilDeaths(s, setup, authoritative, dt, inputs, commands, clock).world.gates == s.world.gates
    ensures TickUntilDeaths(s, setup, authoritative, dt, inputs, commands, clock).world.tally == s.world.tally
    ensures TickUntilDeaths(s, setup, authoritative, dt, inputs, commands, clock).world.victory == s.world.victory
  {
    var s1 := MovePhase(s, setup, inputs, dt, clock.expiry);
    HitBlocksAdvance(s1.world.players, s1.world.blocks, s1.events, 0);
    var s2 := BlocksPhase(s1);
    CollectAdvances(s2.world.players, s2.world.powerUps, s2.events, 0, clock.collect);
    var s3 := PowerUpsPhase(s2, authoritative, clock.collect);
    var s4 := EnemiesPhase(s3, commands, dt);
    SameEnemyIds(s3.world.enemies, s4.world.enemies);
    var s5 := ContactPhase(s4, authoritative, clock.contact);
    ContactsKeepScenery(s4, s4.world.enemies, 0, clock.contact);
    FallsKeepScenery(s5, s5.world.players, 0, setup.height, clock.fall);
  }

  lemma AfterDeathsSettles(s: Sim, setup: Setup, authoritative: bool, now: real)
    requires !s.world.victory
    ensures var t := TickAfterDeaths(s, setup, authoritative, now);
            Advances(s.world, t.world) && t.world.blocks == s.world.blocks && t.world.powerUps == s.world.powerUps
            && t.world.enemies == s.world.enemies && t.world.tally == CurrentTally(s.world) && GatesMatch(t.world)
  {
    var s1 := TallyPhase(s);
    GatesFromMatches(s1.world.players, s1.world.gates, s1.events, 0, s1.world.tally);
    var s3 := VictoryPhase(ClampPhase(GatesPhase(s1), setup), authoritative);
    RespawnsKeepScenery(s3, setup, s3.world.timers, 0, now);
  }

  lemma OpenGatesStay(w: World, v: World)
    requires GatesFixed(w.gates, v.gates) && GatesMatch(w) && GatesMatch(v) && NotBelow(w.tally, v.tally)
    ensures OpenStaysOpen(w.gates, v.gates)
  {
    forall i | 0 <= i < |w.gates| && w.gates[i].state == Open ensures v.gates[i].state == Open {
      assert v.gates[i].(state := w.gates[i].state) == w.gates[i];
    }
  }

  /** Nothing achieved is lost in a tick; a live tick leaves the counters equal to what the
      environment shows and each gate open exactly when its requirements are met. */
  lemma TickAdvances(s: Sim, setup: Setup, authoritative: bool, call: TickCall)
    requires TallyBehind(s.world)
    ensures var t := TickBy(s, setup, authoritative, call);
            && Advances(s.world, t.world) && TallyBehind(t.world) && NotBelow(s.world.tally, t.world.tally)
            && (!s.world.victory ==> t.world.tally == CurrentTally(t.world) && GatesMatch(t.world))
            && (s.world.victory ==> t == s.(world := s.world.(number := s.world.number + 1)))
            && (GatesMatch(s.world) ==> GatesMatch(t.world) && OpenStaysOpen(s.world.gates, t.world.gates))
  {
    if !s.world.victory {
      var mid := TickUntilDeaths(s, setup, authoritative, call.dt, call.inputs, call.commands, call.clock);
      UntilDeathsAdvances(s, setup, authoritative, call.dt, call.inputs, call.commands, call.clock);
      AfterDeathsSettles(mid, setup, authoritative, call.clock.respawn);
      TallyGrows(s.world, mid.world);
      var t := TickBy(s, setup, authoritative, call);
      if GatesMatch(s.world) { OpenGatesStay(s.world, t.world); }
    }
  }

  // ---- What the counters count --------------------------------------------------------------

  ghost function CollectedCoins(pus: seq<PowerUp>): set<int> {
    set k | 0 <= k < |pus| && pus[k].collected && "coin-" <= pus[k].id
  }

  ghost function BrokenBlocks(blocks: seq<Block>): set<int> { set k | 0 <= k < |blocks| && blocks[k].destroyed }

  lemma {:induction false} CoinsAreCounted(pus: seq<PowerUp>)
    ensures CoinCount(pus) == |CollectedCoins(pus)|
  {
    if pus != [] {
      var n := |pus| - 1;
      CoinsAreCounted(pus[..n]);
      var before := CollectedCoins(pus[..n]);
      assert CollectedCoins(pus) == if pus[n].collected && "coin-" <= pus[n].id then before + {n} else before;
    }
  }

  lemma {:induction false} BrokenBlocksAreCounted(blocks: seq<Block>)
    ensures DestroyedCount(blocks) == |BrokenBlocks(blocks)|
  {
    if blocks != [] {
      var n := |blocks| - 1;
      BrokenBlocksAreCounted(blocks[..n]);
      var before := BrokenBlocks(blocks[..n]);
      assert BrokenBlocks(blocks) == if blocks[n].destroyed then before + {n} else before;
    }
  }

  /** As many coins collected, blocks broken and enemies defeated as the gate asks for. */
  ghost predicate Earned(g: Gate, w: World) {
    && |CollectedCoins(w.powerUps)| >= g.coinsRequired
    && |BrokenBlocks(w.blocks)| >= g.blocksRequired
    && (g.enemiesRequired <= 0 || w.initialEnemies - |w.enemies| >= g.enemiesRequired)
  }

  /** After a live tick a gate is open exactly when the world shows what it asks for. */
  lemma GatesOpenExactly(s: Sim, setup: Setup, authoritative: bool, call: TickCall)
    requires !s.world.victory
    ensures var w := TickBy(s, setup, authoritative, call).world;
      && w.tally.coins == |CollectedCoins(w.powerUps)| && w.tally.blocks == |BrokenBlocks(w.blocks)|
      && forall i :: 0 <= i < |w.gates| ==> (w.gates[i].state == Open <==> Earned(w.gates[i], w))
  {
    UntilDeathsAdvances(s, setup, authoritative, call.dt, call.inputs, call.commands, call.clock);
    var mid := TickUntilDeaths(s, setup, authoritative, call.dt, call.inputs, call.commands, call.clock);
    AfterDeathsSettles(mid, setup, authoritative, call.clock.respawn);
    var w := TickBy(s, setup, authoritative, call).world;
    CoinsAreCounted(w.powerUps);
    BrokenBlocksAreCounted(w.blocks);
  }

  // ---- A run ------------------------------------------------------------------------------

  lemma AdvancingComposes(u: World, v: World, w: World)
    requires Advances(u, v) && Advances(v, w)
    ensures Advances(u, w)
  {
    forall i | 0 <= i < |u.gates| ensures w.gates[i].(state := u.gates[i].state) == u.gates[i] {
      assert v.gates[i].(state := u.gates[i].state) == u.gates[i];
      assert w.gates[i].(state := v.gates[i].state) == v.gates[i];
    }
  }

  /** Over any run: achievements and counters only grow, gates match their requirements after the
      first live tick, and a gate that matched and was open is still open. */
  lemma {:induction false} RunAdvances(s: Sim, setup: Setup, authoritative: bool, calls: seq<TickCall>)
    requires TallyBehind(s.world)
    ensures var t := Run(s, setup, authoritative, calls);
            && Advances(s.world, t.world) && TallyBehind(t.world) && NotBelow(s.world.tally, t.world.tally)
            && (calls != [] && !s.world.victory ==> t.world.tally == CurrentTally(t.world) && GatesMatch(t.world))
            && (GatesMatch(s.world) ==> GatesMatch(t.world) && OpenStaysOpen(s.world.gates, t.world.gates))
  {
    if calls != [] {
      var before := calls[..|calls| - 1];
      RunAdvances(s, setup, authoritative, before);
      var mid := Run(s, setup, authoritative, before);
      TickAdvances(mid, setup, authoritative, calls[|calls| - 1]);
      AdvancingComposes(s.world, mid.world, Run(s, setup, authoritative, calls).world);
    }
  }

  /** Once won, a run only counts ticks. */
  lemma {:induction false} VictoryFreezes(s: Sim, setup: Setup, authoritative: bool, calls: seq<TickCall>)
    requires s.world.victory
    ensures Run(s, setup, authoritative, calls)
         == s.(world := s.world.(number := s.world.number + |calls|))
  {
    if calls != [] { VictoryFreezes(s, setup, authoritative, calls[..|calls| - 1]); }
  }

  /** What happens after a point of a run is a run of its own: the previous results hold between
      any two points. */
  lemma {:induction false} RunSplits(s: Sim, setup: Setup, authoritative: bool, first: seq<TickCall>,
      second: seq<TickCall>)
    ensures Run(s, setup, authoritative, first + second)
         == Run(Run(s, setup, authoritative, first), setup, authoritative, second)
    decreases |second|
  {
    if second == [] {
      assert first + second == first;
    } else {
      var front := second[..|second| - 1];
      assert (first + second)[..|first + second| - 1] == first + front;
      RunSplits(s, setup, authoritative, first, front);
    }
  }

  // ---- Victory ----------------------------------------------------------------------------

  lemma {:induction false} ToucherTouches(ps: seq<Player>, b: Box, k: nat)
    ensures var i := ToucherFrom(ps, b, k);
            (i >= 0 ==> k <= i && Collides(ps[i], b))
            && (i < 0 ==> forall m :: k <= m < |ps| ==> !Collides(ps[m], b))
    decreases |ps| - k
  {
    if k < |ps| && !Collides(ps[k], b) { ToucherTouches(ps, b, k + 1); }
  }

  predicate Touched(w: World, id: string, j: int) {
    && 0 <= j < |w.gates| && w.gates[j].state == Open && w.gates[j].isFinal
    && exists i :: 0 <= i < |w.players| && w.players[i].id == id && Collides(w.players[i], w.gates[j].box)
  }

  lemma {:induction false} VictorTouches(w: World, j: nat)
    ensures var v := VictorFrom(w.players, w.gates, j);
            && (v.Some? ==> exists m :: j <= m && Touched(w, v.value, m))
            && (v.None? ==> forall m, id :: j <= m ==> !Touched(w, id, m))
    decreases |w.gates| - j
  {
    if j < |w.gates| {
      ToucherTouches(w.players, w.gates[j].box, 0);
      var i := ToucherFrom(w.players, w.gates[j].box, 0);
      if w.gates[j].state == Open && w.gates[j].isFinal && i >= 0 {
        assert Touched(w, w.players[i].id, j);
      } else {
        VictorTouches(w, j + 1);
      }
    }
  }

  /** The authoritative engine declares victory exactly when somebody touches an open final gate,
      and names a player who does. */
  lemma VictoryExactly(s: Sim)
    requires !s.world.victory
    ensures VictoryPhase(s, true).world.victory <==> exists j, id :: Touched(s.world, id, j)
    ensures VictoryPhase(s, true).world.victory ==>
              VictoryPhase(s, true).world.victor.Some?
              && exists j :: Touched(s.world, VictoryPhase(s, true).world.victor.value, j)
  {
    VictorTouches(s.world, 0);
  }
}
