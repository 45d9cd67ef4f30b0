/** Two snapshots in a row (application/reconciliation/prediction_engine.py:85-140): when handling the
    older one first makes no difference. What it can leave behind is a changed environment, because
    the local blocks and gates survive the rewind. */
module Absorption {
  import opened Prelude
  import opened Config
  import opened Entities
  import opened Simulation
  import opened Prediction
  import opened Progress

  // ---- When a client's replay changes the environment ---------------------------------------

  /** The player bumps an unbroken block from below, going through the blocks from index j on. */
  predicate BumpsFrom(p: Player, blocks: seq<Block>, j: nat)
    decreases |blocks| - j
  {
    && j < |blocks|
    && var b := blocks[j];
       if b.destroyed || !Collides(p, b.box) then BumpsFrom(p, blocks, j + 1)
       else IsHeadBump(p, b.box) || BumpsFrom(ResolveCollision(p, b.box), blocks, j + 1)
  }

  /** Some player bumps a block in this tick. */
  predicate TickBumps(s: Sim, setup: Setup, call: TickCall) {
    var ps := MovePlayers(s.world.players, setup, call.inputs, call.dt, call.clock.expiry);
    exists i :: 0 <= i < |ps| && BumpsFrom(ps[i], s.world.blocks, 0)
  }

  /** Some tick of the replay bumps a block. */
  predicate ReplayBumps(s: Sim, setup: Setup, calls: seq<TickCall>) {
    && calls != []
    && var n := |calls| - 1;
       ReplayBumps(s, setup, calls[..n]) || TickBumps(Run(s, setup, false, calls[..n]), setup, calls[n])
  }

  /** Each gate already has the state the environment asks for. */
  predicate GatesAgree(w: World) {
    forall i :: 0 <= i < |w.gates| ==> (w.gates[i].state == Open <==> RequirementsMet(w.gates[i], CurrentTally(w)))
  }

  lemma {:induction false} BlocksChangeExactly(p: Player, blocks: seq<Block>, events: seq<Event>, j: nat)
    ensures BlocksFrom(p, blocks, events, j).blocks == blocks <==> !BumpsFrom(p, blocks, j)
    decreases |blocks| - j
  {
    if j < |blocks| {
      var b := blocks[j];
      if b.destroyed || !Collides(p, b.box) {
        BlocksChangeExactly(p, blocks, events, j + 1);
      } else if IsHeadBump(p, b.box) {
        var (broken, event) := Destroy(b).value;
        BlocksFromAdvances(ResolveCollision(p, b.box), blocks[j := broken], events + [event], j + 1);
        assert BlocksFrom(p, blocks, events, j).blocks[j].destroyed;
      } else {
        BlocksChangeExactly(ResolveCollision(p, b.box), blocks, events, j + 1);
      }
    }
  }

  /** A block once broken is not unbroken by what follows. */
  lemma BrokenStaysBroken(first: seq<Block>, mid: seq<Block>, last: seq<Block>)
    requires BlocksAdvance(first, mid) && BlocksAdvance(mid, last)
    ensures first == last ==> first == mid
  {
    if first == last {
      forall k | 0 <= k < |first| ensures first[k] == mid[k] {}
    }
  }

  lemma {:induction false} HitsChangeExactly(ps: seq<Player>, blocks: seq<Block>, events: seq<Event>, i: nat)
    ensures HitBlocksFrom(ps, blocks, events, i).blocks == blocks <==>
        !exists k :: i <= k < |ps| && BumpsFrom(ps[k], blocks, 0)
    decreases |ps| - i
  {
    if i < |ps| {
      BlocksChangeExactly(ps[i], blocks, events, 0);
      var hit := BlocksFrom(ps[i], blocks, events, 0);
      var rest := ps[i := hit.player];
      HitsChangeExactly(rest, hit.blocks, hit.events, i + 1);
      BlocksFromAdvances(ps[i], blocks, events, 0);
      HitBlocksAdvance(rest, hit.blocks, hit.events, i + 1);
      BrokenStaysBroken(blocks, hit.blocks, HitBlocksFrom(ps, blocks, events, i).blocks);
      assert forall k :: i + 1 <= k < |ps| ==> rest[k] == ps[k];
    }
  }

  /** What one live tick of a client does to the environment. */
  lemma ClientTickChanges(s: Sim, setup: Setup, call: TickCall)
    requires !s.world.victory
    ensures var t := TickBy(s, setup, false, call);
      && !t.world.victory && t.world.powerUps == s.world.powerUps && BlocksAdvance(s.world.blocks, t.world.blocks)
      && (t.world.blocks == s.world.blocks <==> !TickBumps(s, setup, call))
      && GatesFixed(s.world.gates, t.world.gates)
      && |t.world.enemies| == |s.world.enemies| && t.world.initialEnemies == s.world.initialEnemies
      && (!TickBumps(s, setup, call) ==> CurrentTally(t.world) == CurrentTally(s.world) && GatesAgree(t.world))
  {
    var s1 := MovePhase(s, setup, call.inputs, call.dt, call.clock.expiry);
    HitsChangeExactly(s1.world.players, s.world.blocks, s.events, 0);
    HitBlocksAdvance(s1.world.players, s.world.blocks, s.events, 0);
    var s2 := EnemiesPhase(BlocksPhase(s1), call.commands, call.dt);
    var s3 := TallyPhase(s2);
    GatesFromMatches(s3.world.players, s3.world.gates, s3.events, 0, s3.world.tally);
    var t := TickBy(s, setup, false, call);
    assert t.world.gates == GatesPhase(s3).world.gates;
    if !TickBumps(s, setup, call) {
      assert CurrentTally(t.world) == CurrentTally(s.world) == s3.world.tally;
      forall i | 0 <= i < |t.world.gates|
        ensures t.world.gates[i].state == Open <==> RequirementsMet(t.world.gates[i], CurrentTally(t.world))
      {
        assert t.world.gates[i].(state := s.world.gates[i].state) == s.world.gates[i];
      }
    }
  }

  /** Over a whole replay: the blocks change exactly when some tick bumps one, and without a bump the
      gates end as the environment asks. */
  lemma {:induction false} ReplayChanges(s: Sim, setup: Setup, calls: seq<TickCall>)
    requires !s.world.victory
    ensures var t := Run(s, setup, false, calls);
      && !t.world.victory && t.world.powerUps == s.world.powerUps && BlocksAdvance(s.world.blocks, t.world.blocks)
      && (t.world.blocks == s.world.blocks <==> !ReplayBumps(s, setup, calls))
      && GatesFixed(s.world.gates, t.world.gates)
      && (!ReplayBumps(s, setup, calls) ==>
            CurrentTally(t.world) == CurrentTally(s.world) && (calls != [] ==> GatesAgree(t.world)))
  {
    if calls != [] {
      var n := |calls| - 1;
      ReplayChanges(s, setup, calls[..n]);
      var mid := Run(s, setup, false, calls[..n]);
      ClientTickChanges(mid, setup, calls[n]);
      var t := Run(s, setup, false, calls);
      BrokenStaysBroken(s.world.blocks, mid.world.blocks, t.world.blocks);
      forall i | 0 <= i < |s.world.gates|
        ensures t.world.gates[i].(state := s.world.gates[i].state) == s.world.gates[i]
      {
        assert mid.world.gates[i].(state := s.world.gates[i].state) == s.world.gates[i];
        assert t.world.gates[i].(state := mid.world.gates[i].state) == mid.world.gates[i];
      }
    }
  }

  lemma AgreeingGatesAreEqual(w: World, v: World)
    requires GatesFixed(w.gates, v.gates) && CurrentTally(w) == CurrentTally(v) && GatesAgree(v)
    ensures w.gates == v.gates <==> GatesAgree(w)
  {
    forall i | 0 <= i < |w.gates|
      ensures RequirementsMet(v.gates[i], CurrentTally(v)) == RequirementsMet(w.gates[i], CurrentTally(w))
      ensures v.gates[i].state == w.gates[i].state ==> v.gates[i] == w.gates[i]
    {
      assert v.gates[i].(state := w.gates[i].state) == w.gates[i];
    }
    if GatesAgree(w) {
      forall i | 0 <= i < |w.gates| ensures w.gates[i] == v.gates[i] {
        assert w.gates[i].state == v.gates[i].state;
      }
    }
  }

  /** Replaying these calls from this state leaves blocks and gates as they are. */
  predicate LeavesEnvironment(s: Sim, setup: Setup, calls: seq<TickCall>) {
    calls == [] || s.world.victory || (GatesAgree(s.world) && !ReplayBumps(s, setup, calls))
  }

  /** The environment survives a client's replay exactly then: nothing is pending, the game is won, or
      every gate already agrees with the counters and no pending tick bumps an unbroken block. */
  lemma EnvironmentSurvivesExactly(s: Sim, setup: Setup, calls: seq<TickCall>)
    ensures SameEnvironment(s.world, Run(s, setup, false, calls).world) <==> LeavesEnvironment(s, setup, calls)
  {
    if s.world.victory {
      VictoryFreezes(s, setup, false, calls);
    } else if calls != [] {
      ReplayChanges(s, setup, calls);
      if !ReplayBumps(s, setup, calls) { AgreeingGatesAreEqual(s.world, Run(s, setup, false, calls).world); }
    }
  }

  // ---- Two snapshots in a row -------------------------------------------------------------

  lemma NewerKeepsAlone(c: int, history: seq<Entry>, capacity: nat, base: int, log: map<int, Entry>, h1: int, h2: int)
    requires Aligned(c, history, capacity, base, log) && base <= h1 <= h2 && !Orphaned(c, h1, capacity)
    ensures Kept(Kept(history, c, h1, capacity), if h1 > c then h1 else c, h2, capacity) ==
        Kept(history, c, h2, capacity)
  {
    KeptIsTheLog(c, history, capacity, base, log, h1);
    KeptIsTheLog(if h1 > c then h1 else c, Kept(history, c, h1, capacity), capacity, h1, log, h2);
    KeptIsTheLog(c, history, capacity, base, log, h2);
  }

  /** The two ways to handle an older and a newer snapshot: both, or the newer alone. */
  datatype TwoWays = TwoWays(between: Sim, both: Sim, alone: Sim, kept: seq<Entry>)

  function Handled(s: Sim, setup: Setup, localId: string, history: seq<Entry>, capacity: nat, first: World,
      second: World, firstAt: nat -> Clock, secondAt: nat -> Clock, aloneAt: nat -> Clock): TwoWays
  {
    var kept1 := Kept(history, s.world.number, first.number, capacity);
    var s1 := Reconciled(s, setup, false, localId, kept1, first, firstAt);
    var kept12 := Kept(kept1, s1.world.number, second.number, capacity);
    var kept2 := Kept(history, s.world.number, second.number, capacity);
    TwoWays(s1, Reconciled(s1, setup, false, localId, kept12, second, secondAt),
            Reconciled(s, setup, false, localId, kept2, second, aloneAt), kept2)
  }

  /** Nothing live is replayed after the snapshot. */
  predicate CaughtUp(kept: seq<Entry>, snapshot: World) { kept == [] || snapshot.victory }

  lemma CaughtUpShowsTheEnvironment(s: Sim, setup: Setup, localId: string, kept: seq<Entry>, snapshot: World,
      clock: nat -> Clock)
    requires CaughtUp(kept, snapshot)
    ensures Reconciled(s, setup, false, localId, kept, snapshot, clock).world
         == Rebased(s.world, snapshot).(number := snapshot.number + |kept|)
  {
    if snapshot.victory {
      VictoryFreezes(s.(world := Rebased(s.world, snapshot)), setup, false, Calls(localId, kept, clock));
    }
  }

  /** Once a live tick is replayed the earlier state of the gates no longer matters. */
  lemma LiveTickResetsGates(s: Sim, t: Sim, setup: Setup, a: TickCall, b: TickCall)
    requires !s.world.victory && SameInput(a, b) && AlikeButGates(s.world, t.world)
    ensures AlikeWorlds(TickBy(s, setup, false, a).world, TickBy(t, setup, false, b).world)
  {
    var s2, t2 := BeforeGates(s, setup, a), BeforeGates(t, setup, b);
    AlikeBeforeGates(s, t, setup, a, b);
    GatesFromIgnoresStates(s2.world.players, t2.world.players, s2.world.gates, t2.world.gates, s2.events, t2.events, 0,
        s2.world.tally);
    ClampingAlike(GatesPhase(s2), GatesPhase(t2), setup);
  }

  /** A client's live tick up to its gates. */
  function BeforeGates(s: Sim, setup: Setup, call: TickCall): Sim {
    TallyPhase(EnemiesPhase(BlocksPhase(MovePhase(s, setup, call.inputs, call.dt, call.clock.expiry)), call.commands,
        call.dt))
  }

  ghost predicate AlikeButGates(w: World, v: World) {
    AlikeWorlds(w.(gates := v.gates), v) && GatesFixed(w.gates, v.gates)
  }

  lemma AlikeBeforeGates(s: Sim, t: Sim, setup: Setup, a: TickCall, b: TickCall)
    requires AlikeButGates(s.world, t.world) && SameInput(a, b)
    ensures AlikeButGates(BeforeGates(s, setup, a).world, BeforeGates(t, setup, b).world)
  {
    var s1, t1 := MovePhase(s, setup, a.inputs, a.dt, a.clock.expiry),
        MovePhase(t, setup, b.inputs, b.dt, b.clock.expiry);
    MovesAlike(s.world.players, t.world.players, setup, a.inputs, a.dt, a.clock.expiry, b.clock.expiry);
    HitsAlike(s1.world.players, t1.world.players, s1.world.blocks, s1.events, t1.events, 0);
  }

  lemma ClampingAlike(s: Sim, t: Sim, setup: Setup)
    requires AlikeWorlds(s.world, t.world)
    ensures AlikeWorlds(ClampPhase(s, setup).world, ClampPhase(t, setup).world)
  {
  }

  lemma StaysFixed(gates: seq<Gate>, others: seq<Gate>, j: nat, g: Gate)
    requires GatesFixed(gates, others) && j < |gates|
    ensures GatesFixed(gates[j := g], others[j := g])
  {
    forall i | 0 <= i < |gates| && i != j ensures others[i].(state := gates[i].state) == gates[i] {}
  }

  lemma {:induction false} GatesFromIgnoresStates(ps: seq<Player>, qs: seq<Player>, gates: seq<Gate>, others: seq<Gate>,
                                                  es: seq<Event>, fs: seq<Event>, j: nat, t: Tally)
    requires Alike(ps, qs) && GatesFixed(gates, others) && forall k :: 0 <= k < j && k < |gates| ==>
        gates[k] == others[k]
    ensures Alike(GatesFrom(ps, gates, es, j, t).players, GatesFrom(qs, others, fs, j, t).players)
    ensures GatesFrom(ps, gates, es, j, t).gates == GatesFrom(qs, others, fs, j, t).gates
    decreases |gates| - j
  {
    if j < |gates| {
      assert others[j].(state := gates[j].state) == gates[j];
      var (g, change) := UpdateGate(gates[j], RequirementsMet(gates[j], t));
      var (h, other) := UpdateGate(others[j], RequirementsMet(others[j], t));
      assert g == h;
      var ps' := if g.state == Closed then PushOutAll(ps, g.box) else ps;
      var qs' := if g.state == Closed then PushOutAll(qs, g.box) else qs;
      PushesAlike(ps, qs, g);
      StaysFixed(gates, others, j, g);
      GatesFromIgnoresStates(ps', qs', gates[j := g], others[j := h], es + change, fs + other, j + 1, t);
    }
  }

  /** Reconciling with an older and then a newer snapshot leaves the same history as the newer alone.
      When nothing live is replayed after the newer one, the worlds agree exactly when the first
      replay leaves the environment alone, which can be told before either call. When something is,
      they agree whenever the first replay bumps no block, and only if the newer snapshot's own
      replay breaks every block that the first one broke. */
  lemma NewerSnapshotAbsorbsOlder(s: Sim, setup: Setup, localId: string, history: seq<Entry>, capacity: nat,
                                  base: int, log: map<int, Entry>, first: World, second: World,
                                  firstAt: nat -> Clock, secondAt: nat -> Clock, aloneAt: nat -> Clock)
    requires Aligned(s.world.number, history, capacity, base, log)
    requires base <= first.number <= second.number && !Orphaned(s.world.number, first.number, capacity)
    ensures var r := Handled(s, setup, localId, history, capacity, first, second, firstAt, secondAt, aloneAt);
      var kept1 := Kept(history, s.world.number, first.number, capacity);
      var start, calls := s.(world := Rebased(s.world, first)), Calls(localId, kept1, firstAt);
      && Kept(kept1, r.between.world.number, second.number, capacity) == r.kept
      && (CaughtUp(r.kept, second) ==>
            (AlikeWorlds(r.both.world, r.alone.world) <==> LeavesEnvironment(start, setup, calls)))
      && (first.victory || !ReplayBumps(start, setup, calls) ==>
            !CaughtUp(r.kept, second) ==> AlikeWorlds(r.both.world, r.alone.world))
      && (AlikeWorlds(r.both.world, r.alone.world) ==>
            forall k :: 0 <= k < |r.between.world.blocks| && r.between.world.blocks[k].destroyed ==>
              k < |r.alone.world.blocks| && r.alone.world.blocks[k].destroyed)
  {
    ReconcileReplaysTheLog(s, setup, false, localId, history, capacity, base, log, first, firstAt);
    NewerKeepsAlone(s.world.number, history, capacity, base, log, first.number, second.number);
    var kept1 := Kept(history, s.world.number, first.number, capacity);
    var kept2 := Kept(history, s.world.number, second.number, capacity);
    var between := Reconciled(s, setup, false, localId, kept1, first, firstAt);
    if CaughtUp(kept2, second) {
      AbsorbedWhenCaughtUp(s, setup, localId, kept1, kept2, first, second, firstAt, secondAt, aloneAt);
    } else {
      AbsorbedByLiveReplay(s, setup, localId, kept1, kept2, first, second, firstAt, secondAt, aloneAt);
    }
    BrokenBlocksStay(between, setup, localId, kept2, second, secondAt);
  }

  lemma AbsorbedWhenCaughtUp(s: Sim, setup: Setup, localId: string, kept1: seq<Entry>, kept2: seq<Entry>, first: World,
      second: World, firstAt: nat -> Clock, secondAt: nat -> Clock, aloneAt: nat -> Clock)
    requires CaughtUp(kept2, second)
    ensures var between := Reconciled(s, setup, false, localId, kept1, first, firstAt);
      AlikeWorlds(Reconciled(between, setup, false, localId, kept2, second, secondAt).world,
                  Reconciled(s, setup, false, localId, kept2, second, aloneAt).world)
      <==> LeavesEnvironment(s.(world := Rebased(s.world, first)), setup, Calls(localId, kept1, firstAt))
  {
    EnvironmentSurvivesExactly(s.(world := Rebased(s.world, first)), setup, Calls(localId, kept1, firstAt));
    CaughtUpShowsTheEnvironment(Reconciled(s, setup, false, localId, kept1, first, firstAt), setup, localId, kept2,
        second, secondAt);
    CaughtUpShowsTheEnvironment(s, setup, localId, kept2, second, aloneAt);
  }

  lemma AbsorbedByLiveReplay(s: Sim, setup: Setup, localId: string, kept1: seq<Entry>, kept2: seq<Entry>, first: World,
      second: World, firstAt: nat -> Clock, secondAt: nat -> Clock, aloneAt: nat -> Clock)
    requires !CaughtUp(kept2, second)
    ensures var start, calls := s.(world := Rebased(s.world, first)), Calls(localId, kept1, firstAt);
      first.victory || !ReplayBumps(start, setup, calls) ==>
        AlikeWorlds(Reconciled(Run(start, setup, false, calls), setup, false, localId, kept2, second, secondAt).world,
                    Reconciled(s, setup, false, localId, kept2, second, aloneAt).world)
  {
    var start, calls := s.(world := Rebased(s.world, first)), Calls(localId, kept1, firstAt);
    if first.victory || !ReplayBumps(start, setup, calls) {
      if first.victory { VictoryFreezes(start, setup, false, calls); } else { ReplayChanges(start, setup, calls); }
      GatesDoNotMatter(Run(start, setup, false, calls), s, setup, localId, kept2, second, secondAt, aloneAt);
    }
  }

  lemma GatesDoNotMatter(s: Sim, t: Sim, setup: Setup, localId: string, kept: seq<Entry>, snapshot: World,
                         a: nat -> Clock, b: nat -> Clock)
    requires s.world.blocks == t.world.blocks && s.world.powerUps == t.world.powerUps
    requires GatesFixed(t.world.gates, s.world.gates) && !CaughtUp(kept, snapshot)
    ensures AlikeWorlds(Reconciled(s, setup, false, localId, kept, snapshot, a).world,
                        Reconciled(t, setup, false, localId, kept, snapshot, b).world)
  {
    hide Simulation.Tick, Run;
    var x, y := s.(world := Rebased(s.world, snapshot)), t.(world := Rebased(t.world, snapshot));
    var xs, ys := Calls(localId, kept, a), Calls(localId, kept, b);
    forall i | 0 <= i < |x.world.gates| ensures y.world.gates[i].(state := x.world.gates[i].state) == x.world.gates[i] {
      assert s.world.gates[i].(state := t.world.gates[i].state) == t.world.gates[i];
    }
    LiveTickResetsGates(x, y, setup, xs[0], ys[0]);
    FirstThenRest(x, setup, xs);
    FirstThenRest(y, setup, ys);
    ClientRunsAlike(TickBy(x, setup, false, xs[0]), TickBy(y, setup, false, ys[0]), setup, xs[1..], ys[1..]);
  }

  lemma FirstThenRest(s: Sim, setup: Setup, calls: seq<TickCall>)
    requires calls != []
    ensures Run(s, setup, false, calls) == Run(TickBy(s, setup, false, calls[0]), setup, false, calls[1..])
  {
    assert calls == [calls[0]] + calls[1..];
    RunSplits(s, setup, false, [calls[0]], calls[1..]);
    var one := [calls[0]];
    assert one[..0] == [];
    assert Run(s, setup, false, one) == TickBy(s, setup, false, calls[0]);
  }

  lemma BrokenBlocksStay(s: Sim, setup: Setup, localId: string, kept: seq<Entry>, snapshot: World, clock: nat -> Clock)
    ensures BlocksAdvance(s.world.blocks, Reconciled(s, setup, false, localId, kept, snapshot, clock).world.blocks)
  {
    var start, calls := s.(world := Rebased(s.world, snapshot)), Calls(localId, kept, clock);
    if snapshot.victory { VictoryFreezes(start, setup, false, calls); } else { ReplayChanges(start, setup, calls); }
  }

  // ---- Why the first replay must leave the environment alone --------------------------------

  const IDLE := Input(false, false, false, false)
  const EMPTY := World(0, [], [], [], [], [], Tally(0, 0, 0), 0, false, None, [])
  const OPEN_FIELD := Setup([], 1000.0, 1000.0, [], Level([], [], [], []))
  const CEILING := Block(Box(0.0, 0.0, 100.0, 100.0), false)
  const RISING := NewPlayer("player2", 0.0, 100.5, 1).(vy := -85.0)
  const TWO_INPUTS := [Entry(1, IDLE, TICK_INTERVAL, 0.0), Entry(2, IDLE, TICK_INTERVAL, 0.0)]

  /** A snapshot with the player right under a block, then one without the player: the replay after
      the first breaks the block, and the second does not mend it. */
  lemma OlderReplayCanBreakABlock(clock: nat -> Clock)
    ensures var s := Sim(EMPTY.(number := 2, blocks := [CEILING]), map[], []);
            var first, second := EMPTY.(number := 1, players := [RISING]), EMPTY.(number := 2);
            var s1 := Reconciled(s, OPEN_FIELD, false, "player2", Kept(TWO_INPUTS, 2, 1, 60), first, clock);
            var kept := Kept(TWO_INPUTS, 2, 2, 60);
            && Reconciled(s, OPEN_FIELD, false, "player2", kept, second, clock).world.blocks == [CEILING]
            && Reconciled(s1, OPEN_FIELD, false, "player2", kept, second, clock).world.blocks
               == [CEILING.(destroyed := true)]
  {
    var s := Sim(EMPTY.(number := 2, blocks := [CEILING]), map[], []);
    var first, second := EMPTY.(number := 1, players := [RISING]), EMPTY.(number := 2);
    assert AcknowledgedFrom(TWO_INPUTS, 1, 0) == 1;
    assert AcknowledgedFrom(TWO_INPUTS, 2, 0) == 2;
    var kept := Kept(TWO_INPUTS, 2, 1, 60);
    assert kept == [TWO_INPUTS[1]];
    var calls := Calls("player2", kept, clock);
    assert calls[..0] == [];
    var start := s.(world := Rebased(s.world, first));
    assert Run(start, OPEN_FIELD, false, calls) == TickBy(start, OPEN_FIELD, false, calls[0]);
    RisingPlayerBreaksTheCeiling(start, calls[0]);
  }

  lemma RisingPlayerBreaksTheCeiling(s: Sim, call: TickCall)
    requires s.world.players == [RISING] && s.world.blocks == [CEILING] && s.world.gates == [] && !s.world.victory
    requires call.dt == TICK_INTERVAL && call.inputs == map["player2" := IDLE]
    ensures TickBy(s, OPEN_FIELD, false, call).world.blocks == [CEILING.(destroyed := true)]
  {
    var s1 := MovePhase(s, OPEN_FIELD, call.inputs, call.dt, call.clock.expiry);
    var p := s1.world.players[0];
    assert s1.world.players == [p];
    assert p.y == 99.5 && p.prevY == 100.5 && p.x == 0.0 && p.width == 75.0 && p.height == 75.0;
    BumpBreaks(p, CEILING, s1.events);
  }

  lemma BumpBreaks(p: Player, b: Block, events: seq<Event>)
    requires !b.destroyed && Collides(p, b.box) && IsHeadBump(p, b.box)
    ensures HitBlocksFrom([p], [b], events, 0).blocks == [b.(destroyed := true)]
  {
    var (broken, event) := Destroy(b).value;
    assert [b][0 := broken] == [broken];
    var hit := BlocksFrom(p, [b], events, 0);
    assert hit == BlocksFrom(ResolveCollision(p, b.box), [broken], events + [event], 1);
    assert HitBlocksFrom([p][0 := hit.player], hit.blocks, hit.events, 1).blocks == hit.blocks;
  }
}
