/** application/reconciliation/prediction_engine.py: the buffered inputs of a predicting client and
    the rewind-and-replay that follows every authoritative snapshot. */
module Prediction {
  import opened Prelude
  import opened Config
  import opened Entities
  import opened Simulation
  import opened GameEngineModel
  import Progress

  datatype Entry = Entry(number: int, input: Input, dt: real, sentAt: real)

  // ---- The input history ------------------------------------------------------------------

  /** What a bounded deque holds after an append: at most `capacity` entries, the newest ones. */
  function Newest(entries: seq<Entry>, capacity: nat): (r: seq<Entry>)
    ensures |r| == if |entries| <= capacity then |entries| else capacity
  {
    if |entries| <= capacity then entries else entries[|entries| - capacity..]
  }

  /** How many entries, from index i on, are acknowledged before the first one that is not. */
  function AcknowledgedFrom(entries: seq<Entry>, number: int, i: nat): (n: nat)
    requires i <= |entries|
    ensures i <= n <= |entries|
    ensures forall k :: i <= k < n ==> entries[k].number <= number
    ensures n < |entries| ==> entries[n].number > number
    decreases |entries| - i
  {
    if i < |entries| && entries[i].number <= number then AcknowledgedFrom(entries, number, i + 1) else i
  }

  /** The entries left once everything up to `number` has been acknowledged. */
  function Unacknowledged(entries: seq<Entry>, number: int): seq<Entry> {
    entries[AcknowledgedFrom(entries, number, 0)..]
  }

  class InputHistoryBuffer {
    const capacity: nat
    var entries: seq<Entry>

    constructor (capacity: nat)
      ensures this.capacity == capacity && entries == []
    {
      this.capacity := capacity;
      entries := [];
    }

    method Push(number: int, input: Input, dt: real, sentAt: real)
      modifies this
      ensures entries == Newest(old(entries) + [Entry(number, input, dt, sentAt)], capacity)
    {
      entries := entries + [Entry(number, input, dt, sentAt)];
      if |entries| > capacity {
        entries := entries[|entries| - capacity..];
      }
    }

    /** Drops acknowledged entries, returning the most recently acknowledged one. */
    method Acknowledge(number: int) returns (last: Option<Entry>)
      modifies this
      ensures entries == Unacknowledged(old(entries), number)
      ensures var dropped := AcknowledgedFrom(old(entries), number, 0);
              last == if dropped == 0 then None else Some(old(entries)[dropped - 1])
    {
      last := None;
      ghost var was, n := entries, 0;
      while entries != [] && entries[0].number <= number
        invariant n <= |was| && entries == was[n..]
        invariant AcknowledgedFrom(was, number, n) == AcknowledgedFrom(was, number, 0)
        invariant last == if n == 0 then None else Some(was[n - 1])
        decreases |entries|
      {
        last := Some(entries[0]);
        entries := entries[1..];
        n := n + 1;
      }
    }

    method Clear()
      modifies this
      ensures entries == []
    {
      entries := [];
    }
  }

  // ---- Reconciliation ---------------------------------------------------------------------

  /** The engine calls that replay these entries; `clock` gives the readings of each call. */
  function Calls(localId: string, entries: seq<Entry>, clock: nat -> Clock): seq<TickCall> {
    seq(|entries|, i requires 0 <= i < |entries| =>
      TickCall(entries[i].dt, map[localId := entries[i].input], map[], clock(i)))
  }

  /** The client is too far ahead for the snapshot's sequence ever to catch up. */
  predicate Orphaned(number: int, snapshotNumber: int, capacity: nat) { number > snapshotNumber + capacity }

  function Kept(history: seq<Entry>, number: int, snapshotNumber: int, capacity: nat): seq<Entry> {
    if Orphaned(number, snapshotNumber, capacity) then [] else Unacknowledged(history, snapshotNumber)
  }

  function Reconciled(s: Sim, setup: Setup, authoritative: bool, localId: string,
                      kept: seq<Entry>, snapshot: World, clock: nat -> Clock): Sim
  {
    Run(s.(world := Rebased(s.world, snapshot)), setup, authoritative, Calls(localId, kept, clock))
  }

  class PredictionEngine {
    const engine: GameEngine
    const localPlayerId: string
    const buffer: InputHistoryBuffer

    constructor (engine: GameEngine, localPlayerId: string, capacity: nat)
      ensures this.engine == engine && this.localPlayerId == localPlayerId
      ensures fresh(buffer) && buffer.capacity == capacity && buffer.entries == []
    {
      this.engine, this.localPlayerId := engine, localPlayerId;
      buffer := new InputHistoryBuffer(capacity);
    }

    /** Records the input under the number the next tick will get; the engine does not advance. */
    method Predict(input: Input, dt: real, now: real)
      modifies buffer
      ensures buffer.entries == Newest(old(buffer.entries) + [Entry(engine.world.number + 1, input, dt, now)],
          buffer.capacity)
    {
      buffer.Push(engine.world.number + 1, input, dt, now);
    }

    method Reconcile(snapshot: World, clock: nat -> Clock)
      modifies engine`world, engine`saved, engine`events, buffer
      ensures buffer.entries == Kept(old(buffer.entries), old(engine.world.number), snapshot.number, buffer.capacity)
      ensures engine.Sim() == Reconciled(old(engine.Sim()), engine.setup, engine.isAuthoritative, localPlayerId,
                                         buffer.entries, snapshot, clock)
    {
      var numberBefore := engine.world.number;
      var lastAcknowledged := buffer.Acknowledge(snapshot.number);
      if numberBefore > snapshot.number + buffer.capacity {
        buffer.Clear();
      }
      var local := engine.world;
      engine.world := snapshot;
      engine.world := engine.world.(blocks := local.blocks);
      engine.world := engine.world.(powerUps := local.powerUps);
      engine.world := engine.world.(gates := local.gates);
      ReplayPending(buffer.entries, clock);
    }

    method ReplayPending(pending: seq<Entry>, clock: nat -> Clock)
      modifies engine`world, engine`saved, engine`events
      ensures engine.Sim() == Run(old(engine.Sim()), engine.setup, engine.isAuthoritative,
                                  Calls(localPlayerId, pending, clock))
    {
      hide Simulation.Tick;
      ghost var calls := Calls(localPlayerId, pending, clock);
      var n := 0;
      while n < |pending|
        invariant 0 <= n <= |pending|
        invariant engine.Sim() == Run(old(engine.Sim()), engine.setup, engine.isAuthoritative, calls[..n])
      {
        assert calls[..n + 1][..n] == calls[..n];
        engine.Tick(pending[n].dt, map[localPlayerId := pending[n].input], map[], clock(n));
        n := n + 1;
      }
      assert calls[..n] == calls;
    }

    function PendingCount(): nat
      reads buffer
    {
      |buffer.entries|
    }
  }

  // ---- Numbering --------------------------------------------------------------------------

  lemma TickAddsOne(s: Sim, setup: Setup, authoritative: bool, call: TickCall)
    ensures TickBy(s, setup, authoritative, call).world.number == s.world.number + 1
  {
    if !s.world.victory {
      var s4 := EnemiesPhase(PowerUpsPhase(BlocksPhase(MovePhase(s, setup, call.inputs, call.dt, call.clock.expiry)),
                                           authoritative, call.clock.collect), call.commands, call.dt);
      Progress.ContactsKeepScenery(s4, s4.world.enemies, 0, call.clock.contact);
      var s5 := ContactPhase(s4, authoritative, call.clock.contact);
      Progress.FallsKeepScenery(s5, s5.world.players, 0, setup.height, call.clock.fall);
      var s6 := VoidPhase(s5, authoritative, setup.height, call.clock.fall);
      var s7 := VictoryPhase(ClampPhase(GatesPhase(TallyPhase(s6)), setup), authoritative);
      Progress.RespawnsKeepScenery(s7, setup, s7.world.timers, 0, call.clock.respawn);
    }
  }

  lemma {:induction false} RunCounts(s: Sim, setup: Setup, authoritative: bool, calls: seq<TickCall>)
    ensures Run(s, setup, authoritative, calls).world.number == s.world.number + |calls|
  {
    if calls != [] {
      var before := calls[..|calls| - 1];
      RunCounts(s, setup, authoritative, before);
      TickAddsOne(Run(s, setup, authoritative, before), setup, authoritative, calls[|calls| - 1]);
    }
  }

  // ---- Alignment of the history with the client's sequence number -------------------------

  /** `log` is every input ever predicted, by number; `base` is the number the client last rebased
      to. The history holds exactly the consecutive inputs max(base, number - capacity)+1 .. number. */
  ghost predicate Aligned(number: int, history: seq<Entry>, capacity: nat, base: int, log: map<int, Entry>) {
    && base <= number
    && |history| == (if number - base <= capacity then number - base else capacity)
    && (forall k :: base < k <= number ==> k in log)
    && (forall k :: k in log ==> log[k].number == k)
    && (forall i :: 0 <= i < |history| ==> history[i] == log[number - |history| + 1 + i])
  }

  /** The logged entries from+1 .. to, in order. */
  ghost function Logged(log: map<int, Entry>, from: int, to: int): seq<Entry>
    requires forall k :: from < k <= to ==> k in log
  {
    if from >= to then [] else seq(to - from, i requires 0 <= i < to - from => log[from + 1 + i])
  }

  lemma PredictionKeepsAligned(number: int, history: seq<Entry>, capacity: nat, base: int,
                               log: map<int, Entry>, e: Entry)
    requires Aligned(number, history, capacity, base, log) && e.number == number + 1
    ensures Aligned(number + 1, Newest(history + [e], capacity), capacity, base, log[number + 1 := e])
  {
    var after := Newest(history + [e], capacity);
    forall i | 0 <= i < |after| ensures after[i] == log[number + 1 := e][number + 1 - |after| + 1 + i] {
      assert after[i] == (history + [e])[|history| + 1 - |after| + i];
    }
  }

  /** Where the acknowledged prefix of an aligned history ends. */
  lemma AlignedSuffix(number: int, history: seq<Entry>, capacity: nat, base: int, log: map<int, Entry>, h: int)
    requires Aligned(number, history, capacity, base, log)
    ensures AcknowledgedFrom(history, h, 0)
         == if h <= number - |history| then 0 else if h >= number then |history| else h - (number - |history|)
  {
    var n := AcknowledgedFrom(history, h, 0);
    assert forall i :: 0 <= i < |history| ==> history[i].number == number - |history| + 1 + i;
    if n > 0 { assert history[n - 1].number <= h; }
  }

  /** The entries kept for a snapshot not older than the last one accepted. */
  lemma KeptIsTheLog(c: int, history: seq<Entry>, capacity: nat, base: int, log: map<int, Entry>, h: int)
    requires Aligned(c, history, capacity, base, log) && base <= h && !Orphaned(c, h, capacity)
    ensures Kept(history, c, h, capacity) == Logged(log, h, c)
    ensures Aligned(if h > c then h else c, Kept(history, c, h, capacity), capacity, h, log)
  {
    AlignedSuffix(c, history, capacity, base, log, h);
    SuffixIsLogged(c, history, capacity, base, log, AcknowledgedFrom(history, h, 0));
    LoggedIsAligned(c, capacity, log, h);
  }

  lemma LoggedIsAligned(c: int, capacity: nat, log: map<int, Entry>, h: int)
    requires c <= h + capacity && (forall k :: h < k <= c ==> k in log) && forall k :: k in log ==> log[k].number == k
    ensures Aligned(if h > c then h else c, Logged(log, h, c), capacity, h, log)
  {
  }

  lemma SuffixIsLogged(c: int, history: seq<Entry>, capacity: nat, base: int, log: map<int, Entry>, n: nat)
    requires Aligned(c, history, capacity, base, log) && n <= |history|
    ensures history[n..] == Logged(log, c - |history| + n, c)
  {
    var logged := Logged(log, c - |history| + n, c);
    assert |logged| == |history| - n;
    forall i | 0 <= i < |logged| ensures history[n..][i] == logged[i] {
      assert history[n..][i] == history[n + i];
    }
  }

  /** An input after the snapshot has left the history exactly when the client is orphaned. */
  lemma LostExactlyWhenOrphaned(c: int, history: seq<Entry>, capacity: nat, base: int, log: map<int, Entry>, h: int)
    requires Aligned(c, history, capacity, base, log) && base <= h
    ensures Orphaned(c, h, capacity) <==> exists k :: h < k <= c && log[k] !in history
  {
    if Orphaned(c, h, capacity) {
      assert forall i :: 0 <= i < |history| ==> history[i].number != h + 1;
      assert log[h + 1].number == h + 1 && log[h + 1] !in history;
    } else {
      forall k | h < k <= c ensures log[k] in history {
        assert history[k - 1 - (c - |history|)] == log[k];
      }
    }
  }

  /** A snapshot not older than the last one accepted: unless the history is dropped as orphaned,
      the replay covers exactly the inputs after the snapshot, the client keeps its place, and the
      result stays aligned; the history is dropped exactly when one of those inputs was lost. */
  lemma ReconcileReplaysTheLog(s: Sim, setup: Setup, authoritative: bool, localId: string, history: seq<Entry>,
                               capacity: nat, base: int, log: map<int, Entry>, snapshot: World, clock: nat -> Clock)
    requires Aligned(s.world.number, history, capacity, base, log) && base <= snapshot.number
    ensures var c, h := s.world.number, snapshot.number;
            var kept := Kept(history, c, h, capacity);
            var t := Reconciled(s, setup, authoritative, localId, kept, snapshot, clock);
            && (Orphaned(c, h, capacity) <==> exists k :: h < k <= c && log[k] !in history)
            && (Orphaned(c, h, capacity) ==> kept == [] && t.world == Rebased(s.world, snapshot))
            && (!Orphaned(c, h, capacity) ==> kept == Logged(log, h, c) && t.world.number == if h > c then h else c)
            && Aligned(t.world.number, kept, capacity, h, log)
  {
    var c, h := s.world.number, snapshot.number;
    var kept := Kept(history, c, h, capacity);
    RunCounts(s.(world := Rebased(s.world, snapshot)), setup, authoritative, Calls(localId, kept, clock));
    LostExactlyWhenOrphaned(c, history, capacity, base, log, h);
    if !Orphaned(c, h, capacity) { KeptIsTheLog(c, history, capacity, base, log, h); }
  }

  /** For a snapshot of any age: the client keeps its sequence number, and so replays every input
      after the snapshot, exactly when the history reaches back to the snapshot. The guard can be
      read off before the call. */
  lemma ReplayIsCompleteExactly(s: Sim, setup: Setup, authoritative: bool, localId: string, history: seq<Entry>,
                                capacity: nat, base: int, log: map<int, Entry>, snapshot: World, clock: nat -> Clock)
    requires Aligned(s.world.number, history, capacity, base, log)
    requires snapshot.number <= s.world.number && !Orphaned(s.world.number, snapshot.number, capacity)
    ensures var c, h := s.world.number, snapshot.number;
            var kept := Kept(history, c, h, capacity);
            var t := Reconciled(s, setup, authoritative, localId, kept, snapshot, clock);
            && (t.world.number == c <==> h >= c - |history|)
            && (h < c - |history| ==> kept == history && t.world.number == h + |history| < c)
  {
    var c, h := s.world.number, snapshot.number;
    var kept := Kept(history, c, h, capacity);
    RunCounts(s.(world := Rebased(s.world, snapshot)), setup, authoritative, Calls(localId, kept, clock));
    AlignedSuffix(c, history, capacity, base, log, h);
  }

  // ---- Rewinding to an agreeing snapshot changes nothing ----------------------------------

  /** Equal but for the star effect's expiry, the one field that holds a wall-clock time. */
  predicate AlikePlayers(p: Player, q: Player) { q == p.(effectExpiresAt := q.effectExpiresAt) }

  predicate Alike(ps: seq<Player>, qs: seq<Player>) {
    |ps| == |qs| && forall i :: 0 <= i < |ps| ==> AlikePlayers(ps[i], qs[i])
  }

  predicate AlikeWorlds(w: World, v: World) { v == w.(players := v.players) && Alike(w.players, v.players) }

  predicate SameInput(a: TickCall, b: TickCall) { a.dt == b.dt && a.inputs == b.inputs && a.commands == b.commands }

  lemma {:induction false} PlatformsAlike(p: Player, q: Player, platforms: seq<Box>, j: nat)
    requires AlikePlayers(p, q)
    ensures AlikePlayers(PlatformsFrom(p, platforms, j), PlatformsFrom(q, platforms, j))
    decreases |platforms| - j
  {
    if j < |platforms| { PlatformsAlike(PushOut(p, platforms[j]), PushOut(q, platforms[j]), platforms, j + 1); }
  }

  lemma MovedAlike(p: Player, q: Player, inputs: map<string, Input>, dt: real, a: real, b: real)
    requires AlikePlayers(p, q)
    ensures AlikePlayers(Moved(p, inputs, dt, a), Moved(q, inputs, dt, b))
  {
    var p1 := p.(prevX := p.x, prevY := p.y, effectExpiresAt := Unexpired(p.effectExpiresAt, a));
    var q1 := q.(prevX := q.x, prevY := q.y, effectExpiresAt := Unexpired(q.effectExpiresAt, b));
    assert AlikePlayers(p1, q1);
    var p2 := if p.id in inputs then ApplyInput(p1, inputs[p.id]) else p1;
    var q2 := if q.id in inputs then ApplyInput(q1, inputs[q.id]) else q1;
    PhysicsAlike(p2, q2, dt);
    assert Moved(p, inputs, dt, a) == ApplyPhysics(p2, dt) && Moved(q, inputs, dt, b) == ApplyPhysics(q2, dt);
  }

  lemma PhysicsAlike(p: Player, q: Player, dt: real)
    requires AlikePlayers(p, q)
    ensures AlikePlayers(ApplyPhysics(p, dt), ApplyPhysics(q, dt))
  {
    assert Integrated(p.vy, GRAVITY, dt) == Integrated(q.vy, GRAVITY, dt);
    assert Integrated(p.x, p.vx, dt) == Integrated(q.x, q.vx, dt);
    assert Integrated(p.y, Integrated(p.vy, GRAVITY, dt), dt) == Integrated(q.y, Integrated(q.vy, GRAVITY, dt), dt);
  }

  lemma MovesAlike(ps: seq<Player>, qs: seq<Player>, setup: Setup, inputs: map<string, Input>, dt: real, a: real,
      b: real)
    requires Alike(ps, qs)
    ensures Alike(MovePlayers(ps, setup, inputs, dt, a), MovePlayers(qs, setup, inputs, dt, b))
  {
    forall i | 0 <= i < |ps|
      ensures AlikePlayers(Landed(Moved(ps[i], inputs, dt, a), setup.platforms),
          Landed(Moved(qs[i], inputs, dt, b), setup.platforms))
    {
      MovedAlike(ps[i], qs[i], inputs, dt, a, b);
      PlatformsAlike(Moved(ps[i], inputs, dt, a).(onGround := false), Moved(qs[i], inputs, dt, b).(onGround := false),
          setup.platforms, 0);
    }
  }

  lemma {:induction false} BlocksAlike(p: Player, q: Player, blocks: seq<Block>, es: seq<Event>, fs: seq<Event>, j: nat)
    requires AlikePlayers(p, q)
    ensures AlikePlayers(BlocksFrom(p, blocks, es, j).player, BlocksFrom(q, blocks, fs, j).player)
    ensures BlocksFrom(p, blocks, es, j).blocks == BlocksFrom(q, blocks, fs, j).blocks
    decreases |blocks| - j
  {
    if j < |blocks| {
      var b := blocks[j];
      if b.destroyed || !Collides(p, b.box) {
        BlocksAlike(p, q, blocks, es, fs, j + 1);
      } else if IsHeadBump(p, b.box) {
        var (broken, event) := Destroy(b).value;
        BlocksAlike(ResolveCollision(p, b.box), ResolveCollision(q, b.box), blocks[j := broken], es + [event],
            fs + [event], j + 1);
      } else {
        BlocksAlike(ResolveCollision(p, b.box), ResolveCollision(q, b.box), blocks, es, fs, j + 1);
      }
    }
  }

  lemma {:induction false} HitsAlike(ps: seq<Player>, qs: seq<Player>, blocks: seq<Block>, es: seq<Event>,
      fs: seq<Event>, i: nat)
    requires Alike(ps, qs)
    ensures Alike(HitBlocksFrom(ps, blocks, es, i).players, HitBlocksFrom(qs, blocks, fs, i).players)
    ensures HitBlocksFrom(ps, blocks, es, i).blocks == HitBlocksFrom(qs, blocks, fs, i).blocks
    decreases |ps| - i
  {
    if i < |ps| {
      BlocksAlike(ps[i], qs[i], blocks, es, fs, 0);
      var a, b := BlocksFrom(ps[i], blocks, es, 0), BlocksFrom(qs[i], blocks, fs, 0);
      HitsAlike(ps[i := a.player], qs[i := b.player], a.blocks, a.events, b.events, i + 1);
    }
  }

  /** Closed gates push alike players alike. */
  lemma PushesAlike(ps: seq<Player>, qs: seq<Player>, g: Gate)
    requires Alike(ps, qs)
    ensures Alike(if g.state == Closed then PushOutAll(ps, g.box) else ps,
                  if g.state == Closed then PushOutAll(qs, g.box) else qs)
  {
  }

  lemma {:induction false} GatesAlike(ps: seq<Player>, qs: seq<Player>, gates: seq<Gate>, es: seq<Event>,
      fs: seq<Event>, j: nat, t: Tally)
    requires Alike(ps, qs)
    ensures Alike(GatesFrom(ps, gates, es, j, t).players, GatesFrom(qs, gates, fs, j, t).players)
    ensures GatesFrom(ps, gates, es, j, t).gates == GatesFrom(qs, gates, fs, j, t).gates
    decreases |gates| - j
  {
    if j < |gates| {
      var (g, change) := UpdateGate(gates[j], RequirementsMet(gates[j], t));
      var ps' := if g.state == Closed then PushOutAll(ps, g.box) else ps;
      var qs' := if g.state == Closed then PushOutAll(qs, g.box) else qs;
      PushesAlike(ps, qs, g);
      GatesAlike(ps', qs', gates[j := g], es + change, fs + change, j + 1, t);
    }
  }

  /** A client's tick does not read the expiry field or the clock for anything else. */
  lemma ClientTicksAlike(s: Sim, t: Sim, setup: Setup, a: TickCall, b: TickCall)
    requires AlikeWorlds(s.world, t.world) && SameInput(a, b)
    ensures AlikeWorlds(TickBy(s, setup, false, a).world, TickBy(t, setup, false, b).world)
  {
    if !s.world.victory {
      var s1, t1 := MovePhase(s, setup, a.inputs, a.dt, a.clock.expiry),
          MovePhase(t, setup, b.inputs, b.dt, b.clock.expiry);
      MovesAlike(s.world.players, t.world.players, setup, a.inputs, a.dt, a.clock.expiry, b.clock.expiry);
      assert AlikeWorlds(s1.world, t1.world);
      BlockPhasesAlike(s1, t1);
      var s2, t2 := TallyPhase(EnemiesPhase(BlocksPhase(s1), a.commands, a.dt)),
          TallyPhase(EnemiesPhase(BlocksPhase(t1), b.commands, b.dt));
      assert AlikeWorlds(s2.world, t2.world);
      GatePhasesAlike(s2, t2, setup);
    }
  }

  lemma BlockPhasesAlike(s: Sim, t: Sim)
    requires AlikeWorlds(s.world, t.world)
    ensures AlikeWorlds(BlocksPhase(s).world, BlocksPhase(t).world)
  {
    HitsAlike(s.world.players, t.world.players, s.world.blocks, s.events, t.events, 0);
  }

  lemma GatePhasesAlike(s: Sim, t: Sim, setup: Setup)
    requires AlikeWorlds(s.world, t.world)
    ensures AlikeWorlds(ClampPhase(GatesPhase(s), setup).world, ClampPhase(GatesPhase(t), setup).world)
  {
    GatesAlike(s.world.players, t.world.players, s.world.gates, s.events, t.events, 0, s.world.tally);
  }

  lemma {:induction false} ClientRunsAlike(s: Sim, t: Sim, setup: Setup, a: seq<TickCall>, b: seq<TickCall>)
    requires AlikeWorlds(s.world, t.world) && |a| == |b| && forall i :: 0 <= i < |a| ==> SameInput(a[i], b[i])
    ensures AlikeWorlds(Run(s, setup, false, a).world, Run(t, setup, false, b).world)
  {
    if a != [] {
      var n := |a| - 1;
      ClientRunsAlike(s, t, setup, a[..n], b[..n]);
      ClientTicksAlike(Run(s, setup, false, a[..n]), Run(t, setup, false, b[..n]), setup, a[n], b[n]);
    }
  }

  predicate SameEnvironment(w: World, v: World) {
    w.blocks == v.blocks && w.powerUps == v.powerUps && w.gates == v.gates
  }

  /** Replaying the calls that led from a past state to this one, from a snapshot that agrees with the
      past, leads to this state again if the environment has not changed since. */
  lemma AgreeingReplay(past: Sim, s: Sim, setup: Setup, localId: string, history: seq<Entry>, capacity: nat,
                       base: int, log: map<int, Entry>, snapshot: World,
                       predictedAt: nat -> Clock, replayedAt: nat -> Clock)
    requires Aligned(s.world.number, history, capacity, base, log)
    requires base <= snapshot.number == past.world.number <= s.world.number
    requires !Orphaned(s.world.number, snapshot.number, capacity)
    requires s == Run(past, setup, false, Calls(localId, Logged(log, snapshot.number, s.world.number), predictedAt))
    requires AlikeWorlds(past.world, Rebased(past.world, snapshot))
    requires SameEnvironment(past.world, s.world)
    ensures var kept := Kept(history, s.world.number, snapshot.number, capacity);
            AlikeWorlds(s.world, Reconciled(s, setup, false, localId, kept, snapshot, replayedAt).world)
  {
    ReconcileReplaysTheLog(s, setup, false, localId, history, capacity, base, log, snapshot, replayedAt);
    var kept := Logged(log, snapshot.number, s.world.number);
    assert Rebased(s.world, snapshot) == Rebased(past.world, snapshot);
    ClientRunsAlike(past, s.(world := Rebased(s.world, snapshot)), setup,
                    Calls(localId, kept, predictedAt), Calls(localId, kept, replayedAt));
  }
}
