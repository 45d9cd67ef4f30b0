/** application/gameplay/client.py: the client's frame — predicted ticks, incoming snapshots and the
    controller that keeps the prediction lead near its calibrated baseline. */
module ClientLoopModel {
  import opened Prelude
  import opened Config
  import opened Entities
  import opened Simulation
  import opened GameEngineModel
  import opened Prediction
  import Replication
  import Movement

  // ---- The client as a run of predictions and snapshots -----------------------------------

  /** The client's state: `last` filters stale snapshots, `reconnected` says that a new host has been
      followed. Two history variables: `base` is the snapshot it last rewound to, `log` every input
      predicted, by number. */
  datatype Client = Client(sim: Sim, history: seq<Entry>, last: int, base: int, log: map<int, Entry>, reconnected: bool)

  /** What never changes about it. */
  datatype Profile = Profile(setup: Setup, authoritative: bool, localId: string, capacity: nat)

  /** A snapshot with the clock readings of the replay it causes. */
  datatype Packet = Packet(number: int, world: World, clock: nat -> Clock)

  /** A snapshot, or the announcement of a new host; `buffered` is the last snapshot stored so far. */
  datatype Incoming = Snapshot(packet: Packet) | NewHost(buffered: Option<World>)

  /** What a frame does to the client: a world sent to a rejoining player, a predicted tick, clearing
      the engine's events, a packet, a game event from the host. */
  datatype Step =
    | Synced(world: World)
    | PredictedTick(input: Input, sentAt: real, clock: Clock)
    | EventsCleared
    | Received(incoming: Incoming)
    | Told(message: Replication.Message)

  function AfterTick(c: Client, p: Profile, input: Input, sentAt: real, clock: Clock): Client {
    var e := Entry(c.sim.world.number + 1, input, TICK_INTERVAL, sentAt);
    c.(sim := TickBy(c.sim, p.setup, p.authoritative, TickCall(TICK_INTERVAL, map[p.localId := input], map[], clock)),
       history := Newest(c.history + [e], p.capacity), log := c.log[e.number := e])
  }

  /** Snapshots not newer than the last accepted one are ignored. */
  function AfterSnapshot(c: Client, p: Profile, packet: Packet): Client {
    if packet.number <= c.last then c
    else
      var kept := Kept(c.history, c.sim.world.number, packet.world.number, p.capacity);
      c.(sim := Reconciled(c.sim, p.setup, p.authoritative, p.localId, kept, packet.world, packet.clock),
         history := kept, last := packet.number, base := packet.number)
  }

  /** The first new host is followed: blocks, power-ups and gates are those of the last stored
      snapshot, and snapshots of any age are accepted again. */
  function AfterNewHost(c: Client, buffered: Option<World>): Client {
    if c.reconnected then c
    else
      c.(reconnected := true, last := 0,
         sim := c.sim.(world := Resynced(c.sim.world, buffered)))
  }

  function AfterIncoming(c: Client, p: Profile, incoming: Incoming): Client {
    match incoming
    case Snapshot(packet) => AfterSnapshot(c, p, packet)
    case NewHost(buffered) => AfterNewHost(c, buffered)
  }

  /** A world sent to a rejoining player replaces the local one; the history is not touched. */
  function AfterSync(c: Client, world: World): Client {
    c.(sim := c.sim.(world := world), last := world.number, base := world.number)
  }

  function AfterStep(c: Client, p: Profile, step: Step): Client {
    match step
    case Synced(world) => AfterSync(c, world)
    case PredictedTick(input, sentAt, clock) => AfterTick(c, p, input, sentAt, clock)
    case EventsCleared => c.(sim := c.sim.(events := []))
    case Received(incoming) => AfterIncoming(c, p, incoming)
    case Told(message) => c.(sim := Replication.Received(c.sim, p.setup, p.localId, message))
  }

  function AfterSteps(c: Client, p: Profile, steps: seq<Step>): Client {
    if steps == [] then c
    else AfterStep(AfterSteps(c, p, steps[..|steps| - 1]), p, steps[|steps| - 1])
  }

  lemma {:induction false} StepsCompose(c: Client, p: Profile, first: seq<Step>, second: seq<Step>)
    ensures AfterSteps(c, p, first + second) == AfterSteps(AfterSteps(c, p, first), p, second)
    decreases |second|
  {
    if second == [] {
      assert first + second == first;
    } else {
      assert (first + second)[..|first + second| - 1] == first + second[..|second| - 1];
      StepsCompose(c, p, first, second[..|second| - 1]);
    }
  }

  lemma OneMoreStep(c: Client, p: Profile, steps: seq<Step>, n: nat)
    requires n < |steps|
    ensures AfterSteps(c, p, steps[..n + 1]) == AfterStep(AfterSteps(c, p, steps[..n]), p, steps[n])
  {
    hide AfterStep;
    assert steps[..n + 1][..n] == steps[..n];
  }

  /** The envelope carries the sequence number of the world inside, as the host sends it. */
  predicate Genuine(packet: Packet) { packet.number == packet.world.number }

  ghost predicate InStep(c: Client, p: Profile) {
    Aligned(c.sim.world.number, c.history, p.capacity, c.base, c.log)
  }

  /** The snapshot is ignored, or the history reaches back to it, or is empty or dropped. */
  predicate ReachesBack(c: Client, p: Profile, packet: Packet) {
    || packet.number <= c.last
    || c.history == []
    || packet.number >= c.sim.world.number - |c.history|
    || Orphaned(c.sim.world.number, packet.number, p.capacity)
  }

  lemma TickKeepsInStep(c: Client, p: Profile, input: Input, sentAt: real, clock: Clock)
    requires InStep(c, p)
    ensures InStep(AfterTick(c, p, input, sentAt, clock), p)
  {
    hide TickBy;
    var call := TickCall(TICK_INTERVAL, map[p.localId := input], map[], clock);
    TickAddsOne(c.sim, p.setup, p.authoritative, call);
    var e := Entry(c.sim.world.number + 1, input, TICK_INTERVAL, sentAt);
    PredictionKeepsAligned(c.sim.world.number, c.history, p.capacity, c.base, c.log, e);
  }

  /** A client in step stays in step with a snapshot exactly when its history reaches back to it. */
  lemma SnapshotKeepsInStepExactly(c: Client, p: Profile, packet: Packet)
    requires InStep(c, p) && Genuine(packet)
    ensures InStep(AfterSnapshot(c, p, packet), p) <==> ReachesBack(c, p, packet)
  {
    var n, h := c.sim.world.number, packet.number;
    if h > c.last {
      if Orphaned(n, h, p.capacity) || c.history == [] {
        RunCounts(c.sim.(world := Rebased(c.sim.world, packet.world)), p.setup, p.authoritative,
            Calls(p.localId, [], packet.clock));
      } else if h >= n - |c.history| {
        ReconcileReplaysTheLog(c.sim, p.setup, p.authoritative, p.localId, c.history, p.capacity, c.base, c.log,
                               packet.world, packet.clock);
      } else {
        SnapshotBeforeHistory(c, p, packet);
      }
    }
  }

  lemma NumberAfterSnapshot(c: Client, p: Profile, packet: Packet)
    requires Genuine(packet) && packet.number > c.last
    ensures var t := AfterSnapshot(c, p, packet);
      && t.history == Kept(c.history, c.sim.world.number, packet.number, p.capacity)
      && t.sim.world.number == packet.number + |t.history| && t.last == t.base == packet.number && t.log == c.log
  {
    hide Run;
    var kept := Kept(c.history, c.sim.world.number, packet.number, p.capacity);
    RunCounts(c.sim.(world := Rebased(c.sim.world, packet.world)), p.setup, p.authoritative,
        Calls(p.localId, kept, packet.clock));
  }

  /** An aligned history that begins later than the snapshot is kept whole, at the wrong numbers. */
  lemma LateHistory(n: int, history: seq<Entry>, capacity: nat, base: int, log: map<int, Entry>, h: int)
    requires Aligned(n, history, capacity, base, log) && history != [] && h < n - |history| && !Orphaned(n, h, capacity)
    ensures Kept(history, n, h, capacity) == history && !Aligned(h + |history|, history, capacity, h, log)
  {
    assert history[0].number == n - |history| + 1;
    assert h + 1 in log ==> history[0] != log[h + 1];
  }

  lemma SnapshotBeforeHistory(c: Client, p: Profile, packet: Packet)
    requires InStep(c, p) && Genuine(packet) && !ReachesBack(c, p, packet)
    ensures var t := AfterSnapshot(c, p, packet);
      && t.history == c.history && t.sim.world.number == packet.number + |c.history| < c.sim.world.number
      && !InStep(t, p) && t.last == packet.number
  {
    hide AfterSnapshot;
    NumberAfterSnapshot(c, p, packet);
    LateHistory(c.sim.world.number, c.history, p.capacity, c.base, c.log, packet.number);
  }

  /** A snapshot is genuine and reached by the history; a world for a rejoining player finds nothing
      predicted. */
  predicate Suits(c: Client, p: Profile, step: Step) {
    match step
    case Synced(_) => c.history == []
    case Received(Snapshot(packet)) => Genuine(packet) && ReachesBack(c, p, packet)
    case _ => true
  }

  /** Every step of the run suits the client at its time. */
  ghost predicate Served(c: Client, p: Profile, steps: seq<Step>) {
    steps == []
    || (var before := steps[..|steps| - 1];
        Served(c, p, before) && Suits(AfterSteps(c, p, before), p, steps[|steps| - 1]))
  }

  lemma StepKeepsInStep(c: Client, p: Profile, step: Step)
    requires InStep(c, p) && Suits(c, p, step)
    ensures InStep(AfterStep(c, p, step), p)
  {
    hide AfterTick, AfterSnapshot, AfterNewHost;
    match step
    case Synced(world) => SyncKeepsInStepExactly(c, p, world);
    case PredictedTick(input, sentAt, clock) => TickKeepsInStep(c, p, input, sentAt, clock);
    case EventsCleared =>
    case Received(Snapshot(packet)) => SnapshotKeepsInStepExactly(c, p, packet);
    case Received(NewHost(buffered)) => NewHostKeepsInStep(c, p, buffered);
    case Told(message) =>
  }

  /** Over every run whose snapshots the history reaches, it holds exactly the consecutive inputs after
      the last accepted one that the capacity allows, whatever the host's events change. */
  lemma {:induction false} RunKeepsInStep(c: Client, p: Profile, steps: seq<Step>)
    requires InStep(c, p) && Served(c, p, steps)
    ensures InStep(AfterSteps(c, p, steps), p)
  {
    if steps != [] {
      var before := steps[..|steps| - 1];
      RunKeepsInStep(c, p, before);
      StepKeepsInStep(AfterSteps(c, p, before), p, steps[|steps| - 1]);
    }
  }

  /** Following a new host and hearing nothing yet changes nothing about the history. */
  lemma NewHostKeepsInStep(c: Client, p: Profile, buffered: Option<World>)
    requires InStep(c, p)
    ensures InStep(AfterNewHost(c, buffered), p)
  {
  }

  /** Without a migration the filter is enough: whatever the order, loss or duplication of snapshots,
      the history always reaches back to the accepted ones. */
  lemma {:induction false} FilterServes(c: Client, p: Profile, steps: seq<Step>)
    requires InStep(c, p) && c.last == c.base
    requires forall i :: 0 <= i < |steps| && steps[i].Received? ==>
        steps[i].incoming.Snapshot? && Genuine(steps[i].incoming.packet)
    requires forall i :: 0 <= i < |steps| ==> !steps[i].Synced?
    ensures Served(c, p, steps) && AfterSteps(c, p, steps).last == AfterSteps(c, p, steps).base
  {
    if steps != [] {
      var before := steps[..|steps| - 1];
      hide AfterTick, AfterNewHost, Reconciled, Replication.Received;
      FilterServes(c, p, before);
      RunKeepsInStep(c, p, before);
    }
  }

  // ---- What a replay does -----------------------------------------------------------------

  /** The clock readings of these ticks. */
  function ClockOf(ticks: seq<Step>): nat -> Clock {
    (i: nat) => if i < |ticks| && ticks[i].PredictedTick? then ticks[i].clock else Clock(0.0, 0.0, 0.0, 0.0, 0.0)
  }

  /** The entries of further predictions, numbered on from n. */
  function Predicted(n: int, ticks: seq<Step>): (r: seq<Entry>)
    requires forall i :: 0 <= i < |ticks| ==> ticks[i].PredictedTick?
    ensures |r| == |ticks| && forall i :: 0 <= i < |ticks| ==> r[i].number == n + 1 + i
  {
    seq(|ticks|, i requires 0 <= i < |ticks| => Entry(n + 1 + i, ticks[i].input, TICK_INTERVAL, ticks[i].sentAt))
  }

  /** Replaying what predicted ticks recorded, from where they began, ends where they ended: each tick
      is replayed with its own input. */
  lemma {:induction false} ReplayRepeatsThePrediction(c: Client, p: Profile, ticks: seq<Step>)
    requires forall i :: 0 <= i < |ticks| ==> ticks[i].PredictedTick?
    ensures AfterSteps(c, p, ticks).sim
         == Run(c.sim, p.setup, p.authoritative, Calls(p.localId, Predicted(c.sim.world.number, ticks), ClockOf(ticks)))
  {
    hide TickBy;
    var calls := Calls(p.localId, Predicted(c.sim.world.number, ticks), ClockOf(ticks));
    if ticks != [] {
      var n := |ticks| - 1;
      ReplayRepeatsThePrediction(c, p, ticks[..n]);
      assert calls[..n] == Calls(p.localId, Predicted(c.sim.world.number, ticks[..n]), ClockOf(ticks[..n]));
    }
  }

  /** The log holds these entries under the numbers after h. */
  ghost predicate Recorded(log: map<int, Entry>, h: int, entries: seq<Entry>) {
    forall k :: h < k <= h + |entries| ==> k in log && log[k] == entries[k - h - 1]
  }

  /** A predicted tick moves the local player as the predicted input says, where nothing is in the way. */
  lemma PredictionMovesThePlayer(c: Client, p: Profile, input: Input, sentAt: real, clock: Clock, i: nat, q: Player)
    requires !p.authoritative && !c.sim.world.victory
    requires i < |c.sim.world.players| && c.sim.world.players[i].id == p.localId
    requires Movement.Glides(c.sim.world.players[i], q, input, TICK_INTERVAL)
    requires Movement.OpenSpace(q, c.sim.world, p.setup)
    ensures var t := AfterTick(c, p, input, sentAt, clock).sim.world;
      |t.players| == |c.sim.world.players| && t.players[i] == q.(effectExpiresAt := t.players[i].effectExpiresAt)
  {
    hide TickBy;
    Movement.FreeTick(c.sim, p.setup, TickCall(TICK_INTERVAL, map[p.localId := input], map[], clock), i, q);
  }

  /** Predicted ticks log their inputs under consecutive numbers. */
  lemma {:induction false} TicksAreLogged(c: Client, p: Profile, ticks: seq<Step>)
    requires forall i :: 0 <= i < |ticks| ==> ticks[i].PredictedTick?
    ensures AfterSteps(c, p, ticks).sim.world.number == c.sim.world.number + |ticks|
    ensures Recorded(AfterSteps(c, p, ticks).log, c.sim.world.number, Predicted(c.sim.world.number, ticks))
  {
    if ticks == [] {
      assert Recorded(c.log, c.sim.world.number, []);
    } else {
      hide AfterSteps, AfterStep, Recorded, Predicted;
      var n := |ticks| - 1;
      TicksAreLogged(c, p, ticks[..n]);
      OneMoreStep(c, p, ticks, n);
      assert ticks[..n + 1] == ticks;
      OneMoreIsLogged(c.sim.world.number, AfterSteps(c, p, ticks[..n]), p, ticks);
    }
  }

  lemma OneMoreIsLogged(h: int, before: Client, p: Profile, ticks: seq<Step>)
    requires ticks != [] && forall i :: 0 <= i < |ticks| ==> ticks[i].PredictedTick?
    requires before.sim.world.number == h + |ticks| - 1 && Recorded(before.log, h, Predicted(h, ticks[..|ticks| - 1]))
    ensures var t := AfterStep(before, p, ticks[|ticks| - 1]);
      t.sim.world.number == h + |ticks| && Recorded(t.log, h, Predicted(h, ticks))
  {
    hide AfterStep, Recorded, Predicted;
    var n := |ticks| - 1;
    TickIsLogged(before, p, ticks[n]);
    PredictedOneMore(h, ticks);
    var number := before.sim.world.number + 1;
    var entry := Entry(number, ticks[n].input, TICK_INTERVAL, ticks[n].sentAt);
    RecordedOneMore(before.log, h, Predicted(h, ticks[..n]), number, entry);
    assert Predicted(h, ticks[..n]) + [entry] == Predicted(h, ticks);
  }

  lemma PredictedOneMore(h: int, ticks: seq<Step>)
    requires ticks != [] && forall i :: 0 <= i < |ticks| ==> ticks[i].PredictedTick?
    ensures var n := |ticks| - 1;
      Predicted(h, ticks) == Predicted(h, ticks[..n])
          + [Entry(h + n + 1, ticks[n].input, TICK_INTERVAL, ticks[n].sentAt)]
  {
  }

  lemma RecordedOneMore(log: map<int, Entry>, h: int, entries: seq<Entry>, n: int, e: Entry)
    requires Recorded(log, h, entries) && n == h + |entries| + 1
    ensures Recorded(log[n := e], h, entries + [e])
  {
  }

  lemma RecordedIsLogged(log: map<int, Entry>, h: int, entries: seq<Entry>)
    requires Recorded(log, h, entries) && forall k :: h < k <= h + |entries| ==> k in log
    ensures Logged(log, h, h + |entries|) == entries
  {
  }

  lemma TickIsLogged(c: Client, p: Profile, tick: Step)
    requires tick.PredictedTick?
    ensures var t, n := AfterStep(c, p, tick), c.sim.world.number + 1;
      t.sim.world.number == n && t.log == c.log[n := Entry(n, tick.input, TICK_INTERVAL, tick.sentAt)]
  {
    hide TickBy;
    TickAddsOne(c.sim, p.setup, p.authoritative,
                TickCall(TICK_INTERVAL, map[p.localId := tick.input], map[], tick.clock));
  }

  /** A client predicts some ticks. If the snapshot of the number it began at agrees with what it had
      there, and the ticks have left the environment as it was, then the snapshot leaves it where it is. */
  lemma AgreeingSnapshotIsInvisible(c: Client, p: Profile, ticks: seq<Step>, packet: Packet)
    requires !p.authoritative && InStep(c, p) && Genuine(packet) && packet.number == c.sim.world.number
    requires forall i :: 0 <= i < |ticks| ==> ticks[i].PredictedTick?
    requires |ticks| <= p.capacity && AlikeWorlds(c.sim.world, Rebased(c.sim.world, packet.world))
    requires SameEnvironment(c.sim.world, AfterSteps(c, p, ticks).sim.world)
    ensures var t := AfterSteps(c, p, ticks); AlikeWorlds(t.sim.world, AfterSnapshot(t, p, packet).sim.world)
  {
    hide Run, TickBy, SameEnvironment;
    var n, t := c.sim.world.number, AfterSteps(c, p, ticks);
    TicksAreServed(c, p, ticks);
    RunKeepsInStep(c, p, ticks);
    TicksAreLogged(c, p, ticks);
    RecordedIsLogged(t.log, n, Predicted(n, ticks));
    ReplayRepeatsThePrediction(c, p, ticks);
    if packet.number > t.last {
      AgreeingReplay(c.sim, t.sim, p.setup, p.localId, t.history, p.capacity, t.base, t.log, packet.world,
                     ClockOf(ticks), packet.clock);
    } else {
      AlikeToItself(t.sim.world);
    }
  }

  lemma {:induction false} TicksAreServed(c: Client, p: Profile, ticks: seq<Step>)
    requires forall i :: 0 <= i < |ticks| ==> ticks[i].PredictedTick?
    ensures Served(c, p, ticks) && AfterSteps(c, p, ticks).base == c.base && AfterSteps(c, p, ticks).last == c.last
  {
    if ticks != [] { TicksAreServed(c, p, ticks[..|ticks| - 1]); }
  }

  lemma AlikeToItself(w: World)
    ensures AlikeWorlds(w, w)
  {
  }

  /** Every recorded tick has the fixed length, in every run from an empty history. */
  predicate TickLong(history: seq<Entry>) { forall i :: 0 <= i < |history| ==> history[i].dt == TICK_INTERVAL }

  lemma {:induction false} RunKeepsTickLong(c: Client, p: Profile, steps: seq<Step>)
    requires TickLong(c.history)
    ensures TickLong(AfterSteps(c, p, steps).history)
  {
    if steps != [] {
      hide AfterStep, TickLong;
      RunKeepsTickLong(c, p, steps[..|steps| - 1]);
      StepKeepsTickLong(AfterSteps(c, p, steps[..|steps| - 1]), p, steps[|steps| - 1]);
    }
  }

  lemma StepKeepsTickLong(c: Client, p: Profile, step: Step)
    requires TickLong(c.history)
    ensures TickLong(AfterStep(c, p, step).history)
  {
    hide TickBy, Reconciled, Replication.Received;
  }

  /** What an accepted snapshot does, told without a replay: the client is where one would be that
      starts at the snapshot with the same environment and predicts the kept inputs again. */
  lemma SnapshotPredictsAgain(c: Client, p: Profile, packet: Packet, again: seq<Step>)
    requires packet.number > c.last && Genuine(packet) && TickLong(c.history)
    requires var kept := Kept(c.history, c.sim.world.number, packet.number, p.capacity);
      && |again| == |kept|
      && forall i :: 0 <= i < |again| ==> again[i] == PredictedTick(kept[i].input, kept[i].sentAt, packet.clock(i))
    ensures var rebased := c.(sim := c.sim.(world := Rebased(c.sim.world, packet.world)));
      AfterSnapshot(c, p, packet).sim == AfterSteps(rebased, p, again).sim
  {
    hide Run;
    var rebased := c.(sim := c.sim.(world := Rebased(c.sim.world, packet.world)));
    var kept := Kept(c.history, c.sim.world.number, packet.number, p.capacity);
    ReplayRepeatsThePrediction(rebased, p, again);
    assert Calls(p.localId, kept, packet.clock)
        == Calls(p.localId, Predicted(packet.number, again), ClockOf(again));
  }

  // ---- Losing ticks in a migration, and finding step again ----------------------------------

  /** Five inputs from number 100 on make the history 101 to 105. A new host is followed, it resumes
      at 99, and one tick is lost. */
  lemma MigrationCanLoseATick(sim: Sim, p: Profile, ticks: seq<Step>, packet: Packet)
    requires sim.world.number == 100 && p.capacity == INPUT_HISTORY_SIZE && packet.number == 99 && Genuine(packet)
    requires |ticks| == 5 && forall i :: 0 <= i < 5 ==> ticks[i].PredictedTick?
    ensures var c := AfterNewHost(AfterSteps(Client(sim, [], 100, 100, map[], false), p, ticks), None);
      && InStep(c, p) && c.sim.world.number == 105 && |c.history| == 5
      && AfterSnapshot(c, p, packet).sim.world.number == 104 && !InStep(AfterSnapshot(c, p, packet), p)
  {
    hide AfterSteps, AfterSnapshot, Served;
    var start := Client(sim, [], 100, 100, map[], false);
    FilterServes(start, p, ticks);
    RunKeepsInStep(start, p, ticks);
    TicksNumberOn(start, p, ticks);
    SnapshotBeforeHistory(AfterNewHost(AfterSteps(start, p, ticks), None), p, packet);
  }

  /** In step with some log. */
  ghost predicate Realigned(c: Client, p: Profile) {
    exists log :: Aligned(c.sim.world.number, c.history, p.capacity, c.base, log)
  }

  /** The entries carry the numbers after h, one by one. */
  predicate Consecutive(entries: seq<Entry>, h: int) {
    forall i :: 0 <= i < |entries| ==> entries[i].number == h + 1 + i
  }

  ghost function LogOf(entries: seq<Entry>, h: int): (log: map<int, Entry>)
    ensures forall k :: k in log <==> h < k <= h + |entries|
    ensures forall k :: k in log ==> log[k] == entries[k - h - 1]
  {
    if entries == [] then map[]
    else var n := |entries| - 1; LogOf(entries[..n], h)[h + 1 + n := entries[n]]
  }

  ghost predicate AlignedAfter(entries: seq<Entry>, h: int, capacity: nat, log: map<int, Entry>) {
    Aligned(h + |entries|, entries, capacity, h, log)
  }

  lemma AlignedForSomeLog(entries: seq<Entry>, h: int, capacity: nat)
    requires |entries| <= capacity
    ensures (exists log :: AlignedAfter(entries, h, capacity, log)) <==> Consecutive(entries, h)
  {
    if log :| AlignedAfter(entries, h, capacity, log) {
      forall i | 0 <= i < |entries| ensures entries[i].number == h + 1 + i { assert entries[i] == log[h + 1 + i]; }
    }
    if Consecutive(entries, h) { assert AlignedAfter(entries, h, capacity, LogOf(entries, h)); }
  }

  /** Any client, in step or not, is in step after an accepted snapshot exactly when the entries it
      keeps are numbered on from that snapshot; keeping none is enough. */
  lemma RealignedExactly(c: Client, p: Profile, packet: Packet)
    requires Genuine(packet) && packet.number > c.last && |c.history| <= p.capacity
    ensures Realigned(AfterSnapshot(c, p, packet), p) <==>
              Consecutive(Kept(c.history, c.sim.world.number, packet.number, p.capacity), packet.number)
  {
    hide AfterSnapshot;
    NumberAfterSnapshot(c, p, packet);
    var t := AfterSnapshot(c, p, packet);
    assert forall log :: AlignedAfter(t.history, packet.number, p.capacity, log)
                    <==> Aligned(t.sim.world.number, t.history, p.capacity, t.base, log);
    AlignedForSomeLog(t.history, packet.number, p.capacity);
  }

  /** A history of m entries up to number n, followed by entries numbered on from a smaller number:
      what snapshot h leaves of it is consecutive exactly when h reaches n. */
  lemma OldEntriesInTheWay(entries: seq<Entry>, m: nat, n: int, l: int, h: int)
    requires 0 < m < |entries| && l < n - m
    requires forall i :: 0 <= i < m ==> entries[i].number == n - m + 1 + i
    requires forall i :: m <= i < |entries| ==> entries[i].number == l + 1 + i
    ensures Consecutive(Unacknowledged(entries, h), h) <==> h >= n
  {
    var drop := AcknowledgedFrom(entries, h, 0);
    var kept := entries[drop..];
    assert forall i :: 0 <= i < |kept| ==> kept[i] == entries[drop + i];
    if h < n {
      OldestStays(entries, m, n, h);
      assert kept[0].number == n - m + 1 + drop;
      assert kept[m - drop].number == l + 1 + m;
    } else {
      OldestGo(entries, m, n, h);
      assert drop < |entries| ==> entries[drop].number > h;
      if drop > m { assert entries[drop - 1].number <= h; }
    }
  }

  lemma OldestStays(entries: seq<Entry>, m: nat, n: int, h: int)
    requires 0 < m < |entries| && h < n && forall i :: 0 <= i < m ==> entries[i].number == n - m + 1 + i
    ensures AcknowledgedFrom(entries, h, 0) < m
  {
    assert entries[m - 1].number > h;
  }

  lemma OldestGo(entries: seq<Entry>, m: nat, n: int, h: int)
    requires 0 < m < |entries| && h >= n && forall i :: 0 <= i < m ==> entries[i].number == n - m + 1 + i
    ensures AcknowledgedFrom(entries, h, 0) >= m
  {
    var drop := AcknowledgedFrom(entries, h, 0);
    assert forall i :: 0 <= i < m ==> entries[i].number <= h;
  }

  /** After a snapshot lost ticks and further ticks were predicted, the next snapshot brings the client
      back in step exactly when it reaches the number the client had before, finds nothing but new
      entries, or is so old that the history is dropped. */
  lemma StepIsFoundAgainExactly(c: Client, p: Profile, lost: Packet, ticks: seq<Step>, next: Packet)
    requires InStep(c, p) && Genuine(lost) && !ReachesBack(c, p, lost)
    requires ticks != [] && forall i :: 0 <= i < |ticks| ==> ticks[i].PredictedTick?
    requires Genuine(next) && next.number > lost.number
    ensures Realigned(AfterSnapshot(AfterSteps(AfterSnapshot(c, p, lost), p, ticks), p, next), p)
       <==> || next.number >= c.sim.world.number
            || |ticks| >= p.capacity
            || Orphaned(lost.number + |c.history| + |ticks|, next.number, p.capacity)
  {
    hide AfterSnapshot, AfterSteps, InStep, Realigned, ReachesBack, Newest, Predicted, Consecutive, Kept;
    SnapshotBeforeHistory(c, p, lost);
    OldestAreConsecutive(c, p, lost);
    var behind := AfterSnapshot(c, p, lost);
    TicksNumberOn(behind, p, ticks);
    RealignedExactly(AfterSteps(behind, p, ticks), p, next);
    KeptIsConsecutiveExactly(c.history, c.sim.world.number, lost.number, ticks, p.capacity, next.number);
  }

  lemma OldestAreConsecutive(c: Client, p: Profile, lost: Packet)
    requires InStep(c, p) && !ReachesBack(c, p, lost)
    ensures 0 < |c.history| <= p.capacity && lost.number < c.sim.world.number - |c.history|
    ensures forall i :: 0 <= i < |c.history| ==> c.history[i].number == c.sim.world.number - |c.history| + 1 + i
  {
  }

  /** The same about the entries alone: m of them up to n, then further ones from l + m on. */
  lemma KeptIsConsecutiveExactly(history: seq<Entry>, n: int, l: int, ticks: seq<Step>, capacity: nat, h: int)
    requires 0 < |history| <= capacity && l < n - |history| && l < h
    requires ticks != [] && forall i :: 0 <= i < |ticks| ==> ticks[i].PredictedTick?
    requires forall i :: 0 <= i < |history| ==> history[i].number == n - |history| + 1 + i
    ensures var ahead := l + |history| + |ticks|;
      Consecutive(Kept(Newest(history + Predicted(l + |history|, ticks), capacity), ahead, h, capacity), h)
      <==> h >= n || |ticks| >= capacity || Orphaned(ahead, h, capacity)
  {
    hide Newest, Consecutive, Unacknowledged, Predicted;
    var m, k := |history|, |ticks|;
    var entries := Newest(history + Predicted(l + m, ticks), capacity);
    var left := AheadShape(history, n, l, ticks, capacity);
    if Orphaned(l + m + k, h, capacity) {
      NoneIsConsecutive(h);
    } else if left > 0 {
      OldEntriesInTheWay(entries, left, n, l + m - left, h);
    } else {
      NewEntriesSuffice(entries, l + m + k, h);
    }
  }

  lemma NoneIsConsecutive(h: int)
    ensures Consecutive([], h)
  {
  }

  /** How many old entries are left, and what numbers the history then holds. */
  lemma AheadShape(history: seq<Entry>, n: int, l: int, ticks: seq<Step>, capacity: nat) returns (left: nat)
    requires |history| <= capacity && forall i :: 0 <= i < |history| ==> history[i].number == n - |history| + 1 + i
    requires forall i :: 0 <= i < |ticks| ==> ticks[i].PredictedTick?
    ensures left == (if |ticks| >= capacity then 0
                     else if |history| <= capacity - |ticks| then |history| else capacity - |ticks|)
    ensures var entries := Newest(history + Predicted(l + |history|, ticks), capacity);
      && |entries| == left + (if |ticks| <= capacity then |ticks| else capacity)
      && (forall i :: 0 <= i < left ==> entries[i].number == n - left + 1 + i)
      && (forall i :: left <= i < |entries| ==> entries[i].number == l + |history| + |ticks| - |entries| + 1 + i)
  {
    hide Predicted;
    left := if |ticks| >= capacity then 0
            else if |history| <= capacity - |ticks| then |history| else capacity - |ticks|;
    var all := history + Predicted(l + |history|, ticks);
    var entries := Newest(all, capacity);
    forall i | 0 <= i < |entries| ensures entries[i] == all[|all| - |entries| + i] {}
  }

  /** Entries numbered up to n without a gap are consecutive after whatever a snapshot they reach drops. */
  lemma NewEntriesSuffice(entries: seq<Entry>, n: int, h: int)
    requires forall i :: 0 <= i < |entries| ==> entries[i].number == n - |entries| + 1 + i
    requires h >= n - |entries|
    ensures Consecutive(Unacknowledged(entries, h), h)
  {
    var drop := AcknowledgedFrom(entries, h, 0);
    if drop > 0 { assert entries[drop - 1].number <= h; }
  }

  /** Predicted ticks append entries numbered on from the client's number, the oldest ones leaving a
      full history. */
  lemma {:induction false} TicksNumberOn(c: Client, p: Profile, ticks: seq<Step>)
    requires |c.history| <= p.capacity && forall i :: 0 <= i < |ticks| ==> ticks[i].PredictedTick?
    ensures var t := AfterSteps(c, p, ticks);
      && t.sim.world.number == c.sim.world.number + |ticks| && t.last == c.last && t.base == c.base &&
           t.reconnected == c.reconnected
      && t.history == Newest(c.history + Predicted(c.sim.world.number, ticks), p.capacity)
  {
    hide AfterStep, Newest;
    var n, entries := |ticks| - 1, Predicted(c.sim.world.number, ticks);
    if ticks == [] {
      assert c.history + entries == c.history;
      NotFull(c.history, p.capacity);
    } else {
      var before := c.history + Predicted(c.sim.world.number, ticks[..n]);
      TicksNumberOn(c, p, ticks[..n]);
      TickNumbersOn(AfterSteps(c, p, ticks[..n]), p, ticks[n]);
      assert c.history + entries == before + [entries[n]];
      NewestOfNewest(before, entries[n], p.capacity);
    }
  }

  lemma NotFull(entries: seq<Entry>, capacity: nat)
    requires |entries| <= capacity
    ensures Newest(entries, capacity) == entries
  {
  }

  lemma NewestOfNewest(entries: seq<Entry>, e: Entry, capacity: nat)
    ensures Newest(Newest(entries, capacity) + [e], capacity) == Newest(entries + [e], capacity)
  {
  }

  lemma TickNumbersOn(c: Client, p: Profile, tick: Step)
    requires tick.PredictedTick?
    ensures var t := AfterStep(c, p, tick);
      && t.sim.world.number == c.sim.world.number + 1
      && t.history == Newest(c.history + [Entry(c.sim.world.number + 1, tick.input, TICK_INTERVAL, tick.sentAt)],
           p.capacity)
      && t.last == c.last && t.base == c.base && t.reconnected == c.reconnected
  {
    hide Simulation.Tick;
    TickAddsOne(c.sim, p.setup, p.authoritative,
        TickCall(TICK_INTERVAL, map[p.localId := tick.input], map[], tick.clock));
  }

  // ---- A world sent to a rejoining player ---------------------------------------------------

  /** A client in step stays in step exactly when it has nothing predicted. */
  lemma SyncKeepsInStepExactly(c: Client, p: Profile, world: World)
    requires InStep(c, p)
    ensures InStep(AfterSync(c, world), p) <==> c.history == []
  {
  }

  /** The world sent counts as the newest snapshot: none up to its number is accepted after it, and every
      later one is. */
  lemma SyncIsTheNewestSnapshot(c: Client, p: Profile, world: World, packet: Packet)
    ensures var t := AfterSync(c, world);
      && t.sim.world == world && t.history == c.history
      && (packet.number <= world.number ==> AfterSnapshot(t, p, packet) == t)
      && (packet.number > world.number ==> AfterSnapshot(t, p, packet).last == packet.number)
  {
  }

  /** One input predicted before the world arrives is enough. */
  lemma SyncAfterAnInputIsOutOfStep(sim: Sim, p: Profile, input: Input, sentAt: real, clock: Clock, world: World)
    requires p.capacity == INPUT_HISTORY_SIZE
    ensures var start := Client(sim, [], sim.world.number, sim.world.number, map[], false);
      var c := AfterTick(start, p, input, sentAt, clock);
      InStep(start, p) && InStep(c, p) && !InStep(AfterSync(c, world), p)
  {
    var start := Client(sim, [], sim.world.number, sim.world.number, map[], false);
    TickKeepsInStep(start, p, input, sentAt, clock);
    SyncKeepsInStepExactly(AfterTick(start, p, input, sentAt, clock), p, world);
  }

  // ---- The prediction lead ----------------------------------------------------------------

  /** Unacknowledged inputs, calibrated baseline, calibration frames left, ticks to add next frame. */
  datatype Lead = Lead(pending: nat, baseline: real, remaining: int, adjustment: int)

  function Adjusted(l: Lead): Lead {
    var deviation := l.pending as real - l.baseline;
    var left := if l.remaining > 0 then l.remaining - 1 else l.remaining;
    if deviation > PREDICTION_LEAD_DRIFT_TOLERANCE then l.(adjustment := -1, remaining := left)
    else if deviation < -PREDICTION_LEAD_DRIFT_TOLERANCE then l.(adjustment := 1, remaining := left)
    else if l.remaining > 0
    then l.(baseline := l.baseline + deviation * PREDICTION_LEAD_EWMA_ALPHA, remaining := left)
    else l
  }

  function Recalibrated(l: Lead): Lead {
    l.(baseline := 0.0, remaining := PREDICTION_LEAD_CALIBRATION_FRAMES)
  }

  /** Each calibration frame can lift the baseline by at most 3% of a tick. */
  predicate Bounded(l: Lead) {
    && 0 <= l.remaining <= PREDICTION_LEAD_CALIBRATION_FRAMES
    && 0.0 <= l.baseline <= 0.03 * (PREDICTION_LEAD_CALIBRATION_FRAMES - l.remaining) as real
    && l.pending <= 7
  }

  /** Between frames: an uncorrected lead leaves room for one more tick, a doubled tick follows an
      empty history only. */
  predicate Settled(l: Lead) {
    && Bounded(l)
    && -1 <= l.adjustment <= 1
    && (l.adjustment == 0 ==> l.pending <= 6)
    && (l.adjustment == 1 ==> l.pending == 0)
  }

  lemma AdjustmentSettles(l: Lead)
    requires Bounded(l) && l.adjustment == 0
    ensures Settled(Adjusted(l)) && Adjusted(l).pending == l.pending
  {
    var deviation := l.pending as real - l.baseline;
    assert l.baseline <= 3.6;
    if -3.0 <= deviation <= 3.0 && l.remaining > 0 {
      var next := Adjusted(l);
      assert next.baseline == l.baseline * 0.99 + l.pending as real * 0.01;
      assert next.baseline <= l.baseline + 0.03;
      assert (PREDICTION_LEAD_CALIBRATION_FRAMES - next.remaining) as real
          == (PREDICTION_LEAD_CALIBRATION_FRAMES - l.remaining) as real + 1.0;
    }
  }

  /** What a frame does to the lead: the ticks, then acknowledgements and recalibrations in any
      order, then the adjustment. */
  datatype LeadInput = Acknowledge(count: nat) | Recalibrate

  function Ticked(l: Lead): Lead
    requires l.adjustment >= -1
  {
    l.(pending := l.pending + 1 + l.adjustment, adjustment := 0)
  }

  function Heard(l: Lead, input: LeadInput): Lead {
    match input
    case Acknowledge(n) => l.(pending := if n <= l.pending then l.pending - n else 0)
    case Recalibrate => Recalibrated(l)
  }

  function HeardAll(l: Lead, inputs: seq<LeadInput>): Lead
  {
    if inputs == [] then l else Heard(HeardAll(l, inputs[..|inputs| - 1]), inputs[|inputs| - 1])
  }

  function Frame(l: Lead, inputs: seq<LeadInput>): Lead
    requires l.adjustment >= -1
  {
    Adjusted(HeardAll(Ticked(l), inputs))
  }

  lemma {:induction false} HearingKeepsBounds(l: Lead, inputs: seq<LeadInput>)
    requires Bounded(l)
    ensures Bounded(HeardAll(l, inputs)) && HeardAll(l, inputs).adjustment == l.adjustment
  {
    if inputs != [] { HearingKeepsBounds(l, inputs[..|inputs| - 1]); }
  }

  function Frames(l: Lead, frames: seq<seq<LeadInput>>): (r: Lead)
    requires Settled(l)
    ensures Settled(r)
  {
    if frames == [] then l
    else
      var before := Frames(l, frames[..|frames| - 1]);
      FrameSettles(before, frames[|frames| - 1]);
      Frame(before, frames[|frames| - 1])
  }

  lemma FrameSettles(l: Lead, inputs: seq<LeadInput>)
    requires Settled(l)
    ensures Settled(Frame(l, inputs))
  {
    HearingKeepsBounds(Ticked(l), inputs);
    AdjustmentSettles(HeardAll(Ticked(l), inputs));
  }

  /** From a fresh start, whatever is acknowledged and however often calibration restarts, the
      baseline stays in [0, 3.6] and the lead never exceeds 7 ticks, so the history of 60 entries
      never overflows. */
  lemma LeadStaysBounded(frames: seq<seq<LeadInput>>)
    ensures var l := Frames(Lead(0, 0.0, PREDICTION_LEAD_CALIBRATION_FRAMES, 0), frames);
            0.0 <= l.baseline <= 3.6 && l.pending <= 7 < INPUT_HISTORY_SIZE
  {
    var l := Frames(Lead(0, 0.0, PREDICTION_LEAD_CALIBRATION_FRAMES, 0), frames);
    assert Settled(l);
  }

  // ---- Calibration --------------------------------------------------------------------------

  function Power(base: real, n: nat): real { if n == 0 then 1.0 else Power(base, n - 1) * base }

  /** n frames with one acknowledgement each. */
  function Held(l: Lead, n: nat): (r: Lead)
    requires l.adjustment == 0
    ensures r.adjustment >= -1
  {
    if n == 0 then l
    else
      var before := Held(l, n - 1);
      OneAcknowledgement(before);
      Frame(before, [Acknowledge(1)])
  }

  lemma OneAcknowledgement(l: Lead)
    requires l.adjustment >= -1
    ensures Frame(l, [Acknowledge(1)]) == Adjusted(Heard(Ticked(l), Acknowledge(1)))
    ensures Frame(l, [Acknowledge(1)]).adjustment >= -1
  {
    var one: seq<LeadInput> := [Acknowledge(1)];
    assert one[..0] == [] && HeardAll(Ticked(l), []) == Ticked(l);
  }

  predicate InBand(deviation: real) { -PREDICTION_LEAD_DRIFT_TOLERANCE <= deviation <= PREDICTION_LEAD_DRIFT_TOLERANCE }

  lemma CalibrationStep(l: Lead)
    requires l.adjustment == 0 && l.remaining > 0 && InBand(l.pending as real - l.baseline)
    ensures var m := Frame(l, [Acknowledge(1)]);
      && m.pending == l.pending && m.adjustment == 0 && m.remaining == l.remaining - 1
      && l.pending as real - m.baseline == (l.pending as real - l.baseline) * 0.99
  {
    OneAcknowledgement(l);
  }

  /** After n frames of calibration the baseline is this part of the way still away from the lead. */
  predicate Approached(l: Lead, m: Lead, n: nat, power: real) {
    && m.pending == l.pending && m.adjustment == 0 && m.remaining == l.remaining - n && 0.0 < power <= 1.0
    && l.pending as real - m.baseline == (l.pending as real - l.baseline) * power
  }

  lemma OneMoreApproach(l: Lead, m: Lead, n: nat, power: real)
    requires Approached(l, m, n, power) && n < l.remaining && InBand(l.pending as real - l.baseline)
    ensures Approached(l, Frame(m, [Acknowledge(1)]), n + 1, power * 0.99)
  {
    hide Frame;
    Shrinks(l.pending as real - l.baseline, power);
    CalibrationStep(m);
  }

  /** While calibration lasts and the lead stays inside the band, each frame brings the baseline one
      hundredth of the way towards the lead: a constant lead is approached geometrically. */
  lemma {:induction false} CalibrationApproaches(l: Lead, n: nat)
    requires l.adjustment == 0 && n <= l.remaining && InBand(l.pending as real - l.baseline)
    ensures Approached(l, Held(l, n), n, Power(0.99, n))
    decreases n
  {
    if n > 0 {
      hide Frame, InBand, Approached;
      CalibrationApproaches(l, n - 1);
      OneMoreApproach(l, Held(l, n - 1), n - 1, Power(0.99, n - 1));
    }
  }

  lemma Shrinks(d: real, power: real)
    requires InBand(d) && 0.0 < power <= 1.0
    ensures InBand(d * power) && (d * power) * 0.99 == d * (power * 0.99) && 0.0 < power * 0.99 <= 1.0
  {
    if d >= 0.0 { Smaller(d, power); } else { Smaller(-d, power); }
    assert (-d) * power == -(d * power);
  }

  lemma Smaller(d: real, power: real)
    requires d >= 0.0 && 0.0 < power <= 1.0
    ensures 0.0 <= d * power <= d
  {
  }

  // ---- Draining a backlog -----------------------------------------------------------------

  /** How far the lead is outside the tolerance band. */
  function Excess(l: Lead): real {
    var deviation := l.pending as real - l.baseline;
    if deviation > PREDICTION_LEAD_DRIFT_TOLERANCE then deviation - PREDICTION_LEAD_DRIFT_TOLERANCE
    else if deviation < -PREDICTION_LEAD_DRIFT_TOLERANCE then -PREDICTION_LEAD_DRIFT_TOLERANCE - deviation
    else 0.0
  }

  /** The controller has just reacted to this lead and the baseline is frozen. */
  predicate Frozen(l: Lead) {
    l.remaining == 0 && l.baseline >= 0.0 && Adjusted(l.(adjustment := 0)) == l
  }

  lemma SteadyFrameApproaches(l: Lead)
    requires Frozen(l)
    ensures var m := Frame(l, [Acknowledge(1)]);
            Frozen(m) && m.baseline == l.baseline && Excess(m) == Max(0.0, Excess(l) - 1.0)
            && (Excess(l) == 0.0 ==> m == l)
  {
    var t := Ticked(l);
    var one := [Acknowledge(1)];
    assert one[..0] == [];
    assert HeardAll(t, one) == Heard(HeardAll(t, []), Acknowledge(1));
    var h := HeardAll(t, one);
    assert h.adjustment == 0 && h.baseline == l.baseline;
  }

  /** n frames with one acknowledgement each, calibration over. */
  function Steady(l: Lead, n: nat): Lead
    requires Frozen(l)
    decreases n
  {
    if n == 0 then l
    else
      SteadyFrameApproaches(l);
      Steady(Frame(l, [Acknowledge(1)]), n - 1)
  }

  /** A lead outside the band returns in exactly as many frames as the excess rounded up, and once
      inside it does not move any more. */
  lemma {:induction false} BacklogDrains(l: Lead, n: nat)
    requires Frozen(l)
    ensures var m := Steady(l, n);
            Frozen(m) && m.baseline == l.baseline && Excess(m) == Max(0.0, Excess(l) - n as real)
    ensures Excess(l) == 0.0 ==> Steady(l, n) == l
    decreases n
  {
    if n > 0 {
      SteadyFrameApproaches(l);
      var m := Frame(l, [Acknowledge(1)]);
      BacklogDrains(m, n - 1);
      assert (n - 1) as real == n as real - 1.0;
    }
  }

  /** Python's `range(1 + adjustment)`: nothing for a negative count. */
  function TickCount(adjustment: int): nat { if adjustment < -1 then 0 else 1 + adjustment }

  /** The predicted ticks of one frame. */
  function Ticks(adjustment: int, input: Input, sentAt: real, clock: nat -> Clock): (steps: seq<Step>)
    ensures |steps| == TickCount(adjustment) && forall i :: 0 <= i < |steps| ==>
        steps[i] == PredictedTick(input, sentAt, clock(i))
  {
    seq(TickCount(adjustment), i requires 0 <= i => PredictedTick(input, sentAt, clock(i)))
  }

  lemma {:induction false} TicksGrowHistory(c: Client, p: Profile, steps: seq<Step>)
    requires forall i :: 0 <= i < |steps| ==> steps[i].PredictedTick?
    requires |c.history| + |steps| <= p.capacity
    ensures |AfterSteps(c, p, steps).history| == |c.history| + |steps|
  {
    if steps != [] { TicksGrowHistory(c, p, steps[..|steps| - 1]); }
  }

  // ---- The frame loop as an object --------------------------------------------------------

  class ClientLoop {
    const prediction: PredictionEngine
    var lastSnapshotSequence: int
    var reconnected: bool
    var pendingTickAdjustment: int
    var baseline: real
    var calibrationRemaining: int
    ghost var base: int
    ghost var log: map<int, Entry>

    ghost function Fixed(): Profile
      reads prediction.engine`isAuthoritative
    {
      Profile(prediction.engine.setup, prediction.engine.isAuthoritative,
                              prediction.localPlayerId, prediction.buffer.capacity)
    }

    ghost function State(): Client
      reads this, prediction.engine, prediction.buffer
    {
      Client(prediction.engine.Sim(), prediction.buffer.entries, lastSnapshotSequence, base, log, reconnected)
    }

    ghost function LeadNow(): Lead
      reads this, prediction.buffer
    {
      Lead(|prediction.buffer.entries|, baseline, calibrationRemaining, pendingTickAdjustment)
    }

    /** A client with nothing predicted yet. */
    constructor (prediction: PredictionEngine)
      requires prediction.buffer.entries == [] && prediction.engine.world.number == 0
      ensures this.prediction == prediction && Settled(LeadNow()) && InStep(State(), Fixed())
      ensures lastSnapshotSequence == base == 0 && !reconnected
    {
      this.prediction := prediction;
      lastSnapshotSequence, reconnected, pendingTickAdjustment := 0, false, 0;
      baseline, calibrationRemaining := 0.0, PREDICTION_LEAD_CALIBRATION_FRAMES;
      base, log := 0, map[];
    }

    method PredictAndTick(input: Input, sentAt: real, clock: Clock)
      modifies this`log, prediction.engine, prediction.buffer
      ensures State() == AfterTick(old(State()), Fixed(), input, sentAt, clock) && Fixed() == old(Fixed())
    {
      hide Simulation.Tick;
      ghost var number := prediction.engine.world.number + 1;
      prediction.Predict(input, TICK_INTERVAL, sentAt);
      prediction.engine.Tick(TICK_INTERVAL, map[prediction.localPlayerId := input], map[], clock);
      log := log[number := Entry(number, input, TICK_INTERVAL, sentAt)];
    }

    /** Predicts and ticks once, plus or minus the pending correction. */
    method RunPredictedTicks(input: Input, sentAt: real, clock: nat -> Clock)
      modifies this`pendingTickAdjustment, this`log, prediction.engine, prediction.buffer
      ensures State() == AfterSteps(old(State()), Fixed(), Ticks(old(pendingTickAdjustment), input, sentAt, clock))
      ensures Fixed() == old(Fixed())
      ensures pendingTickAdjustment == 0
    {
      hide AfterTick;
      ghost var profile, start := Fixed(), State();
      ghost var steps := Ticks(pendingTickAdjustment, input, sentAt, clock);
      var ticks := TickCount(pendingTickAdjustment);
      pendingTickAdjustment := 0;
      var n := 0;
      while n < ticks
        invariant 0 <= n <= ticks && pendingTickAdjustment == 0
        invariant Fixed() == profile && State() == AfterSteps(start, profile, steps[..n])
      {
        OneMoreStep(start, profile, steps, n);
        PredictAndTick(input, sentAt, clock(n));
        n := n + 1;
      }
      assert steps[..n] == steps;
    }

    /** Empties the socket: stale snapshots are dropped, the others reconciled, and an announcement
        takes effect where it arrives. */
    method DrainSnapshotPackets(packets: seq<Incoming>)
      modifies this`lastSnapshotSequence, this`reconnected, this`baseline, this`calibrationRemaining, this`base
      modifies prediction.engine, prediction.buffer
      ensures State() == AfterSteps(old(State()), Fixed(), AllReceived(packets))
      ensures |prediction.buffer.entries| <= old(|prediction.buffer.entries|) && Fixed() == old(Fixed())
      ensures CalibrationKept(old(reconnected), old(LeadNow()), reconnected, LeadNow())
    {
      hide AfterSnapshot, AfterNewHost;
      ghost var profile, start, pending := Fixed(), State(), |prediction.buffer.entries|;
      ghost var steps := AllReceived(packets);
      var n := 0;
      while n < |packets|
        invariant 0 <= n <= |packets|
        invariant Fixed() == profile && State() == AfterSteps(start, profile, steps[..n])
        invariant |prediction.buffer.entries| <= pending
        invariant CalibrationKept(old(reconnected), old(LeadNow()), reconnected, LeadNow())
      {
        OneMoreStep(start, profile, steps, n);
        ghost var before := State();
        match packets[n] {
          case Snapshot(packet) => Accept(packet);
          case NewHost(buffered) => OnReconnectionAck(buffered);
        }
        assert State() == AfterStep(before, profile, steps[n]);
        n := n + 1;
      }
      assert steps[..n] == steps;
    }

    method Accept(packet: Packet)
      modifies this`lastSnapshotSequence, this`base, prediction.engine, prediction.buffer
      ensures State() == AfterSnapshot(old(State()), Fixed(), packet) && Fixed() == old(Fixed())
      ensures |prediction.buffer.entries| <= old(|prediction.buffer.entries|)
    {
      hide Run, Rebased;
      if packet.number <= lastSnapshotSequence { return; }
      lastSnapshotSequence, base := packet.number, packet.number;
      prediction.Reconcile(packet.world, packet.clock);
    }

    /** Follows the first new host: environment realigned, filter reset, calibration restarted. */
    method OnReconnectionAck(buffered: Option<World>)
      modifies this`lastSnapshotSequence, this`reconnected, this`baseline, this`calibrationRemaining,
          prediction.engine`world
      ensures State() == AfterNewHost(old(State()), buffered) && Fixed() == old(Fixed())
      ensures CalibrationKept(old(reconnected), old(LeadNow()), reconnected, LeadNow())
    {
      if reconnected { return; }
      reconnected := true;
      if buffered.Some? {
        var last := buffered.value;
        prediction.engine.world := prediction.engine.world.(blocks := last.blocks);
        prediction.engine.world := prediction.engine.world.(powerUps := last.powerUps);
        prediction.engine.world := prediction.engine.world.(gates := last.gates);
      }
      lastSnapshotSequence := 0;
      RecalibratePredictionLead();
    }

    /** Empties the game event queue: the host's events change the world, announcements are followed. */
    method DrainGameEvents(events: seq<GameEvent>)
      modifies this`lastSnapshotSequence, this`reconnected, this`baseline, this`calibrationRemaining
      modifies prediction.engine`world, prediction.engine`saved, prediction.engine`events
      ensures State() == AfterSteps(old(State()), Fixed(), AllPolled(events)) && Fixed() == old(Fixed())
      ensures CalibrationKept(old(reconnected), old(LeadNow()), reconnected, LeadNow())
    {
      hide AfterNewHost, Replication.Received;
      ghost var profile, start := Fixed(), State();
      ghost var steps := AllPolled(events);
      var n := 0;
      while n < |events|
        invariant 0 <= n <= |events|
        invariant Fixed() == profile && State() == AfterSteps(start, profile, steps[..n])
        invariant CalibrationKept(old(reconnected), old(LeadNow()), reconnected, LeadNow())
      {
        OneMoreStep(start, profile, steps, n);
        ghost var before := State();
        match events[n] {
          case Environment(message) => Replication.Apply(prediction.engine, prediction.localPlayerId, message);
          case Announcement(buffered) => OnReconnectionAck(buffered);
        }
        assert State() == AfterStep(before, profile, steps[n]);
        n := n + 1;
      }
      assert steps[..n] == steps;
    }

    /** Empties the lobby's queue, where a rejoining player finds its world. */
    method DrainLobbyMessages(worlds: seq<World>)
      modifies this`lastSnapshotSequence, this`base, prediction.engine`world
      ensures State() == AfterSteps(old(State()), Fixed(), AllSynced(worlds)) && Fixed() == old(Fixed())
    {
      ghost var profile, start := Fixed(), State();
      ghost var steps := AllSynced(worlds);
      var n := 0;
      while n < |worlds|
        invariant 0 <= n <= |worlds|
        invariant Fixed() == profile && State() == AfterSteps(start, profile, steps[..n])
      {
        assert steps[..n + 1][..n] == steps[..n];
        ApplyInitialStateSync(worlds[n]);
        n := n + 1;
      }
      assert steps[..n] == steps;
    }

    method AdjustPredictionLead()
      modifies this`pendingTickAdjustment, this`baseline, this`calibrationRemaining
      ensures LeadNow() == Adjusted(old(LeadNow()))
    {
      var pending := prediction.PendingCount();
      var next := baseline;
      var deviation := pending as real - next;
      if deviation > PREDICTION_LEAD_DRIFT_TOLERANCE {
        pendingTickAdjustment := -1;
      } else if deviation < -PREDICTION_LEAD_DRIFT_TOLERANCE {
        pendingTickAdjustment := 1;
      } else if calibrationRemaining > 0 {
        next := next + deviation * PREDICTION_LEAD_EWMA_ALPHA;
      }
      if calibrationRemaining > 0 {
        calibrationRemaining := calibrationRemaining - 1;
      }
      baseline := next;
    }

    method RecalibratePredictionLead()
      modifies this`baseline, this`calibrationRemaining
      ensures LeadNow() == Recalibrated(old(LeadNow()))
    {
      baseline := 0.0;
      calibrationRemaining := PREDICTION_LEAD_CALIBRATION_FRAMES;
    }

    method ApplyInitialStateSync(world: World)
      modifies this`lastSnapshotSequence, this`base, prediction.engine`world
      ensures State() == AfterSync(old(State()), world) && Fixed() == old(Fixed())
    {
      prediction.engine.world := world;
      lastSnapshotSequence, base := world.number, world.number;
    }

    /** One frame with the standard history size. The lead stays bounded and so the history never
        overflows, whatever arrives; a client in step stays in step if the history reaches back to
        every snapshot and is empty when a world for a rejoining player arrives. */
    method ProcessFrame(f: FrameInput)
      requires Settled(LeadNow()) && prediction.buffer.capacity == INPUT_HISTORY_SIZE
      modifies this, prediction.engine, prediction.buffer
      ensures Settled(LeadNow())
      ensures var steps := FrameSteps(old(pendingTickAdjustment), f);
        && State() == AfterSteps(old(State()), Fixed(), steps) && Fixed() == old(Fixed())
        && (old(InStep(State(), Fixed())) && Served(old(State()), Fixed(), steps) ==> InStep(State(), Fixed()))
    {
      hide AfterSteps, Served, AfterStep;
      ghost var start, profile, lead := State(), Fixed(), LeadNow();
      ghost var ticks := Ticks(lead.adjustment, f.input, f.sentAt, f.clock);
      DrainLobbyMessages(f.worlds);
      assert LeadNow() == lead;
      ghost var synced := State();
      RunPredictedTicks(f.input, f.sentAt, f.clock);
      TicksGrowHistory(synced, profile, ticks);
      assert Bounded(LeadNow());
      ghost var ticked := State();
      prediction.engine.events := [];
      ClearedInOneStep(ticked, profile);
      DrainSnapshotPackets(f.packets);
      DrainGameEvents(f.events);
      StepsOfFrame(start, profile, lead.adjustment, f);
      ghost var end := State();
      AdjustmentSettles(LeadNow());
      AdjustPredictionLead();
      assert State() == end;
      ghost var steps := FrameSteps(lead.adjustment, f);
      if InStep(start, profile) && Served(start, profile, steps) { RunKeepsInStep(start, profile, steps); }
    }
  }

  /** A game event from the host: a change of the environment or of the players, or an announcement. */
  datatype GameEvent = Environment(message: Replication.Message) | Announcement(buffered: Option<World>)

  /** What a frame finds: worlds in the lobby's queue, the local input, packets, game events. */
  datatype FrameInput = FrameInput(worlds: seq<World>, input: Input, sentAt: real, clock: nat -> Clock,
                                   packets: seq<Incoming>, events: seq<GameEvent>)

  function AllSynced(worlds: seq<World>): seq<Step> {
    seq(|worlds|, i requires 0 <= i < |worlds| => Synced(worlds[i]))
  }

  function AllReceived(packets: seq<Incoming>): seq<Step> {
    seq(|packets|, i requires 0 <= i < |packets| => Received(packets[i]))
  }

  function AllPolled(events: seq<GameEvent>): seq<Step> {
    seq(|events|, i requires 0 <= i < |events| =>
      match events[i]
      case Environment(message) => Told(message)
      case Announcement(buffered) => Received(NewHost(buffered)))
  }

  /** A frame in order: the lobby's queue, the ticks, the socket, the game events. */
  function FrameSteps(adjustment: int, f: FrameInput): seq<Step> {
    AllSynced(f.worlds) + Ticks(adjustment, f.input, f.sentAt, f.clock) + [EventsCleared]
    + AllReceived(f.packets) + AllPolled(f.events)
  }

  lemma ClearedInOneStep(c: Client, p: Profile)
    ensures AfterSteps(c, p, [EventsCleared]) == c.(sim := c.sim.(events := []))
  {
    var one: seq<Step> := [EventsCleared];
    var none: seq<Step> := [];
    assert one[..|one| - 1] == none;
    assert AfterSteps(c, p, none) == c;
  }

  lemma StepsOfFrame(c: Client, p: Profile, adjustment: int, f: FrameInput)
    ensures var ticked := AfterSteps(AfterSteps(c, p, AllSynced(f.worlds)), p,
        Ticks(adjustment, f.input, f.sentAt, f.clock));
      AfterSteps(c, p, FrameSteps(adjustment, f))
      == AfterSteps(AfterSteps(AfterSteps(ticked, p, [EventsCleared]), p, AllReceived(f.packets)), p,
          AllPolled(f.events))
  {
    hide AfterSteps;
    var synced, ticks := AllSynced(f.worlds), Ticks(adjustment, f.input, f.sentAt, f.clock);
    StepsCompose(c, p, synced, ticks);
    StepsCompose(c, p, synced + ticks, [EventsCleared]);
    StepsCompose(c, p, synced + ticks + [EventsCleared], AllReceived(f.packets));
    StepsCompose(c, p, synced + ticks + [EventsCleared] + AllReceived(f.packets), AllPolled(f.events));
  }

  /** The calibration restarts when a new host is followed and is untouched otherwise. */
  predicate CalibrationKept(reconnectedBefore: bool, before: Lead, reconnectedAfter: bool, after: Lead) {
    && (reconnectedBefore ==> reconnectedAfter)
    && after.adjustment == before.adjustment
    && if reconnectedAfter == reconnectedBefore
       then after.baseline == before.baseline && after.remaining == before.remaining
       else after.baseline == 0.0 && after.remaining == PREDICTION_LEAD_CALIBRATION_FRAMES
  }

  /** With the lead bounded, an accepted snapshot never finds the client orphaned: every
      reconciliation replays exactly the inputs after the snapshot. */
  lemma BoundedLeadNeverLosesInputs(c: Client, p: Profile, packet: Packet)
    requires InStep(c, p) && Genuine(packet) && packet.number > c.last && packet.number >= c.base
    requires |c.history| <= 7 && p.capacity == INPUT_HISTORY_SIZE
    ensures var t := AfterSnapshot(c, p, packet);
            && t.history == Logged(c.log, packet.number, c.sim.world.number)
            && t.sim == Run(c.sim.(world := Rebased(c.sim.world, packet.world)), p.setup, p.authoritative,
                            Calls(p.localId, t.history, packet.clock))
  {
    KeptIsTheLog(c.sim.world.number, c.history, p.capacity, c.base, c.log, packet.number);
  }
}
