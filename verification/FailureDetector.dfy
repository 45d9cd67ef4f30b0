/** Suspecting the host, asking it, and only then electing another one
    (application/election/timeout_watcher.py, application/gameplay/client.py). */
module FailureDetector {
  import opened Prelude
  import opened Config

  /** Last sign of life, end of the verify window (0.0 when closed), next probe, election started. */
  datatype Detector = Detector(last: Option<real>, deadline: real, nextProbe: real, triggered: bool)

  const WATCHING := Detector(None, 0.0, 0.0, false)

  predicate TimedOut(last: Option<real>, now: real) { last.Some? && now - last.value > HOST_TIMEOUT_S }

  /** What a node notices: an accepted snapshot stamped with the drain's clock reading, a reply to a
      probe, a frame's election tick, and the fresh start once a new host is followed. */
  datatype Happening =
    | Accept(at: real)
    | Reply(at: real, matching: bool)
    | Tick(at: real)
    | Rearm(at: real)

  predicate Opens(d: Detector, now: real) { d.deadline == 0.0 && !d.triggered && TimedOut(d.last, now) }

  predicate Starts(d: Detector, now: real) { d.deadline != 0.0 && TimedOut(d.last, now) && now >= d.deadline }

  predicate SendsProbe(d: Detector, now: real) {
    Opens(d, now) || (d.deadline != 0.0 && TimedOut(d.last, now) && now < d.deadline && now >= d.nextProbe)
  }

  function AfterTick(d: Detector, now: real): Detector {
    if Opens(d, now) then
      d.(deadline := now + HOST_VERIFY_TIMEOUT_S, nextProbe := now + HOST_VERIFY_RESEND_INTERVAL_S)
    else if d.deadline == 0.0 then d
    else if !TimedOut(d.last, now) then d.(deadline := 0.0)
    else if now >= d.deadline then d.(deadline := 0.0, triggered := true)
    else if now >= d.nextProbe then d.(nextProbe := now + HOST_VERIFY_RESEND_INTERVAL_S)
    else d
  }

  function After(d: Detector, h: Happening): Detector {
    match h
    case Accept(at) => d.(last := Some(at))
    case Reply(at, matching) => if d.deadline != 0.0 && matching then d.(deadline := 0.0, last := Some(at)) else d
    case Tick(at) => AfterTick(d, at)
    case Rearm(_) => d.(last := None, deadline := 0.0, triggered := false)
  }

  function AfterAll(trace: seq<Happening>): Detector {
    if trace == [] then WATCHING else After(AfterAll(trace[..|trace| - 1]), trace[|trace| - 1])
  }

  class HostTimeoutWatcher {
    const timeout: real
    var lastSnapshotTime: Option<real>

    constructor (timeout: real)
      ensures this.timeout == timeout && lastSnapshotTime == None
    {
      this.timeout, lastSnapshotTime := timeout, None;
    }

    method Reset(timestamp: real)
      modifies this
      ensures lastSnapshotTime == Some(timestamp)
    {
      lastSnapshotTime := Some(timestamp);
    }

    predicate Tick(now: real)
      reads this
    {
      lastSnapshotTime.Some? && now - lastSnapshotTime.value > timeout
    }
  }

  /** The client's side of failure detection. */
  class HostMonitor {
    const sessionId: string
    var watcher: HostTimeoutWatcher
    var verifyDeadline: real
    var nextProbe: real
    var electionTriggered: bool

    ghost function State(): Detector
      reads this, watcher
    {
      Detector(watcher.lastSnapshotTime, verifyDeadline, nextProbe, electionTriggered)
    }

    constructor (sessionId: string)
      ensures State() == WATCHING && watcher.timeout == HOST_TIMEOUT_S && fresh(watcher)
      ensures this.sessionId == sessionId
    {
      this.sessionId := sessionId;
      watcher := new HostTimeoutWatcher(HOST_TIMEOUT_S);
      verifyDeadline, nextProbe, electionTriggered := 0.0, 0.0, false;
    }

    method AcceptSnapshot(drainedAt: real)
      modifies watcher
      ensures State() == After(old(State()), Accept(drainedAt))
    {
      watcher.Reset(drainedAt);
    }

    method OnHostIdentityResponse(session: string, now: real)
      modifies this, watcher
      ensures State() == After(old(State()), Reply(now, session == sessionId))
    {
      if verifyDeadline == 0.0 || session != sessionId { return; }
      verifyDeadline := 0.0;
      watcher.Reset(now);
    }

    /** One frame: opens the verify window, probes, gives up suspecting, or starts the election. */
    method TickElectionState(now: real) returns (probe: bool, start: bool)
      requires watcher.timeout == HOST_TIMEOUT_S
      modifies this
      ensures State() == After(old(State()), Tick(now))
      ensures probe <==> SendsProbe(old(State()), now)
      ensures start <==> Starts(old(State()), now)
    {
      probe, start := false, false;
      if verifyDeadline == 0.0 {
        if !electionTriggered && watcher.Tick(now) {
          verifyDeadline := now + HOST_VERIFY_TIMEOUT_S;
          probe := ResendProbe(now);
        }
      } else if !watcher.Tick(now) {
        verifyDeadline := 0.0;
      } else if now >= verifyDeadline {
        verifyDeadline := 0.0;
        electionTriggered := true;
        start := true;
      } else if now >= nextProbe {
        probe := ResendProbe(now);
      }
    }

    /** A new host is followed: forget the old one's silence and watch afresh. */
    method ResetElectionState(now: real)
      modifies this
      ensures State() == After(old(State()), Rearm(now)) && fresh(watcher) && watcher.timeout == HOST_TIMEOUT_S
    {
      electionTriggered := false;
      watcher := new HostTimeoutWatcher(HOST_TIMEOUT_S);
      verifyDeadline := 0.0;
    }

    method ResendProbe(now: real) returns (sent: bool)
      modifies this`nextProbe
      ensures nextProbe == now + HOST_VERIFY_RESEND_INTERVAL_S && sent
    {
      nextProbe := now + HOST_VERIFY_RESEND_INTERVAL_S;
      return true;
    }
  }

  // ---- Every run --------------------------------------------------------------------------

  /** The clock never runs backwards; a reply or an announcement handled in a drain may come later than
      the reading a snapshot accepted after it carries, which is that of the drain's start. */
  predicate Monotone(trace: seq<Happening>) {
    && (forall i :: 0 <= i < |trace| ==> trace[i].at > 0.0)
    && (forall i, j :: 0 <= i < j < |trace| ==>
         trace[i].at <= trace[j].at || ((trace[i].Reply? || trace[i].Rearm?) && trace[j].Accept?))
  }

  /** i is an accepted snapshot that no tick before n has seen yet. */
  predicate Unseen(trace: seq<Happening>, i: int, n: int) {
    0 <= i < n <= |trace| && trace[i].Accept? && forall k :: i < k < n ==> !trace[k].Tick?
  }

  /** Within a frame no more than the host timeout passes between draining and ticking. */
  ghost predicate Prompt(trace: seq<Happening>) {
    forall i, n :: n < |trace| && Unseen(trace, i, n) && trace[n].Tick? ==> trace[n].at - trace[i].at <= HOST_TIMEOUT_S
  }

  ghost predicate WellTimed(trace: seq<Happening>) { Monotone(trace) && Prompt(trace) }

  lemma PrefixWellTimed(trace: seq<Happening>)
    requires WellTimed(trace) && trace != []
    ensures WellTimed(trace[..|trace| - 1])
  {
    var before := trace[..|trace| - 1];
    forall i, n | n < |before| && Unseen(before, i, n) && before[n].Tick?
      ensures before[n].at - before[i].at <= HOST_TIMEOUT_S
    {
      assert forall k :: i < k < n ==> trace[k] == before[k];
      assert Unseen(trace, i, n);
    }
  }

  /** The tick that opened the current verify window, or -1. */
  function WindowOf(trace: seq<Happening>): int {
    if trace == [] then -1
    else
      var before := trace[..|trace| - 1];
      var last := trace[|trace| - 1];
      if last.Tick? && Opens(AfterAll(before), last.at) then |trace| - 1
      else if AfterAll(trace).deadline == 0.0 then -1
      else WindowOf(before)
  }

  /** Probes sent in the current verify window. */
  function ProbesOf(trace: seq<Happening>): nat {
    if trace == [] then 0
    else
      var before := trace[..|trace| - 1];
      var last := trace[|trace| - 1];
      if last.Tick? && Opens(AfterAll(before), last.at) then 1
      else if AfterAll(trace).deadline == 0.0 then 0
      else ProbesOf(before) + (if last.Tick? && SendsProbe(AfterAll(before), last.at) then 1 else 0)
  }

  lemma {:induction false} LastCoversAccepted(trace: seq<Happening>)
    requires Monotone(trace)
    ensures AfterAll(trace).last.Some? ==>
              forall i :: 0 <= i < |trace| && trace[i].Accept? ==> trace[i].at <= AfterAll(trace).last.value
  {
    if trace != [] {
      var before := trace[..|trace| - 1];
      LastCoversAccepted(before);
      forall i | 0 <= i < |trace| && trace[i].Accept? && AfterAll(trace).last.Some?
        ensures trace[i].at <= AfterAll(trace).last.value
      {
        if i < |before| { assert before[i] == trace[i]; }
      }
    }
  }

  /** While a window is open: it was opened by a timed-out tick; since then no matching reply came,
      and no snapshot except ones the next tick will notice; probes are half a second apart. */
  ghost predicate WindowHolds(trace: seq<Happening>) {
    var d, k := AfterAll(trace), WindowOf(trace);
    d.deadline != 0.0 ==>
      && 0 <= k < |trace| && trace[k].Tick? && d.deadline == trace[k].at + HOST_VERIFY_TIMEOUT_S
      && (forall m :: 0 <= m < k && trace[m].Accept? ==> trace[k].at - trace[m].at > HOST_TIMEOUT_S)
      && (forall m :: k < m < |trace| ==>
            !(trace[m].Reply? && trace[m].matching) && (trace[m].Accept? ==> Unseen(trace, m, |trace|)))
      && 1 <= ProbesOf(trace) <= 20
      && d.nextProbe >= trace[k].at + HOST_VERIFY_RESEND_INTERVAL_S * ProbesOf(trace) as real
  }

  lemma UnseenBlocksTick(trace: seq<Happening>, m: nat)
    requires WellTimed(trace) && trace != [] && trace[|trace| - 1].Tick?
    requires m < |trace| - 1 && Unseen(trace[..|trace| - 1], m, |trace| - 1)
    ensures !TimedOut(AfterAll(trace[..|trace| - 1]).last, trace[|trace| - 1].at)
  {
    var n := |trace| - 1;
    var before := trace[..n];
    assert forall k :: m < k < n ==> trace[k] == before[k];
    assert Unseen(trace, m, n);
    assert Monotone(before) by { PrefixWellTimed(trace); }
    LastCoversAccepted(before);
    assert before[m] == trace[m];
  }

  lemma {:induction false} WindowAlwaysHolds(trace: seq<Happening>)
    requires WellTimed(trace)
    ensures WindowHolds(trace)
  {
    if trace != [] {
      var n := |trace| - 1;
      var before := trace[..n];
      PrefixWellTimed(trace);
      WindowAlwaysHolds(before);
      if AfterAll(trace).deadline != 0.0 {
        if trace[n].Tick? && Opens(AfterAll(before), trace[n].at) {
          LastCoversAccepted(before);
          forall m | 0 <= m < n && trace[m].Accept? ensures trace[n].at - trace[m].at > HOST_TIMEOUT_S {
            assert before[m] == trace[m];
          }
        } else {
          WindowStaysOpen(trace);
        }
      }
    }
  }

  lemma WindowStaysOpen(trace: seq<Happening>)
    requires WellTimed(trace) && trace != [] && AfterAll(trace).deadline != 0.0
    requires var n := |trace| - 1; !(trace[n].Tick? && Opens(AfterAll(trace[..n]), trace[n].at))
    requires WindowHolds(trace[..|trace| - 1])
    ensures WindowHolds(trace)
  {
    var n := |trace| - 1;
    var before, k := trace[..n], WindowOf(trace);
    assert forall m :: 0 <= m < n ==> trace[m] == before[m];
    forall m | k < m < |trace|
      ensures !(trace[m].Reply? && trace[m].matching) && (trace[m].Accept? ==> Unseen(trace, m, |trace|))
    {
      if m < n && trace[m].Accept? {
        assert Unseen(before, m, n);
        if trace[n].Tick? { UnseenBlocksTick(trace, m); }
      }
    }
  }

  /** In every well-timed run, however many hosts have been followed in it, an election
      starts only after a full verify window without a matching reply, and more than 15 seconds after
      every accepted snapshot. */
  lemma ElectionNeedsSilence(trace: seq<Happening>, now: real)
    requires WellTimed(trace + [Tick(now)]) && Starts(AfterAll(trace), now)
    ensures forall m :: 0 <= m < |trace| && trace[m].Accept? ==>
        now - trace[m].at > HOST_TIMEOUT_S + HOST_VERIFY_TIMEOUT_S
    ensures exists k :: 0 <= k < |trace| && trace[k].Tick? && trace[k].at + HOST_VERIFY_TIMEOUT_S <= now
                        && forall m :: k < m < |trace| ==> !trace[m].Accept? && !(trace[m].Reply? && trace[m].matching)
  {
    hide AfterAll, WindowOf, ProbesOf, WellTimed, Unseen;
    var full := trace + [Tick(now)];
    assert full[..|full| - 1] == trace;
    PrefixWellTimed(full);
    WindowAlwaysHolds(trace);
    var k := WindowOf(trace);
    forall m | k < m < |trace| ensures !trace[m].Accept? && !(trace[m].Reply? && trace[m].matching) {
      if trace[m].Accept? {
        assert Unseen(trace, m, |trace|);
        UnseenBlocksTick(full, m);
      }
    }
  }

  /** Each verify window sends at most 20 probes. */
  lemma ProbesAreBounded(trace: seq<Happening>)
    requires WellTimed(trace)
    ensures ProbesOf(trace) <= 20
  {
    WindowAlwaysHolds(trace);
    if AfterAll(trace).deadline == 0.0 { NoWindowNoProbes(trace); }
  }

  lemma NoWindowNoProbes(trace: seq<Happening>)
    requires AfterAll(trace).deadline == 0.0
    requires forall i :: 0 <= i < |trace| ==> trace[i].at > 0.0
    ensures ProbesOf(trace) == 0
  {
  }

  // ---- A host that is silent for good -------------------------------------------------------

  /** The frames of a client that hears nothing any more. */
  function Ticking(d: Detector, ticks: seq<real>): Detector {
    if ticks == [] then d else AfterTick(Ticking(d, ticks[..|ticks| - 1]), ticks[|ticks| - 1])
  }

  predicate Ascending(ticks: seq<real>) { forall i, j :: 0 <= i < j < |ticks| ==> ticks[i] <= ticks[j] }

  /** The first frame more than the timeout after the last sign of life, or -1. */
  function Suspicion(ticks: seq<real>, last: real): (i: int)
    ensures -1 <= i < |ticks|
    ensures i >= 0 ==> ticks[i] - last > HOST_TIMEOUT_S
    ensures forall k :: 0 <= k < (if i < 0 then |ticks| else i) ==> ticks[k] - last <= HOST_TIMEOUT_S
  {
    if ticks == [] then -1
    else
      var n := |ticks| - 1;
      var i := Suspicion(ticks[..n], last);
      assert forall k :: 0 <= k < n ==> ticks[..n][k] == ticks[k];
      if i < 0 && ticks[n] - last > HOST_TIMEOUT_S then n else i
  }

  /** Silence for good: nothing happens up to the timeout, the next frame suspects the host, and the
      election has started exactly when a frame has come after a full verify window. */
  lemma {:induction false} SilenceIsNoticed(d: Detector, last: real, ticks: seq<real>)
    requires d.last == Some(last) && d.deadline == 0.0 && !d.triggered && last > 0.0 && Ascending(ticks)
    ensures var t, i := Ticking(d, ticks), Suspicion(ticks, last);
      if i < 0 then t == d
      else
        var over := ticks[|ticks| - 1] >= ticks[i] + HOST_VERIFY_TIMEOUT_S;
        t.last == d.last && t.triggered == over && t.deadline == if over then 0.0 else ticks[i] + HOST_VERIFY_TIMEOUT_S
  {
    if ticks != [] {
      var n := |ticks| - 1;
      assert forall k :: 0 <= k < n ==> ticks[..n][k] == ticks[k];
      SilenceIsNoticed(d, last, ticks[..n]);
    }
  }

  /** With frames at most `gap` apart the election has started by 15 seconds and two frames after the
      last sign of life. */
  lemma SilentHostIsReplaced(d: Detector, last: real, ticks: seq<real>, gap: real)
    requires d.last == Some(last) && d.deadline == 0.0 && !d.triggered && last > 0.0 && Ascending(ticks)
    requires ticks != [] && ticks[0] <= last + gap
    requires forall i :: 0 <= i < |ticks| - 1 ==> ticks[i + 1] <= ticks[i] + gap
    requires ticks[|ticks| - 1] >= last + HOST_TIMEOUT_S + HOST_VERIFY_TIMEOUT_S + gap && gap >= 0.0
    ensures Ticking(d, ticks).triggered
  {
    SilenceIsNoticed(d, last, ticks);
    var i := Suspicion(ticks, last);
    if i > 0 { assert ticks[i - 1 + 1] <= ticks[i - 1] + gap; }
  }

  /** A snapshot or a matching reply buys another full round: no election before 15 more seconds. */
  lemma SignOfLifeBuysTime(d: Detector, r: real, ticks: seq<real>)
    requires d.deadline != 0.0 && !d.triggered && r > 0.0 && Ascending(ticks)
    requires Ticking(After(d, Reply(r, true)), ticks).triggered
    ensures ticks != [] && ticks[|ticks| - 1] > r + HOST_TIMEOUT_S + HOST_VERIFY_TIMEOUT_S
  {
    SilenceIsNoticed(After(d, Reply(r, true)), r, ticks);
  }

  /** When the last probe went out in these frames, or never. */
  function LastProbe(d: Detector, ticks: seq<real>): Option<real> {
    if ticks == [] then None
    else
      var n := |ticks| - 1;
      if SendsProbe(Ticking(d, ticks[..n]), ticks[n]) then Some(ticks[n]) else LastProbe(d, ticks[..n])
  }

  /** While the host is suspected the last probe is at every frame less than half a second old; before
      that there is none. */
  lemma {:induction false} ProbesKeepComing(d: Detector, last: real, ticks: seq<real>)
    requires d.last == Some(last) && d.deadline == 0.0 && !d.triggered && last > 0.0 && Ascending(ticks)
    ensures var i, probe := Suspicion(ticks, last), LastProbe(d, ticks);
      && (i < 0 <==> probe.None?)
      && (i >= 0 && !Ticking(d, ticks).triggered ==>
            && 0.0 <= ticks[|ticks| - 1] - probe.value < HOST_VERIFY_RESEND_INTERVAL_S
            && Ticking(d, ticks).nextProbe == probe.value + HOST_VERIFY_RESEND_INTERVAL_S)
  {
    if ticks != [] {
      var n := |ticks| - 1;
      assert forall k :: 0 <= k < n ==> ticks[..n][k] == ticks[k];
      ProbesKeepComing(d, last, ticks[..n]);
      SilenceIsNoticed(d, last, ticks[..n]);
      SilenceIsNoticed(d, last, ticks);
    }
  }
}
