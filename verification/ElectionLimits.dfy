/** How much delay the staggered timers tolerate, exactly: at most one survivor promotes in every run
    if and only if spread, frame gap and claim latency together stay within one stagger step, while
    acknowledgements and announcements may be late or lost. Beyond it a survivor that already follows
    another claimer still promotes at its own deadline
    (application/election/coordinator.py:96-100, application/election/mixin.py:110-129). */
module ElectionLimits {
  import opened Prelude
  import opened Config
  import opened Election
  import opened ElectionTiming

  predicate AtMostOneHost(s: System) {
    forall i, j :: 0 <= i < j < |s.nodes| ==> !(s.nodes[i].promoted && s.nodes[j].promoted)
  }

  /** Two survivors with neighbouring join indices. */
  const PAIR := Group([0, 1], ["first", "second"])

  lemma PairKnowsEachOther()
    ensures Others(PAIR.hosts, 0) == {"second"} && Others(PAIR.hosts, 1) == {"first"}
  {
    assert PAIR.hosts[0] == "first" && PAIR.hosts[1] == "second";
    assert PAIR.hosts[1] in Others(PAIR.hosts, 0) && PAIR.hosts[0] in Others(PAIR.hosts, 1);
  }

  lemma Extended(b: Bounds, steps: seq<Step>, step: Step)
    requires Runs(PAIR, b, 0.0, steps)
    requires Possible(Reached(PAIR, b, 0.0, steps), step.action) && InTime(Reached(PAIR, b, 0.0, steps), b, step.at)
    ensures Runs(PAIR, b, 0.0, steps + [step])
    ensures Reached(PAIR, b, 0.0, steps + [step]) == Applied(Reached(PAIR, b, 0.0, steps), PAIR, step)
  {
    assert (steps + [step])[..|steps|] == steps;
  }

  // ---- Letting time pass ------------------------------------------------------------------

  function Waited(node: Node, at: real): Node { if node.armedAt.Some? then node.(lastFrame := at) else node }

  /** A frame up to `at` changes nothing but the time of the last frame. */
  predicate Calm(node: Node, at: real) {
    && (node.coordinator.phase == Pending ==> node.coordinator.expiry.Some? && at < node.coordinator.expiry.value)
    && (node.promoted || node.pendingAcks == {} || at < node.deadline)
  }

  predicate SomeArmed(s: System) { |s.nodes| == 2 && (s.nodes[0].armedAt.Some? || s.nodes[1].armedAt.Some?) }

  ghost predicate CanWait(s: System, b: Bounds, at: real) {
    && |s.nodes| == 2 && s.now <= at
    && (forall i :: 0 <= i < 2 ==> Calm(s.nodes[i], at) && (s.nodes[i].armedAt.Some? ==> s.nodes[i].lastFrame == s.now))
    && (forall i, j :: 0 <= i < 2 && 0 <= j < 2 && s.nodes[i].armedAt.Some? && s.nodes[j].armedAt.None? ==>
          at <= s.nodes[i].armedAt.value + b.spread)
    && (forall i, j :: 0 <= i < 2 && 0 <= j < 2 && Unheard(s, i, j) ==> at <= s.nodes[i].claimedAt.value + b.latency)
  }

  function After(s: System, at: real): System
    requires |s.nodes| == 2
  {
    s.(nodes := [Waited(s.nodes[0], at), Waited(s.nodes[1], at)], now := at)
  }

  /** Both nodes run a frame at `at`, no more than one frame gap later. */
  lemma BothFrames(b: Bounds, steps: seq<Step>, at: real) returns (longer: seq<Step>)
    requires Runs(PAIR, b, 0.0, steps) && Sensible(b)
    requires CanWait(Reached(PAIR, b, 0.0, steps), b, at) && at <= Reached(PAIR, b, 0.0, steps).now + b.frame
    requires SomeArmed(Reached(PAIR, b, 0.0, steps))
    ensures Runs(PAIR, b, 0.0, longer) && Reached(PAIR, b, 0.0, longer) == After(Reached(PAIR, b, 0.0, steps), at)
  {
    hide Runs, Reached;
    var s := Reached(PAIR, b, 0.0, steps);
    longer := steps;
    if s.nodes[0].armedAt.Some? {
      Extended(b, steps, Step(Frame(0), at));
      longer := steps + [Step(Frame(0), at)];
    }
    var t := Reached(PAIR, b, 0.0, longer);
    assert t.nodes == [Waited(s.nodes[0], if s.nodes[0].armedAt.Some? then at else s.now), s.nodes[1]];
    if s.nodes[1].armedAt.Some? {
      assert forall i, j :: 0 <= i < 2 && 0 <= j < 2 && Unheard(t, i, j) ==> Unheard(s, i, j);
      Extended(b, longer, Step(Frame(1), at));
      longer := longer + [Step(Frame(1), at)];
    }
  }

  /** Time can pass to `at` in as many frames as it takes. */
  lemma {:induction false} Waiting(b: Bounds, steps: seq<Step>, at: real, frames: nat) returns (longer: seq<Step>)
    requires Runs(PAIR, b, 0.0, steps) && Sensible(b)
    requires CanWait(Reached(PAIR, b, 0.0, steps), b, at)
    requires at <= Reached(PAIR, b, 0.0, steps).now + frames as real * b.frame
    requires SomeArmed(Reached(PAIR, b, 0.0, steps))
    ensures Runs(PAIR, b, 0.0, longer) && Reached(PAIR, b, 0.0, longer) == After(Reached(PAIR, b, 0.0, steps), at)
    decreases frames
  {
    hide Runs, Reached;
    var s := Reached(PAIR, b, 0.0, steps);
    if frames == 0 {
      longer := steps;
      assert s.nodes == [s.nodes[0], s.nodes[1]];
    } else {
      var next := Min(at, s.now + b.frame);
      longer := BothFrames(b, steps, next);
      var t := After(s, next);
      assert forall i, j :: 0 <= i < 2 && 0 <= j < 2 && Unheard(t, i, j) ==> Unheard(s, i, j);
      assert at <= next + (frames - 1) as real * b.frame;
      longer := Waiting(b, longer, at, frames - 1);
    }
  }

  lemma Scaled(x: real, y: real, factor: real)
    requires x <= y && factor > 0.0
    ensures x * factor <= y * factor
  {
  }

  lemma EnoughFrames(time: real, frame: real) returns (frames: nat)
    requires time >= 0.0 && frame > 0.0
    ensures time <= frames as real * frame
  {
    var ratio := time / frame;
    frames := ratio.Floor + 1;
    assert ratio * frame == time;
    Scaled(ratio, frames as real, frame);
  }

  lemma Wait(b: Bounds, steps: seq<Step>, at: real) returns (longer: seq<Step>)
    requires Runs(PAIR, b, 0.0, steps) && Sensible(b) && b.frame > 0.0
    requires CanWait(Reached(PAIR, b, 0.0, steps), b, at)
    requires SomeArmed(Reached(PAIR, b, 0.0, steps))
    ensures Runs(PAIR, b, 0.0, longer) && Reached(PAIR, b, 0.0, longer) == After(Reached(PAIR, b, 0.0, steps), at)
  {
    var frames := EnoughFrames(at - Reached(PAIR, b, 0.0, steps).now, b.frame);
    longer := Waiting(b, steps, at, frames);
  }

  // ---- The run with two hosts -------------------------------------------------------------

  lemma SecondArms(b: Bounds) returns (steps: seq<Step>)
    requires Sensible(b)
    ensures Runs(PAIR, b, 0.0, steps)
    ensures Reached(PAIR, b, 0.0, steps) == System([NewNode(0, "first"), Armed(NewNode(1, "second"), 0.0)], 0.0, {}, {})
  {
    Extended(b, [], Step(Arm(1), 0.0));
    steps := [] + [Step(Arm(1), 0.0)];
  }

  /** The second survivor arms at 0, the first at `armed`, and time passes up to `at`. */
  lemma BothArmed(b: Bounds, armed: real, at: real) returns (steps: seq<Step>)
    requires Sensible(b) && b.frame > 0.0
    requires 0.0 <= armed <= b.spread && armed <= at < armed + 0.5 && at < 0.8
    ensures Runs(PAIR, b, 0.0, steps)
    ensures Reached(PAIR, b, 0.0, steps)
         == System([Armed(NewNode(0, "first"), armed).(lastFrame := at),
             Armed(NewNode(1, "second"), 0.0).(lastFrame := at)], at, {}, {})
  {
    hide Runs, Reached;
    steps := SecondArms(b);
    steps := Wait(b, steps, armed);
    Extended(b, steps, Step(Arm(0), armed));
    steps := steps + [Step(Arm(0), armed)];
    assert Reached(PAIR, b, 0.0, steps).nodes[1].armedAt.Some?;
    steps := Wait(b, steps, at);
  }

  function Claimer(armed: real, claimed: real, lastFrame: real): Node {
    Elected(Armed(NewNode(0, "first"), armed), {"second"}, claimed).(lastFrame := lastFrame)
  }

  /** The first survivor claims at `claimed`; the second is one frame away from its own expiry. */
  lemma FirstClaims(b: Bounds, armed: real, claimed: real) returns (steps: seq<Step>, last0: real, last1: real)
    requires Sensible(b) && b.frame > 0.0
    requires 0.0 <= armed <= b.spread && armed + 0.5 <= claimed < armed + 0.5 + b.frame
    requires claimed <= 0.8 <= claimed + b.latency
    ensures Runs(PAIR, b, 0.0, steps)
    ensures last0 <= 0.8 <= last0 + b.frame && last1 < 0.8 <= last1 + b.frame
    ensures var s := Reached(PAIR, b, 0.0, steps);
      && s.nodes == [Claimer(armed, claimed, last0), Armed(NewNode(1, "second"), 0.0).(lastFrame := last1)]
      && s.now <= 0.8 && s.heard == {} && s.acks == {}
  {
    hide Runs, Reached;
    var before := Max(armed, claimed - b.frame);
    steps := BothArmed(b, armed, before);
    PairKnowsEachOther();
    Extended(b, steps, Step(Frame(0), claimed));
    steps := steps + [Step(Frame(0), claimed)];
    last0, last1 := claimed, before;
    assert Reached(PAIR, b, 0.0, steps).nodes[0] == Claimer(armed, claimed, claimed);
    if claimed < 0.8 {
      Extended(b, steps, Step(Frame(1), claimed));
      steps := steps + [Step(Frame(1), claimed)];
      last0 := Max(claimed, 0.8 - b.frame);
      last1 := last0;
      var t := Reached(PAIR, b, 0.0, steps);
      assert t.nodes[1].armedAt.Some?;
      steps := Wait(b, steps, last0);
    }
  }

  function SecondClaimer(claimed: real): Node {
    Elected(Armed(NewNode(1, "second"), 0.0), {"first"}, claimed).(lastFrame := claimed)
  }

  /** At 0.8 the second survivor claims as well. */
  lemma BothClaim(b: Bounds, armed: real, claimed: real) returns (steps: seq<Step>)
    requires Sensible(b) && b.frame > 0.0
    requires 0.0 <= armed <= b.spread && armed + 0.5 <= claimed < armed + 0.5 + b.frame
    requires claimed <= 0.8 <= claimed + b.latency
    ensures Runs(PAIR, b, 0.0, steps)
    ensures Reached(PAIR, b, 0.0, steps) == System([Claimer(armed, claimed, 0.8), SecondClaimer(0.8)], 0.8, {}, {})
  {
    hide Runs, Reached;
    var last0, last1;
    steps, last0, last1 := FirstClaims(b, armed, claimed);
    PairKnowsEachOther();
    Extended(b, steps, Step(Frame(1), 0.8));
    steps := steps + [Step(Frame(1), 0.8)];
    assert Reached(PAIR, b, 0.0, steps).nodes == [Claimer(armed, claimed, last0), SecondClaimer(0.8)];
    Extended(b, steps, Step(Frame(0), 0.8));
    steps := steps + [Step(Frame(0), 0.8)];
  }

  /** The second survivor follows the first, which gets its acknowledgement and promotes. */
  lemma FirstPromotes(b: Bounds, armed: real, claimed: real) returns (steps: seq<Step>)
    requires Sensible(b) && b.frame > 0.0
    requires 0.0 <= armed <= b.spread && armed + 0.5 <= claimed < armed + 0.5 + b.frame
    requires claimed <= 0.8 <= claimed + b.latency
    ensures Runs(PAIR, b, 0.0, steps)
    ensures Reached(PAIR, b, 0.0, steps)
         == System([Acked(Claimer(armed, claimed, 0.8), "second"),
                    SecondClaimer(0.8).(coordinator := ClaimHeard(SecondClaimer(0.8).coordinator, 0, "first"))],
                   0.8, {(0, 1), (1, 0)}, {(1, 0)})
  {
    hide Runs, Reached;
    steps := BothClaim(b, armed, claimed);
    Extended(b, steps, Step(HearClaim(1, 0), 0.8));
    steps := steps + [Step(HearClaim(1, 0), 0.8)];
    Extended(b, steps, Step(HearClaim(0, 1), 0.8));
    steps := steps + [Step(HearClaim(0, 1), 0.8)];
    Extended(b, steps, Step(HearAck(0, 1), 0.8));
    steps := steps + [Step(HearAck(0, 1), 0.8)];
    var s := Reached(PAIR, b, 0.0, steps);
    assert s.heard == {(0, 1), (1, 0)};
    assert s.nodes[0] == Acked(Claimer(armed, claimed, 0.8), "second");
  }

  /** Bounds beyond one stagger step allow a run that ends with two hosts, one of them a follower of
      the other when it promotes. */
  lemma TwoHosts(b: Bounds) returns (steps: seq<Step>)
    requires Sensible(b) && b.frame > 0.0 && !Staggered(b)
    ensures Runs(PAIR, b, 0.0, steps)
    ensures var s := Reached(PAIR, b, 0.0, steps);
      s.nodes[0].promoted && s.nodes[1].promoted && s.nodes[1].coordinator.phase == Follower
  {
    hide Runs, Reached;
    var armed := Min(b.spread, 0.3);
    var late := Max(0.0, 0.3 - armed - b.latency);
    steps := FirstPromotes(b, armed, armed + 0.5 + late);
    steps := SecondPromotes(b, steps);
  }

  /** Two seconds later the second survivor gives up on the first, which it follows by now. */
  lemma SecondPromotes(b: Bounds, steps: seq<Step>) returns (longer: seq<Step>)
    requires Sensible(b) && b.frame > 0.0 && Runs(PAIR, b, 0.0, steps)
    requires var s := Reached(PAIR, b, 0.0, steps);
      && s.now == 0.8 && s.heard == {(0, 1), (1, 0)}
      && s.nodes[0].promoted && s.nodes[0].coordinator.phase == Claimed && s.nodes[0].lastFrame == 0.8
      && s.nodes[1].coordinator.phase == Follower && !s.nodes[1].promoted && s.nodes[1].pendingAcks == {"first"}
      && s.nodes[1].deadline == 2.8 && s.nodes[1].lastFrame == 0.8
      && s.nodes[0].armedAt.Some? && s.nodes[1].armedAt.Some?
    ensures Runs(PAIR, b, 0.0, longer)
    ensures var s := Reached(PAIR, b, 0.0, longer);
      s.nodes[0].promoted && s.nodes[1].promoted && s.nodes[1].coordinator.phase == Follower
  {
    hide Runs, Reached;
    longer := Wait(b, steps, Max(0.8, 2.8 - b.frame));
    Extended(b, longer, Step(Frame(1), 2.8));
    longer := longer + [Step(Frame(1), 2.8)];
  }

  lemma {:induction false} SomeLowest(g: Group, n: nat) returns (m: nat)
    requires Survivors(g) && 0 < n <= |g.join|
    ensures m < n && forall i :: 0 <= i < n && i != m ==> g.join[m] < g.join[i]
  {
    if n == 1 {
      m := 0;
    } else {
      m := SomeLowest(g, n - 1);
      if g.join[n - 1] < g.join[m] { m := n - 1; }
    }
  }

  ghost predicate AlwaysAtMostOneHost(b: Bounds) {
    forall g, start, steps :: Survivors(g) && start >= 0.0 && Runs(g, b, start, steps) ==>
      AtMostOneHost(Reached(g, b, start, steps))
  }

  /** The exact limit. */
  lemma SafeExactlyWhenStaggered(b: Bounds)
    requires Sensible(b) && b.frame > 0.0
    ensures AlwaysAtMostOneHost(b) <==> Staggered(b)
  {
    if Staggered(b) {
      forall g, start, steps | Survivors(g) && start >= 0.0 && Runs(g, b, start, steps)
        ensures AtMostOneHost(Reached(g, b, start, steps))
      {
        var m := SomeLowest(g, |g.join|);
        OnlyTheLowestIsElected(g, b, m, start, steps);
      }
    } else {
      var steps := TwoHosts(b);
      assert !AtMostOneHost(Reached(PAIR, b, 0.0, steps));
      assert Survivors(PAIR) && Runs(PAIR, b, 0.0, steps);
    }
  }
}
