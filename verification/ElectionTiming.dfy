/** The first migration as a timed protocol: survivors arm staggered timers, run frames and exchange
    claims, acknowledgements and the new host's announcement (application/election/coordinator.py,
    application/election/mixin.py, application/gameplay/client.py). Survivors are numbered; `join[i]`
    is the join index of the i-th and `hosts[i]` its address. */
module ElectionTiming {
  import opened Prelude
  import opened Config
  import opened Election

  /** Timers are armed within `spread` of each other, an armed node's frames are at most `frame`
      apart, a claim is processed within `latency` of being sent. */
  datatype Bounds = Bounds(spread: real, frame: real, latency: real)

  datatype Node = Node(
    coordinator: Coordinator, armedAt: Option<real>, lastFrame: real,
    claimedAt: Option<real>, pendingAcks: set<string>, deadline: real, promoted: bool, reconnected: bool)

  /** A claim goes to every other survivor, so the claims in flight are those of the nodes that
      claimed and that are not in `heard` as (claimer, receiver); `acks` holds (sender, receiver). The
      relay shows an acknowledgement to everybody; only to the claimer it answers can it matter, as
      within the bounds nobody else awaits any.
      Messages stay available: a repeated delivery is possible. */
  datatype System = System(nodes: seq<Node>, now: real, heard: set<(nat, nat)>, acks: set<(nat, nat)>)

  datatype Action =
    | Arm(i: nat)
    | Frame(i: nat)
    | HearClaim(to: nat, from: nat)
    | HearAck(to: nat, from: nat)
    | HearNewHost(to: nat, from: nat)

  datatype Step = Step(action: Action, at: real)

  datatype Group = Group(join: seq<nat>, hosts: seq<string>)

  predicate Survivors(g: Group) {
    && g.join != [] && |g.hosts| == |g.join|
    && (forall i, j :: 0 <= i < j < |g.join| ==> g.join[i] != g.join[j])
    && (forall i, j :: 0 <= i < j < |g.join| ==> g.hosts[i] != g.hosts[j])
  }

  predicate Lowest(g: Group, m: nat) {
    Survivors(g) && m < |g.join| && forall i :: 0 <= i < |g.join| && i != m ==> g.join[m] < g.join[i]
  }

  function NewNode(joinIndex: nat, host: string): Node {
    Node(Fresh(joinIndex, host), None, 0.0, None, {}, 0.0, false, false)
  }

  function Initial(g: Group, start: real): System
    requires |g.hosts| == |g.join|
  {
    System(seq(|g.join|, i requires 0 <= i < |g.join| => NewNode(g.join[i], g.hosts[i])), start, {}, {})
  }

  /** The addresses of everybody but the i-th. */
  function Others(hosts: seq<string>, i: nat): set<string> { set k | 0 <= k < |hosts| && k != i :: hosts[k] }

  // ---- What a step does -------------------------------------------------------------------

  /** The timeout is confirmed: start the election and set the timer. */
  function Armed(node: Node, at: real): Node {
    node.(coordinator := TimerSet(Started(node.coordinator, {}), at), armedAt := Some(at), lastFrame := at)
  }

  /** The timer fired: claim the role, or promote at once when nobody else is left. */
  function Elected(node: Node, others: set<string>, at: real): Node {
    var node := node.(coordinator := Ticked(node.coordinator, at), claimedAt := Some(at));
    if others == {} then node.(promoted := true)
    else node.(pendingAcks := others, deadline := at + ELECTION_CLAIM_TIMEOUT_S)
  }

  /** Silent peers are given up at the deadline. */
  function DeadlineChecked(node: Node, at: real): Node {
    if node.promoted || node.pendingAcks == {} || node.deadline == 0.0 || at < node.deadline then node
    else node.(pendingAcks := {}, promoted := true)
  }

  function Framed(node: Node, others: set<string>, at: real): Node {
    var after := if Fires(node.coordinator, at) then Elected(node, others, at) else node;
    DeadlineChecked(after, at).(lastFrame := at)
  }

  function Acked(node: Node, from: string): Node {
    if node.promoted || from !in node.pendingAcks then node
    else
      var left := node.pendingAcks - {from};
      node.(pendingAcks := left, promoted := left == {})
  }

  /** The new host is followed once, and the election state starts afresh. */
  function Reconnected(node: Node): Node {
    if node.reconnected || node.promoted then node
    else node.(coordinator := Fresh(node.coordinator.joinIndex, node.coordinator.ip), pendingAcks := {},
               deadline := 0.0, reconnected := true)
  }

  predicate Possible(s: System, a: Action) {
    match a
    case Arm(i) => i < |s.nodes| && s.nodes[i].armedAt.None?
    case Frame(i) => i < |s.nodes| && s.nodes[i].armedAt.Some?
    case HearClaim(to, from) => to < |s.nodes| && from < |s.nodes| && to != from && s.nodes[from].claimedAt.Some?
    case HearAck(to, from) => to < |s.nodes| && from < |s.nodes| && (from, to) in s.acks
    case HearNewHost(to, from) => to < |s.nodes| && from < |s.nodes| && to != from && s.nodes[from].promoted
  }

  function Actor(a: Action): nat {
    match a
    case Arm(i) => i
    case Frame(i) => i
    case HearClaim(to, _) => to
    case HearAck(to, _) => to
    case HearNewHost(to, _) => to
  }

  /** The node that acts, after its step. */
  function NodeAfter(node: Node, g: Group, step: Step): Node
    requires |g.hosts| == |g.join|
    requires step.action.HearClaim? || step.action.HearAck? ==> step.action.from < |g.join|
  {
    match step.action
    case Arm(_) => Armed(node, step.at)
    case Frame(i) => Framed(node, Others(g.hosts, i), step.at)
    case HearClaim(_, from) => node.(coordinator := ClaimHeard(node.coordinator, g.join[from], g.hosts[from]))
    case HearAck(_, from) => Acked(node, g.hosts[from])
    case HearNewHost(_, _) => Reconnected(node)
  }

  function Applied(s: System, g: Group, step: Step): System
    requires Possible(s, step.action) && |g.hosts| == |g.join| == |s.nodes|
  {
    var i := Actor(step.action);
    var hears := step.action.HearClaim?;
    System(s.nodes[i := NodeAfter(s.nodes[i], g, step)], step.at,
           if hears then s.heard + {(step.action.from, i)} else s.heard,
           if hears && Follows(s.nodes[i].coordinator, g.join[step.action.from])
           then s.acks + {(i, step.action.from)} else s.acks)
  }

  // ---- What the timing bounds allow -------------------------------------------------------

  /** Time may pass to `at` only if no bound is broken by then. */
  ghost predicate InTime(s: System, b: Bounds, at: real) {
    && s.now <= at
    && (forall i, j ::
          0 <= i < |s.nodes| && 0 <= j < |s.nodes| && s.nodes[i].armedAt.Some? && s.nodes[j].armedAt.None? ==>
          at <= s.nodes[i].armedAt.value + b.spread)
    && (forall i :: 0 <= i < |s.nodes| && s.nodes[i].armedAt.Some? ==> at <= s.nodes[i].lastFrame + b.frame)
    && (forall i, j :: 0 <= i < |s.nodes| && 0 <= j < |s.nodes| && Unheard(s, i, j) ==>
          at <= s.nodes[i].claimedAt.value + b.latency)
  }

  predicate Unheard(s: System, i: nat, j: nat)
    requires i < |s.nodes|
  {
    i != j && s.nodes[i].claimedAt.Some? && (i, j) !in s.heard
  }

  predicate Sensible(b: Bounds) { b.spread >= 0.0 && b.frame >= 0.0 && b.latency >= 0.0 }

  /** The stagger between two survivors outlasts every delay. */
  predicate Staggered(b: Bounds) { b.spread + b.frame + b.latency <= T_ELECTION_DELTA_S }

  ghost predicate Runs(g: Group, b: Bounds, start: real, steps: seq<Step>)
    requires |g.hosts| == |g.join|
    decreases |steps|, 0
  {
    if steps == [] then true
    else
      var n := |steps| - 1;
      && Runs(g, b, start, steps[..n])
      && Possible(Reached(g, b, start, steps[..n]), steps[n].action)
      && InTime(Reached(g, b, start, steps[..n]), b, steps[n].at)
  }

  /** The system after a run. */
  ghost function Reached(g: Group, b: Bounds, start: real, steps: seq<Step>): (s: System)
    requires |g.hosts| == |g.join| && Runs(g, b, start, steps)
    ensures |s.nodes| == |g.join|
    decreases |steps|, 1
  {
    if steps == [] then Initial(g, start)
    else
      var n := |steps| - 1;
      Applied(Reached(g, b, start, steps[..n]), g, steps[n])
  }

  // ---- The invariant ----------------------------------------------------------------------

  /** Every bound has been kept up to now. */
  ghost predicate Punctual(s: System, b: Bounds) {
    && InTime(s, b, s.now)
    && (forall i :: 0 <= i < |s.nodes| && s.nodes[i].armedAt.Some? ==> s.nodes[i].armedAt.value <= s.now)
    && (forall i, j ::
          0 <= i < |s.nodes| && 0 <= j < |s.nodes| && s.nodes[i].armedAt.Some? && s.nodes[j].armedAt.Some? ==>
          s.nodes[j].armedAt.value <= s.nodes[i].armedAt.value + b.spread)
  }

  ghost predicate Invariant(s: System, g: Group, b: Bounds, m: nat) {
    && Survivors(g) && |s.nodes| == |g.join| && m < |g.join| && s.now >= 0.0
    && Punctual(s, b)
    && LowestInvariant(s, g, b, m)
    && (forall i :: 0 <= i < |s.nodes| && i != m ==> OtherInvariant(s.nodes[i], (m, i) in s.heard, g, i, m))
    && (forall h :: h in s.heard ==> h.0 == m && s.nodes[m].claimedAt.Some?)
  }

  /** The survivor with the lowest join index: unarmed, counting down, or the claimer of the role. */
  ghost predicate LowestInvariant(s: System, g: Group, b: Bounds, m: nat)
    requires |g.hosts| == |g.join| == |s.nodes| && m < |s.nodes|
  {
    var node, joinIndex := s.nodes[m], g.join[m];
    && node.coordinator.joinIndex == joinIndex && !node.reconnected
    && (node.armedAt.None? ==> node.coordinator.phase == Idle && node.claimedAt.None?)
    && (node.armedAt.Some? ==> node.lastFrame <= s.now)
    && (node.armedAt.Some? && node.claimedAt.None? ==> CountingDown(node, joinIndex))
    && (node.claimedAt.None? ==> !node.promoted && node.pendingAcks == {})
    && (node.claimedAt.Some? ==>
          && node.armedAt.Some? && node.coordinator.phase == Claimed
          && node.armedAt.value + Delay(joinIndex) <= node.claimedAt.value < node.armedAt.value + Delay(joinIndex)
               + b.frame
          && 0.0 <= node.claimedAt.value <= s.now
          && (forall i :: 0 <= i < |s.nodes| ==> s.nodes[i].armedAt.Some?)
          && AwaitingAcks(s, g, m))
  }

  /** After the claim: every other survivor is awaited, has acknowledged, or had its time. */
  ghost predicate AwaitingAcks(s: System, g: Group, m: nat)
    requires |g.hosts| == |g.join| == |s.nodes| && m < |s.nodes| && s.nodes[m].claimedAt.Some?
  {
    var node := s.nodes[m];
    var deadline := node.claimedAt.value + ELECTION_CLAIM_TIMEOUT_S;
    && (forall k :: 0 <= k < |s.nodes| && k != m ==>
         g.hosts[k] in node.pendingAcks || (k, m) in s.acks || deadline <= s.now)
    && (node.promoted <==> node.pendingAcks == {})
    && (!node.promoted ==> node.deadline == deadline && node.lastFrame < deadline)
  }

  ghost predicate CountingDown(node: Node, joinIndex: nat)
    requires node.armedAt.Some?
  {
    && node.coordinator.phase == Pending
    && node.coordinator.expiry == Some(node.armedAt.value + Delay(joinIndex))
    && node.lastFrame < node.armedAt.value + Delay(joinIndex)
  }

  /** Any other survivor never claims; it waits until it hears the lowest one's claim and then
      follows it. */
  ghost predicate OtherInvariant(node: Node, heard: bool, g: Group, i: nat, m: nat)
    requires |g.hosts| == |g.join| && i < |g.join| && m < |g.join|
  {
    && node.coordinator.joinIndex == g.join[i]
    && node.claimedAt.None? && !node.promoted && node.pendingAcks == {}
    && (node.armedAt.None? ==> node.coordinator.phase == Idle)
    && (node.armedAt.Some? && !node.reconnected ==> if heard then FollowsNode(node, g, m)
         else CountingDown(node, g.join[i]))
    && (node.reconnected ==> node.armedAt.Some? && node.coordinator.phase in {Idle, Follower})
  }

  ghost predicate FollowsNode(node: Node, g: Group, m: nat)
    requires |g.hosts| == |g.join| && m < |g.join|
  {
    && node.coordinator.phase == Follower
    && node.coordinator.hostIp == Some(g.hosts[m])
    && node.coordinator.hostJoinIndex == Some(g.join[m])
  }

  lemma DelaysAreStaggered(a: nat, c: nat)
    requires a < c
    ensures Delay(a) + T_ELECTION_DELTA_S <= Delay(c)
  {
    assert (c as real - a as real) >= 1.0;
  }

  /** By the time another survivor's timer could expire, it has processed the lowest one's claim. */
  lemma OthersNeverFire(s: System, g: Group, b: Bounds, m: nat, i: nat, at: real)
    requires Lowest(g, m) && Sensible(b) && Staggered(b)
    requires Invariant(s, g, b, m) && InTime(s, b, at)
    requires i < |s.nodes| && i != m && s.nodes[i].armedAt.Some?
    ensures !Fires(s.nodes[i].coordinator, at)
  {
    var mine, lowest := s.nodes[i], s.nodes[m];
    assert OtherInvariant(mine, (m, i) in s.heard, g, i, m);
    DelaysAreStaggered(g.join[m], g.join[i]);
    if lowest.claimedAt.Some? {
      assert Unheard(s, m, i) ==> at <= lowest.claimedAt.value + b.latency;
    }
  }

  // ---- Every step keeps it ----------------------------------------------------------------

  ghost predicate Ready(s: System, g: Group, b: Bounds, m: nat, step: Step) {
    && Lowest(g, m) && Sensible(b) && Staggered(b)
    && Invariant(s, g, b, m) && InTime(s, b, step.at) && Possible(s, step.action)
  }

  lemma OthersAreQuiet(s: System, g: Group, b: Bounds, m: nat, i: nat)
    requires Invariant(s, g, b, m) && i < |s.nodes|
    ensures i != m ==> s.nodes[i].claimedAt.None? && !s.nodes[i].promoted
  {
    if i != m { assert OtherInvariant(s.nodes[i], (m, i) in s.heard, g, i, m); }
  }

  /** The clocks of the acting node after its step. */
  lemma ClocksAfter(node: Node, g: Group, step: Step)
    requires |g.hosts| == |g.join|
    requires step.action.HearClaim? || step.action.HearAck? ==> step.action.from < |g.join|
    ensures var r := NodeAfter(node, g, step);
      && r.armedAt == (if step.action.Arm? then Some(step.at) else node.armedAt)
      && r.lastFrame == (if step.action.Arm? || step.action.Frame? then step.at else node.lastFrame)
      && r.claimedAt == (if step.action.Frame? && Fires(node.coordinator, step.at) then Some(step.at)
           else node.claimedAt)
  {
  }

  lemma StaysPunctual(s: System, g: Group, b: Bounds, m: nat, step: Step)
    requires Ready(s, g, b, m, step)
    ensures Punctual(Applied(s, g, step), b)
  {
    var t := Applied(s, g, step);
    var a := Actor(step.action);
    ClocksAfter(s.nodes[a], g, step);
    forall i, j | 0 <= i < |t.nodes| && 0 <= j < |t.nodes| && Unheard(t, i, j)
      ensures t.now <= t.nodes[i].claimedAt.value + b.latency
    {
      if s.nodes[i].claimedAt.Some? { assert Unheard(s, i, j); }
    }
  }

  lemma OthersKeep(s: System, g: Group, b: Bounds, m: nat, step: Step, i: nat)
    requires Ready(s, g, b, m, step) && i < |g.join| && i != m
    ensures OtherInvariant(Applied(s, g, step).nodes[i], (m, i) in Applied(s, g, step).heard, g, i, m)
  {
    assert OtherInvariant(s.nodes[i], (m, i) in s.heard, g, i, m);
    if step.action.Frame? && step.action.i == i { OthersNeverFire(s, g, b, m, i, step.at); }
    if step.action.HearClaim? { OthersAreQuiet(s, g, b, m, step.action.from); }
  }

  /** The lowest survivor's part when another node acts: only the clock and the messages change. */
  lemma LowestUnmoved(s: System, g: Group, b: Bounds, m: nat, step: Step)
    requires Ready(s, g, b, m, step) && Actor(step.action) != m
    ensures LowestInvariant(Applied(s, g, step), g, b, m)
  {
    ClocksAfter(s.nodes[Actor(step.action)], g, step);
  }

  lemma LowestAnswered(s: System, g: Group, b: Bounds, m: nat, step: Step)
    requires Ready(s, g, b, m, step) && Actor(step.action) == m && !step.action.Frame?
    ensures LowestInvariant(Applied(s, g, step), g, b, m)
  {
    match step.action {
      case HearClaim(_, from) => OthersAreQuiet(s, g, b, m, from);
      case HearNewHost(_, from) => OthersAreQuiet(s, g, b, m, from);
      case _ =>
    }
  }

  lemma LowestKeeps(s: System, g: Group, b: Bounds, m: nat, step: Step)
    requires Ready(s, g, b, m, step)
    ensures LowestInvariant(Applied(s, g, step), g, b, m)
  {
    if Actor(step.action) != m {
      LowestUnmoved(s, g, b, m, step);
    } else if step.action.Frame? {
      LowestFramed(s, g, b, m, step);
    } else {
      LowestAnswered(s, g, b, m, step);
    }
  }

  lemma LowestFramed(s: System, g: Group, b: Bounds, m: nat, step: Step)
    requires Ready(s, g, b, m, step) && step.action == Frame(m)
    ensures LowestInvariant(Applied(s, g, step), g, b, m)
  {
    assert Delay(g.join[m]) >= T_ELECTION_BASE_S;
  }

  lemma StepKeeps(s: System, g: Group, b: Bounds, m: nat, step: Step)
    requires Ready(s, g, b, m, step)
    ensures Invariant(Applied(s, g, step), g, b, m)
  {
    var t := Applied(s, g, step);
    StaysPunctual(s, g, b, m, step);
    LowestKeeps(s, g, b, m, step);
    forall i | 0 <= i < |t.nodes| && i != m
      ensures OtherInvariant(t.nodes[i], (m, i) in t.heard, g, i, m)
    {
      OthersKeep(s, g, b, m, step, i);
    }
    if step.action.HearClaim? { OthersAreQuiet(s, g, b, m, step.action.from); }
  }

  lemma {:induction false} RunKeepsInvariant(g: Group, b: Bounds, m: nat, start: real, steps: seq<Step>)
    requires Lowest(g, m) && Sensible(b) && Staggered(b) && start >= 0.0
    requires Runs(g, b, start, steps)
    ensures Invariant(Reached(g, b, start, steps), g, b, m)
  {
    if steps != [] {
      var n := |steps| - 1;
      RunKeepsInvariant(g, b, m, start, steps[..n]);
      var s := Reached(g, b, start, steps[..n]);
      StepKeeps(s, g, b, m, steps[n]);
    }
  }

  // ---- Main results -----------------------------------------------------------------------

  /** In every run, only the survivor with the lowest join index claims the role, is followed or
      promotes; it promotes only when every other one acknowledged or had two seconds to. */
  lemma OnlyTheLowestIsElected(g: Group, b: Bounds, m: nat, start: real, steps: seq<Step>)
    requires Lowest(g, m) && Sensible(b) && Staggered(b) && start >= 0.0
    requires Runs(g, b, start, steps)
    ensures var s := Reached(g, b, start, steps);
      && (forall i :: 0 <= i < |g.join| && i != m ==> s.nodes[i].claimedAt.None? && !s.nodes[i].promoted)
      && (forall i :: 0 <= i < |g.join| && s.nodes[i].coordinator.phase == Follower && !s.nodes[i].reconnected ==>
            s.nodes[i].coordinator.hostIp == Some(g.hosts[m]))
      && (s.nodes[m].promoted ==>
            && s.nodes[m].claimedAt.Some?
            && forall k :: 0 <= k < |g.join| && k != m ==>
                 (k, m) in s.acks || s.nodes[m].claimedAt.value + ELECTION_CLAIM_TIMEOUT_S <= s.now)
  {
    RunKeepsInvariant(g, b, m, start, steps);
    var s := Reached(g, b, start, steps);
    forall i | 0 <= i < |g.join| && i != m
      ensures s.nodes[i].claimedAt.None? && !s.nodes[i].promoted
      ensures s.nodes[i].coordinator.phase == Follower && !s.nodes[i].reconnected ==>
                s.nodes[i].coordinator.hostIp == Some(g.hosts[m])
    {
      assert OtherInvariant(s.nodes[i], (m, i) in s.heard, g, i, m);
    }
  }

  /** When the time since some survivor armed its timer exceeds every delay, the lowest one has
      claimed and all others follow it or are already reconnected to it; two seconds and one frame
      after its claim it is host. */
  lemma ElectionSettles(g: Group, b: Bounds, m: nat, start: real, steps: seq<Step>, i: nat)
    requires Lowest(g, m) && Sensible(b) && Staggered(b) && start >= 0.0
    requires Runs(g, b, start, steps) && i < |g.join|
    requires var s := Reached(g, b, start, steps);
      && s.nodes[i].armedAt.Some?
      && s.now > s.nodes[i].armedAt.value + b.spread + Delay(g.join[m]) + b.frame + b.latency
    ensures var s := Reached(g, b, start, steps);
      && s.nodes[m].coordinator.phase == Claimed && s.nodes[m].claimedAt.Some?
      && (forall k :: 0 <= k < |g.join| && k != m ==> s.nodes[k].reconnected || FollowsNode(s.nodes[k], g, m))
      && (s.now > s.nodes[m].claimedAt.value + ELECTION_CLAIM_TIMEOUT_S + b.frame ==> s.nodes[m].promoted)
  {
    RunKeepsInvariant(g, b, m, start, steps);
    var s := Reached(g, b, start, steps);
    var lowest := s.nodes[m];
    assert Delay(g.join[m]) >= 0.0;
    assert lowest.armedAt.Some? && lowest.armedAt.value <= s.nodes[i].armedAt.value + b.spread;
    assert lowest.claimedAt.Some?;
    forall k | 0 <= k < |g.join| && k != m ensures s.nodes[k].reconnected || FollowsNode(s.nodes[k], g, m) {
      assert OtherInvariant(s.nodes[k], (m, k) in s.heard, g, k, m);
      assert !Unheard(s, m, k);
    }
  }
}
