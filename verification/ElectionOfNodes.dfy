/** The timed protocol is what the nodes do: a node that takes the steps of a run stays in
    correspondence with its timed counterpart, so the results on timed runs hold of nodes. */
module ElectionOfNodes {
  import opened Prelude
  import opened Config
  import opened NodeState
  import opened Migration
  import opened ElectionTiming
  import Election

  /** The nodes are those of the group. */
  ghost predicate Members(g: Group, selves: seq<Self>) {
    && Survivors(g) && |selves| == |g.join|
    && forall i :: 0 <= i < |selves| ==> selves[i].joinIndex == g.join[i] && selves[i].ip == g.hosts[i]
  }

  ghost predicate SameCoordinator(c: Election.Coordinator, d: Election.Coordinator) {
    d == c.(knownPeers := d.knownPeers)
  }

  /** The node's election state is that of its timed counterpart: exactly while it takes part, and as
      far as promotion and reconnection go afterwards. */
  ghost predicate Matches(n: State, t: Node, self: Self, others: set<string>) {
    && n.promotionDone == t.promoted
    && (n.role == Host <==> n.promotionDone)
    && (!t.promoted ==>
          && n.reconnected == t.reconnected
          && n.pendingAcks == t.pendingAcks
          && n.deadline == t.deadline
          && n.triggered == (t.armedAt.Some? && !t.reconnected))
    && (!t.promoted && !t.reconnected ==>
          && n.coordinator.Some? && SameCoordinator(n.coordinator.value, t.coordinator)
          && KnownPeers(n.roster, self.id) == others)
    && (t.reconnected ==>
          !t.promoted && t.pendingAcks == {} && t.coordinator.phase in {Election.Idle, Election.Follower})
  }

  /** What the timed action is to the node; `order` is the order of its pending set at that time. */
  function HappeningOf(g: Group, step: Step, order: seq<string>): Happening
    requires GroupAction(g, step.action)
  {
    match step.action
    case Arm(_) => HostLost(step.at)
    case Frame(_) => Happening.Frame(step.at, order)
    case HearClaim(_, from) => ClaimArrives(g.join[from], g.hosts[from])
    case HearAck(_, from) => AckArrives(g.hosts[from], step.at)
    case HearNewHost(_, from) => NewHostArrives(g.hosts[from])
  }

  predicate GroupAction(g: Group, a: Action) {
    && |g.join| == |g.hosts| && Actor(a) < |g.hosts|
    && (a.HearClaim? || a.HearAck? || a.HearNewHost? ==> a.from < |g.hosts|)
  }

  /** A promoted node runs host frames, which have no election part. */
  function Took(n: State, self: Self, g: Group, step: Step, order: seq<string>): State
    requires GroupAction(g, step.action)
  {
    var h := HappeningOf(g, step, order);
    if h.HostLost? && n.coordinator.None? then n
    else if h.Frame? && n.role == Host then n
    else Happened(n, self, h)
  }

  lemma ArmMatches(n: State, t: Node, self: Self, others: set<string>, at: real)
    requires Matches(n, t, self, others) && t.armedAt.None? && !t.promoted && !t.reconnected
    ensures Matches(Confirmed(n, self, at), Armed(t, at), self, others)
  {
  }

  lemma AckMatches(n: State, t: Node, self: Self, others: set<string>, from: string, at: real)
    requires Matches(n, t, self, others)
    ensures Matches(AckHeard(n, self, from, at), Acked(t, from), self, others)
  {
  }

  lemma ClaimMatches(n: State, t: Node, self: Self, others: set<string>, joinIndex: int, from: string)
    requires Matches(n, t, self, others) && t.coordinator.joinIndex == self.joinIndex
    ensures Matches(NodeState.ClaimHeard(n, self, joinIndex, from),
                    t.(coordinator := Election.ClaimHeard(t.coordinator, joinIndex, from)), self, others)
  {
  }

  lemma NewHostMatches(n: State, t: Node, self: Self, others: set<string>, from: string)
    requires Matches(n, t, self, others)
    ensures Matches(NewHostHeard(n, self, from), Reconnected(t), self, others)
  {
  }

  lemma CountdownMatches(n: State, t: Node, self: Self, others: set<string>, at: real)
    requires Matches(n, t, self, others) && !t.promoted && t.armedAt.Some?
    ensures var u := if Election.Fires(t.coordinator, at) then Elected(t, others, at) else t;
      && Matches(CountedDown(n, self, at), u, self, others)
      && (u.promoted ==> !DeadlineReached(CountedDown(n, self, at), at))
  {
  }

  lemma DeadlineMatches(n: State, t: Node, self: Self, others: set<string>, at: real, order: seq<string>)
    requires Matches(n, t, self, others) && t.armedAt.Some? && (t.promoted ==> !DeadlineReached(n, at))
    requires t.reconnected ==> t.pendingAcks == {}
    ensures Matches(if n.coordinator.None? || !n.triggered then n else DeadlineTicked(n, self, order, at),
                    DeadlineChecked(t, at).(lastFrame := at), self, others)
  {
    PeersKeepRole(n, self, order);
  }

  lemma {:induction false} PeersKeepRole(n: State, self: Self, order: seq<string>)
    ensures PeersEvicted(n, self, order).promotionDone == n.promotionDone && PeersEvicted(n, self, order).role == n.role
  {
    if order != [] { PeersKeepRole(n, self, order[..|order| - 1]); }
  }

  lemma FrameMatches(n: State, t: Node, self: Self, others: set<string>, at: real, order: seq<string>)
    requires Matches(n, t, self, others) && !t.promoted && t.armedAt.Some?
    ensures Matches(ElectionTicked(Equipped(n, self), self, order, at), Framed(t, others, at), self, others)
  {
    var m := Equipped(n, self);
    CountdownMatches(m, t, self, others, at);
    var u := if Election.Fires(t.coordinator, at) then Elected(t, others, at) else t;
    DeadlineMatches(CountedDown(m, self, at), u, self, others, at, order);
  }

  lemma StepMatches(n: State, t: Node, g: Group, self: Self, step: Step, order: seq<string>)
    requires GroupAction(g, step.action)
    requires var i := Actor(step.action);
      Matches(n, t, self, Others(g.hosts, i)) && t.coordinator.joinIndex == self.joinIndex
    requires step.action.Arm? ==> t.armedAt.None? && !t.promoted && !t.reconnected
    requires step.action.Frame? ==> t.armedAt.Some?
    ensures Matches(Took(n, self, g, step, order), NodeAfter(t, g, step), self, Others(g.hosts, Actor(step.action)))
  {
    var others := Others(g.hosts, Actor(step.action));
    match step.action {
      case Arm(_) => ArmMatches(n, t, self, others, step.at);
      case Frame(_) => if !t.promoted { FrameMatches(n, t, self, others, step.at, order); }
      case HearClaim(_, from) => ClaimMatches(n, t, self, others, g.join[from], g.hosts[from]);
      case HearAck(_, from) => AckMatches(n, t, self, others, g.hosts[from], step.at);
      case HearNewHost(_, from) => NewHostMatches(n, t, self, others, g.hosts[from]);
    }
  }

  // ---- Whole runs of nodes ----------------------------------------------------------------

  /** Every survivor is a client that sees all the others and has no election going on. */
  ghost predicate Gathered(ns: seq<State>, g: Group, selves: seq<Self>) {
    && Members(g, selves) && |ns| == |g.hosts|
    && forall i :: 0 <= i < |ns| ==> Matches(ns[i], NewNode(g.join[i], g.hosts[i]), selves[i], Others(g.hosts, i))
  }

  /** The nodes after a timed run; `order` gives the iteration order of the pending set at each step. */
  ghost function NodesAfter(ns: seq<State>, g: Group, selves: seq<Self>, b: Bounds, start: real, steps: seq<Step>,
                            order: nat -> seq<string>): (r: seq<State>)
    requires Members(g, selves) && |ns| == |g.hosts| && Runs(g, b, start, steps)
    ensures |r| == |ns|
  {
    if steps == [] then ns
    else
      var n := |steps| - 1;
      var before := NodesAfter(ns, g, selves, b, start, steps[..n], order);
      var i := Actor(steps[n].action);
      before[i := Took(before[i], selves[i], g, steps[n], order(n))]
  }

  lemma {:induction false} NodesFollowTheRun(ns: seq<State>, g: Group, selves: seq<Self>, b: Bounds, m: nat,
      start: real, steps: seq<Step>, order: nat -> seq<string>)
    requires Gathered(ns, g, selves) && Lowest(g, m) && Sensible(b) && Staggered(b) && start >= 0.0
    requires Runs(g, b, start, steps)
    ensures forall i :: 0 <= i < |ns| ==>
              Matches(NodesAfter(ns, g, selves, b, start, steps, order)[i], Reached(g, b, start, steps).nodes[i],
                      selves[i], Others(g.hosts, i))
  {
    if steps != [] {
      var n := |steps| - 1;
      NodesFollowTheRun(ns, g, selves, b, m, start, steps[..n], order);
      var s := Reached(g, b, start, steps[..n]);
      var i := Actor(steps[n].action);
      StillItself(g, b, m, start, steps[..n], i);
      StepMatches(NodesAfter(ns, g, selves, b, start, steps[..n], order)[i], s.nodes[i], g, selves[i], steps[n],
          order(n));
    }
  }

  /** A timed node keeps its join index, and neither promotes nor reconnects before it arms. */
  lemma StillItself(g: Group, b: Bounds, m: nat, start: real, steps: seq<Step>, i: nat)
    requires Lowest(g, m) && Sensible(b) && Staggered(b) && start >= 0.0 && Runs(g, b, start, steps) && i < |g.join|
    ensures var t := Reached(g, b, start, steps).nodes[i];
      t.coordinator.joinIndex == g.join[i] && (t.armedAt.None? ==> !t.promoted && !t.reconnected)
  {
    RunKeepsInvariant(g, b, m, start, steps);
    var s := Reached(g, b, start, steps);
    if i != m { assert OtherInvariant(s.nodes[i], (m, i) in s.heard, g, i, m); }
  }

  /** Survivors that arm, run frames and answer within the bounds: in every run at most the one with
      the lowest join index becomes host, and it is host exactly when its timed counterpart is. */
  lemma OneSurvivorBecomesHost(ns: seq<State>, g: Group, selves: seq<Self>, b: Bounds, m: nat, start: real,
                               steps: seq<Step>, order: nat -> seq<string>)
    requires Gathered(ns, g, selves) && Lowest(g, m) && Sensible(b) && Staggered(b) && start >= 0.0
    requires Runs(g, b, start, steps)
    ensures var after := NodesAfter(ns, g, selves, b, start, steps, order);
      && (forall i :: 0 <= i < |ns| && after[i].role == Host ==> i == m)
      && (after[m].role == Host <==> Reached(g, b, start, steps).nodes[m].promoted)
  {
    NodesFollowTheRun(ns, g, selves, b, m, start, steps, order);
    OnlyTheLowestIsElected(g, b, m, start, steps);
    var after := NodesAfter(ns, g, selves, b, start, steps, order);
    forall i | 0 <= i < |ns| ensures after[i].role == Host <==> Reached(g, b, start, steps).nodes[i].promoted {
      assert Matches(after[i], Reached(g, b, start, steps).nodes[i], selves[i], Others(g.hosts, i));
    }
  }

  // ---- Nothing is heard that was not said ---------------------------------------------------

  /** What an election message is to the node it reaches. */
  function Delivered(m: Message, at: real): Happening
    requires m.NewHostClaim? || m.ElectionAck? || m.ReconnectionAck?
  {
    match m
    case NewHostClaim(ip, joinIndex) => ClaimArrives(joinIndex, ip)
    case ElectionAck(ip) => AckArrives(ip, at)
    case ReconnectionAck(ip) => NewHostArrives(ip)
  }

  /** A node that has claimed has sent its claim to the others, one that has promoted its announcement if
      it still lists anybody else. */
  ghost predicate Said(n: State, t: Node, self: Self, others: set<string>) {
    && (t.claimedAt.Some? && others != {} ==> NewHostClaim(self.ip, self.joinIndex) in n.sent)
    && (t.promoted ==> ReconnectionAck(self.ip) in n.sent || !HasOthers(n.roster, self.id))
  }

  lemma PromotionSays(n: State, self: Self, now: real)
    requires !n.promotionDone
    ensures var r := Promoted(n, self, now);
      n.sent <= r.sent && r.promotionDone && (ReconnectionAck(self.ip) in r.sent || !HasOthers(r.roster, self.id))
  {
    HostEvictionKeepsScenery(TakenOver(n));
  }

  lemma AckSays(n: State, t: Node, self: Self, others: set<string>, from: string, at: real)
    requires Matches(n, t, self, others) && Said(n, t, self, others)
    ensures n.sent <= AckHeard(n, self, from, at).sent
    ensures Said(AckHeard(n, self, from, at), Acked(t, from), self, others)
  {
    hide Promoted;
    if !n.promotionDone { PromotionSays(n.(pendingAcks := n.pendingAcks - {from}), self, at); }
  }

  lemma CountdownSays(n: State, t: Node, self: Self, others: set<string>, at: real)
    requires Matches(n, t, self, others) && Said(n, t, self, others) && !t.promoted && t.armedAt.Some?
    ensures var u := if Election.Fires(t.coordinator, at) then Elected(t, others, at) else t;
      n.sent <= CountedDown(n, self, at).sent && Said(CountedDown(n, self, at), u, self, others)
  {
    hide Promoted;
    if n.coordinator.Some? && n.triggered && Election.Fires(n.coordinator.value, at) {
      PromotionSays(n.(coordinator := Some(Election.Ticked(n.coordinator.value, at))), self, at);
    }
  }

  lemma DeadlineSays(n: State, t: Node, self: Self, others: set<string>, at: real, order: seq<string>)
    requires Matches(n, t, self, others) && Said(n, t, self, others) && t.armedAt.Some?
    requires (t.promoted ==> !DeadlineReached(n, at)) && (t.reconnected ==> t.pendingAcks == {})
    ensures var m := if n.coordinator.None? || !n.triggered then n else DeadlineTicked(n, self, order, at);
      n.sent <= m.sent && Said(m, DeadlineChecked(t, at).(lastFrame := at), self, others)
  {
    hide Promoted;
    if DeadlineReached(n, at) {
      PeersKeepAddress(n, self, order);
      PromotionSays(PeersEvicted(n, self, order).(pendingAcks := {}), self, at);
    }
  }

  lemma FrameSays(n: State, t: Node, self: Self, others: set<string>, at: real, order: seq<string>)
    requires Matches(n, t, self, others) && Said(n, t, self, others) && !t.promoted && t.armedAt.Some?
    ensures var m := ElectionTicked(Equipped(n, self), self, order, at);
      n.sent <= m.sent && Said(m, Framed(t, others, at), self, others)
  {
    hide CountedDown, DeadlineTicked;
    var m := Equipped(n, self);
    CountdownMatches(m, t, self, others, at);
    CountdownSays(m, t, self, others, at);
    var u := if Election.Fires(t.coordinator, at) then Elected(t, others, at) else t;
    DeadlineSays(CountedDown(m, self, at), u, self, others, at, order);
  }

  lemma NewHostSays(n: State, t: Node, self: Self, others: set<string>, from: string)
    requires Matches(n, t, self, others) && Said(n, t, self, others)
    ensures n.sent <= NewHostHeard(n, self, from).sent
    ensures Said(NewHostHeard(n, self, from), Reconnected(t), self, others)
  {
    HostEvictionKeepsScenery(Redirected(n, from));
  }

  lemma ClaimSays(n: State, t: Node, self: Self, others: set<string>, joinIndex: int, from: string)
    requires Said(n, t, self, others)
    ensures n.sent <= NodeState.ClaimHeard(n, self, joinIndex, from).sent
    ensures Said(NodeState.ClaimHeard(n, self, joinIndex, from),
                 t.(coordinator := Election.ClaimHeard(t.coordinator, joinIndex, from)), self, others)
  {
  }

  lemma PromotedFrameSays(n: State, t: Node, self: Self, others: set<string>, at: real)
    requires Said(n, t, self, others) && t.promoted && t.coordinator.phase != Election.Pending
    ensures Said(n, Framed(t, others, at), self, others)
  {
  }

  lemma ArmSays(n: State, t: Node, self: Self, others: set<string>, at: real)
    requires Said(n, t, self, others) && n.coordinator.Some?
    ensures n.sent <= Confirmed(n, self, at).sent && Said(Confirmed(n, self, at), Armed(t, at), self, others)
  {
  }

  lemma StepSays(n: State, t: Node, g: Group, self: Self, step: Step, order: seq<string>)
    requires GroupAction(g, step.action)
    requires var i := Actor(step.action);
      Matches(n, t, self, Others(g.hosts, i)) && Said(n, t, self, Others(g.hosts, i))
    requires step.action.Arm? ==> t.armedAt.None? && !t.promoted && !t.reconnected
    requires step.action.Frame? ==> t.armedAt.Some? && (t.promoted ==> t.coordinator.phase != Election.Pending)
    ensures n.sent <= Took(n, self, g, step, order).sent
    ensures Said(Took(n, self, g, step, order), NodeAfter(t, g, step), self, Others(g.hosts, Actor(step.action)))
  {
    hide AckHeard, ElectionTicked, NewHostHeard, NodeState.ClaimHeard, Confirmed, Said;
    hide Framed, Acked, Reconnected, Armed;
    var others := Others(g.hosts, Actor(step.action));
    match step.action {
      case Arm(_) => ArmSays(n, t, self, others, step.at);
      case Frame(_) =>
        if t.promoted {
          PromotedFrameSays(n, t, self, others, step.at);
        } else {
          FrameSays(n, t, self, others, step.at, order);
        }
      case HearClaim(_, from) => ClaimSays(n, t, self, others, g.join[from], g.hosts[from]);
      case HearAck(_, from) => AckSays(n, t, self, others, g.hosts[from], step.at);
      case HearNewHost(_, from) => NewHostSays(n, t, self, others, g.hosts[from]);
    }
  }

  /** Every acknowledgement on its way was sent by the node it names, unless its receiver has long
      promoted; whoever has reconnected did so after the lowest promoted. */
  ghost predicate AllSaid(ns: seq<State>, s: System, g: Group, selves: seq<Self>, m: nat)
    requires |ns| == |s.nodes| == |g.hosts| == |selves| && m < |ns|
  {
    && (forall i :: 0 <= i < |ns| ==> Said(ns[i], s.nodes[i], selves[i], Others(g.hosts, i)))
    && (forall a :: a in s.acks ==>
          && a.0 < |ns| && a.1 < |ns|
          && (ElectionAck(selves[a.0].ip) in ns[a.0].sent || s.nodes[a.1].promoted))
    && (forall i :: 0 <= i < |ns| && s.nodes[i].reconnected ==> s.nodes[m].promoted)
  }

  lemma ClaimIsAcknowledged(n: State, t: Node, self: Self, others: set<string>, joinIndex: int, ip: string)
    requires Matches(n, t, self, others) && t.coordinator.joinIndex == self.joinIndex
    requires !t.promoted && !t.reconnected && Election.Follows(t.coordinator, joinIndex)
    ensures ElectionAck(self.ip) in NodeState.ClaimHeard(n, self, joinIndex, ip).sent
  {
  }

  lemma ActorStands(s: System, g: Group, b: Bounds, m: nat, i: nat)
    requires Invariant(s, g, b, m) && i < |s.nodes|
    ensures var t := s.nodes[i];
      && t.coordinator.joinIndex == g.join[i] && (t.armedAt.None? ==> !t.promoted && !t.reconnected)
      && (i != m ==> t.claimedAt.None? && !t.promoted)
      && (t.promoted ==> t.coordinator.phase != Election.Pending)
  {
    if i != m { assert OtherInvariant(s.nodes[i], (m, i) in s.heard, g, i, m); }
  }

  /** Promotion stays, and only an announcement makes a node reconnect. */
  lemma PromotionStays(t: Node, g: Group, step: Step)
    requires |g.hosts| == |g.join|
    requires step.action.HearClaim? || step.action.HearAck? ==> step.action.from < |g.join|
    ensures t.promoted ==> NodeAfter(t, g, step).promoted
    ensures NodeAfter(t, g, step).reconnected ==> t.reconnected || step.action.HearNewHost?
  {
  }

  lemma ClaimIsAnswered(ns: seq<State>, s: System, g: Group, selves: seq<Self>, b: Bounds, m: nat, i: nat, from: nat)
    requires Members(g, selves) && |ns| == |s.nodes| == |g.hosts| && m < |ns| && AllSaid(ns, s, g, selves, m)
    requires Invariant(s, g, b, m) && Possible(s, HearClaim(i, from))
    requires Matches(ns[i], s.nodes[i], selves[i], Others(g.hosts, i))
    requires Election.Follows(s.nodes[i].coordinator, g.join[from])
    ensures ElectionAck(selves[i].ip) in NodeState.ClaimHeard(ns[i], selves[i], g.join[from], g.hosts[from]).sent
            || s.nodes[from].promoted
  {
    ActorStands(s, g, b, m, i);
    ActorStands(s, g, b, m, from);
    if !s.nodes[i].reconnected {
      ClaimIsAcknowledged(ns[i], s.nodes[i], selves[i], Others(g.hosts, i), g.join[from], g.hosts[from]);
    }
  }

  lemma StepKeepsAllSaid(ns: seq<State>, s: System, g: Group, selves: seq<Self>, b: Bounds, m: nat, step: Step,
                         order: seq<string>)
    requires Members(g, selves) && |ns| == |s.nodes| == |g.hosts| && m < |ns| && AllSaid(ns, s, g, selves, m)
    requires Invariant(s, g, b, m) && Possible(s, step.action)
    requires forall i :: 0 <= i < |ns| ==> Matches(ns[i], s.nodes[i], selves[i], Others(g.hosts, i))
    ensures var i := Actor(step.action);
      AllSaid(ns[i := Took(ns[i], selves[i], g, step, order)], Applied(s, g, step), g, selves, m)
  {
    hide Matches, Said, NodeAfter, Invariant, Happened, NodeState.ClaimHeard, Took;
    var i := Actor(step.action);
    var n, t := ns[i], s.nodes[i];
    ActorStands(s, g, b, m, i);
    assert GroupAction(g, step.action);
    StepSays(n, t, g, selves[i], step, order);
    PromotionStays(t, g, step);
    if step.action.HearNewHost? { ActorStands(s, g, b, m, step.action.from); }
    if step.action.HearClaim? && Election.Follows(t.coordinator, g.join[step.action.from]) {
      ClaimIsAnswered(ns, s, g, selves, b, m, i, step.action.from);
      ClaimStep(n, selves[i], g, step, order);
    }
    var after := Took(n, selves[i], g, step, order);
    AcksStaySaid(ns, s, g, selves, step, after);
  }

  lemma AcksStaySaid(ns: seq<State>, s: System, g: Group, selves: seq<Self>, step: Step, after: State)
    requires |ns| == |s.nodes| == |g.hosts| == |g.join| == |selves| && Possible(s, step.action)
    requires forall a :: a in s.acks ==>
               && a.0 < |ns| && a.1 < |ns|
               && (ElectionAck(selves[a.0].ip) in ns[a.0].sent || s.nodes[a.1].promoted)
    requires ns[Actor(step.action)].sent <= after.sent
    requires s.nodes[Actor(step.action)].promoted ==> NodeAfter(s.nodes[Actor(step.action)], g, step).promoted
    requires step.action.HearClaim? && Election.Follows(s.nodes[Actor(step.action)].coordinator,
        g.join[step.action.from]) ==>
               ElectionAck(selves[Actor(step.action)].ip) in after.sent || s.nodes[step.action.from].promoted
    ensures var ms, u := ns[Actor(step.action) := after], Applied(s, g, step);
      forall a :: a in u.acks ==>
        && a.0 < |ns| && a.1 < |ns|
        && (ElectionAck(selves[a.0].ip) in ms[a.0].sent || u.nodes[a.1].promoted)
  {
    hide NodeAfter;
  }

  lemma ClaimStep(n: State, self: Self, g: Group, step: Step, order: seq<string>)
    requires GroupAction(g, step.action) && step.action.HearClaim?
    ensures Took(n, self, g, step, order)
         == NodeState.ClaimHeard(n, self, g.join[step.action.from], g.hosts[step.action.from])
  {
  }

  lemma {:induction false} RunKeepsAllSaid(ns: seq<State>, g: Group, selves: seq<Self>, b: Bounds, m: nat, start: real,
                                           steps: seq<Step>, order: nat -> seq<string>)
    requires Gathered(ns, g, selves) && Lowest(g, m) && Sensible(b) && Staggered(b) && start >= 0.0
    requires Runs(g, b, start, steps)
    ensures AllSaid(NodesAfter(ns, g, selves, b, start, steps, order), Reached(g, b, start, steps), g, selves, m)
  {
    if steps != [] {
      hide Matches, AllSaid, Took, Applied, Possible, Invariant;
      var n := |steps| - 1;
      RunKeepsAllSaid(ns, g, selves, b, m, start, steps[..n], order);
      NodesFollowTheRun(ns, g, selves, b, m, start, steps[..n], order);
      RunKeepsInvariant(g, b, m, start, steps[..n]);
      StepKeepsAllSaid(NodesAfter(ns, g, selves, b, start, steps[..n], order), Reached(g, b, start, steps[..n]),
                       g, selves, b, m, steps[n], order(n));
    }
  }

  /** Whatever a node hears in a run is a message the sender has sent by then, with the address and the
      join index in it; except that the timed protocol also repeats an acknowledgement to a host, which
      ignores it, and an announcement by a host that has given up on everybody else. */
  lemma DeliveriesWereSent(ns: seq<State>, g: Group, selves: seq<Self>, b: Bounds, m: nat, start: real,
                           steps: seq<Step>, order: nat -> seq<string>, step: Step)
    requires Gathered(ns, g, selves) && Lowest(g, m) && Sensible(b) && Staggered(b) && start >= 0.0
    requires Runs(g, b, start, steps) && Possible(Reached(g, b, start, steps), step.action)
    requires !step.action.Arm? && !step.action.Frame?
    ensures var after, to, from := NodesAfter(ns, g, selves, b, start, steps, order), Actor(step.action),
        step.action.from;
      || (exists message :: message in after[from].sent && IsElection(message)
            && Delivered(message, step.at) == HappeningOf(g, step, order(|steps|)))
      || (step.action.HearAck? && after[to].promotionDone)
      || (step.action.HearNewHost? && !HasOthers(after[from].roster, selves[from].id))
  {
    hide Invariant, NodesAfter, HasOthers, InTime;
    var after, s := NodesAfter(ns, g, selves, b, start, steps, order), Reached(g, b, start, steps);
    RunKeepsAllSaid(ns, g, selves, b, m, start, steps, order);
    NodesFollowTheRun(ns, g, selves, b, m, start, steps, order);
    var to, from := Actor(step.action), step.action.from;
    assert Said(after[from], s.nodes[from], selves[from], Others(g.hosts, from));
    assert Matches(after[to], s.nodes[to], selves[to], Others(g.hosts, to));
    match step.action {
      case HearClaim(_, _) =>
        assert g.hosts[to] in Others(g.hosts, from);
        assert IsElection(NewHostClaim(selves[from].ip, selves[from].joinIndex));
      case HearAck(_, _) => assert IsElection(ElectionAck(selves[from].ip));
      case HearNewHost(_, _) => assert IsElection(ReconnectionAck(selves[from].ip));
    }
  }

  predicate IsElection(m: Message) { m.NewHostClaim? || m.ElectionAck? || m.ReconnectionAck? }

  // ---- The handshake of two nodes ---------------------------------------------------------

  function LastOf(n: State): Message
    requires n.sent != []
  {
    n.sent[|n.sent| - 1]
  }

  lemma ClaimGoesOut(a: State, first: Self, now: real)
    requires KnownPeers(a.roster, first.id) != {}
    ensures var claimer := SelfElected(a, first, now);
      && claimer.sent == a.sent + [NewHostClaim(first.ip, first.joinIndex)]
      && claimer == a.(sent := claimer.sent, pendingAcks := KnownPeers(a.roster, first.id),
           deadline := claimer.deadline)
  {
  }

  lemma AnnouncementGoesOut(n: State, self: Self, now: real)
    requires !n.promotionDone
    ensures var host := Promoted(n, self, now);
      && host.promotionDone && host.role == Host && host.pendingAcks == n.pendingAcks
      && host.sent == if HasOthers(host.roster, self.id) then n.sent + [ReconnectionAck(self.ip)] else n.sent
  {
    HostEvictionKeepsScenery(TakenOver(n));
  }

  lemma AnnouncementLeads(n: State, self: Self, ip: string)
    requires !n.promotionDone && !n.reconnected
    ensures NewHostHeard(n, self, ip).reconnected && NewHostHeard(n, self, ip).remoteHost == ip
  {
    HostEvictionKeepsScenery(Redirected(n, ip));
  }

  /** Two survivors, each hearing what the other one sent last: the claim is followed, the acknowledgement
      is the one awaited, and the announcement leads the follower to the new host. */
  lemma HandshakeSucceeds(a: State, first: Self, b: State, second: Self, now: real)
    requires !a.promotionDone && KnownPeers(a.roster, first.id) == {second.ip}
    requires Consistent(b, second) && !b.promotionDone && !b.reconnected && b.coordinator.Some?
    requires first.joinIndex < second.joinIndex
    ensures var claimer := SelfElected(a, first, now);
      && claimer.sent != [] && LastOf(claimer).NewHostClaim?
      && var follower := Happened(b, second, Delivered(LastOf(claimer), now));
         && follower.following == Some(first.ip) && follower.sent != [] && LastOf(follower).ElectionAck?
         && var host := Happened(claimer, first, Delivered(LastOf(follower), now));
            && host.promotionDone && host.role == Host && host.pendingAcks == {}
            && (HasOthers(host.roster, first.id) ==>
                  && host.sent != [] && LastOf(host).ReconnectionAck?
                  && var led := Happened(follower, second, Delivered(LastOf(host), now));
                     led.reconnected && led.remoteHost == first.ip)
  {
    hide SelfElected, Promoted, NewHostHeard;
    ClaimGoesOut(a, first, now);
    var claimer := SelfElected(a, first, now);
    var follower := Happened(b, second, Delivered(LastOf(claimer), now));
    assert LastOf(follower) == ElectionAck(second.ip);
    var host := Happened(claimer, first, Delivered(LastOf(follower), now));
    assert host == Promoted(claimer.(pendingAcks := {}), first, now);
    AnnouncementGoesOut(claimer.(pendingAcks := {}), first, now);
    AnnouncementLeads(follower, second, first.ip);
  }

  /** The same for one peer among many: its acknowledgement takes exactly it off the list of those the
      claimer awaits. */
  lemma AcknowledgementReachesTheClaimer(claimer: State, first: Self, b: State, second: Self, now: real)
    requires !claimer.promotionDone && second.ip in claimer.pendingAcks
    requires Consistent(b, second) && b.coordinator.Some? && first.joinIndex < second.joinIndex
    ensures var follower := NodeState.ClaimHeard(b, second, first.joinIndex, first.ip);
      && follower.sent != [] && LastOf(follower).ElectionAck?
      && Happened(claimer, first, Delivered(LastOf(follower), now)).pendingAcks == claimer.pendingAcks - {second.ip}
  {
    hide Promoted;
    var follower := NodeState.ClaimHeard(b, second, first.joinIndex, first.ip);
    assert LastOf(follower) == ElectionAck(second.ip);
    AnnouncementGoesOut(claimer.(pendingAcks := claimer.pendingAcks - {second.ip}), first, now);
  }
}
