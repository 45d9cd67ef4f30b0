/** The node as an object: its engine, roster, input cache and election coordinator change in place,
    each method reaching the state that NodeState describes. */
module GameNodeModel {
  import opened Prelude
  import opened Config
  import opened Entities
  import opened NodeState
  import Simulation
  import Roster
  import Election
  import Inputs = HostInputs
  import opened GameEngineModel

  class GameNode {
    const self: Self
    const engine: GameEngine
    const roster: Roster.GlobalRoster
    const inputs: Inputs.HostInputCache
    var coordinator: Election.ElectionCoordinator?
    var role: Role
    var promotionDone: bool
    var electionTriggered: bool
    var reconnected: bool
    var pendingElectionAcks: set<string>
    var electionClaimDeadline: real
    var followingHostIp: Option<string>
    var remoteHost: string
    var lastSnapshotSequence: int
    var rejoinStates: map<int, Player>
    var lastSnapshot: Option<Simulation.World>
    var sent: seq<Message>

    ghost function State(): NodeState.State
      reads this, engine, roster, inputs, coordinator
    {
      NodeState.State(
        roster.players, engine.world, engine.isAuthoritative, role, promotionDone, electionTriggered, reconnected,
        pendingElectionAcks, electionClaimDeadline,
        if coordinator == null then None else Some(coordinator.State()),
        followingHostIp, remoteHost, lastSnapshotSequence, rejoinStates, lastSnapshot,
        inputs.State(), inputs.lastInputTime, sent)
    }

    ghost predicate Valid()
      reads this, engine, roster, inputs, coordinator
    {
      Consistent(State(), self)
    }

    /** Bootstrap of a client: its engine waits for the host's word. */
    constructor (self: Self, engine: GameEngine, roster: Roster.GlobalRoster, inputs: Inputs.HostInputCache,
        hostIp: string)
      requires !engine.isAuthoritative && Roster.DistinctIndices(roster.players)
      ensures this.self == self && this.engine == engine && this.roster == roster && this.inputs == inputs
      ensures Valid() && State() == NodeState.State(
                roster.players, engine.world, false, Client, false, false, false, {}, 0.0, None,
                None, hostIp, 0, map[], None, inputs.State(), inputs.lastInputTime, [])
    {
      this.self, this.engine, this.roster, this.inputs := self, engine, roster, inputs;
      coordinator, role, promotionDone, electionTriggered, reconnected := null, Client, false, false, false;
      pendingElectionAcks, electionClaimDeadline, followingHostIp, remoteHost := {}, 0.0, None, hostIp;
      lastSnapshotSequence, rejoinStates, lastSnapshot, sent := 0, map[], None, [];
    }

    method EvictPlayer(id: string)
      requires Valid()
      modifies this, engine, roster, inputs
      ensures Valid() && State() == Evicted(old(State()), id) && coordinator == old(coordinator)
    {
      var i := Roster.FindPlayer(roster.players, id);
      var j := Simulation.FindPlayer(engine.world.players, id);
      if i >= 0 && j >= 0 {
        rejoinStates := rejoinStates[roster.players[i].joinIndex := engine.world.players[j]];
      }
      engine.world := engine.world.(players := Simulation.RemovePlayer(engine.world.players, id));
      roster.RemovePlayer(id);
      inputs.cachedRemoteInputs := inputs.cachedRemoteInputs - {id};
      inputs.lastRemoteInputSequence := inputs.lastRemoteInputSequence - {id};
      inputs.lastInputTime := inputs.lastInputTime - {id};
    }

    method OnPlayerLeft(id: string)
      requires Valid()
      modifies this, engine, roster, inputs
      ensures Valid() && State() == LeftHeard(old(State()), self, id) && coordinator == old(coordinator)
    {
      if id != self.id { EvictPlayer(id); }
    }

    method DropPlayer(id: string)
      requires Valid()
      modifies this, engine, roster, inputs
      ensures Valid() && State() == Dropped(old(State()), id) && coordinator == old(coordinator)
    {
      EvictPlayer(id);
      sent := sent + [PlayerLeftNotice(id)];
    }

    /** `disconnected` are the players reported by the event server, `heard` the players with a last
        input time, in their order. */
    method CheckPlayerDisconnections(disconnected: seq<string>, heard: seq<string>, now: real)
      requires Valid()
      modifies this, engine, roster, inputs
      ensures Valid() && coordinator == old(coordinator)
      ensures State() == SilentDropped(AllDropped(old(State()), disconnected), heard, now)
    {
      DropDisconnected(disconnected);
      ghost var before := State();
      var k := 0;
      while k < |heard|
        invariant 0 <= k <= |heard| && coordinator == old(coordinator)
        invariant Valid() && State() == SilentDropped(before, heard[..k], now)
      {
        assert heard[..k + 1][..k] == heard[..k];
        var id := heard[k];
        if id in inputs.lastInputTime && now - inputs.lastInputTime[id] > UDP_INPUT_TIMEOUT { DropPlayer(id); }
        k := k + 1;
      }
      assert heard[..k] == heard;
    }

    /** Empties the input socket. */
    method DrainInputs(packets: seq<Inputs.Packet>, now: real)
      requires Valid()
      modifies inputs
      ensures Valid() && State() == InputsHeard(old(State()), packets, now)
    {
      var _ := inputs.DrainRemoteInputPackets(packets, now);
    }

    method DropDisconnected(disconnected: seq<string>)
      requires Valid()
      modifies this, engine, roster, inputs
      ensures Valid() && coordinator == old(coordinator) && State() == AllDropped(old(State()), disconnected)
    {
      var k := 0;
      while k < |disconnected|
        invariant 0 <= k <= |disconnected| && coordinator == old(coordinator)
        invariant Valid() && State() == AllDropped(old(State()), disconnected[..k])
      {
        assert disconnected[..k + 1][..k] == disconnected[..k];
        DropPlayer(disconnected[k]);
        k := k + 1;
      }
      assert disconnected[..k] == disconnected;
    }

    method EnsureElectionComponents()
      requires Valid()
      modifies this
      ensures Valid() && coordinator != null && State() == Equipped(old(State()), self)
      ensures coordinator == old(coordinator) || fresh(coordinator)
    {
      if coordinator != null { return; }
      coordinator := new Election.ElectionCoordinator(self.joinIndex, self.ip);
      lastSnapshot := None;
    }

    method BeginElection(now: real)
      requires Valid() && coordinator != null
      modifies this, coordinator
      ensures Valid() && coordinator == old(coordinator) && State() == Confirmed(old(State()), self, now)
    {
      electionTriggered := true;
      coordinator.StartElection(KnownPeers(roster.players, self.id));
      coordinator.SetElectionTimer(now);
    }

    method TickElectionState(now: real, order: seq<string>)
      requires Valid()
      modifies this, engine, roster, inputs, coordinator
      ensures Valid() && coordinator == old(coordinator)
      ensures State() == ElectionTicked(old(State()), self, order, now)
    {
      if coordinator == null || !electionTriggered { return; }
      var outcome := coordinator.Tick(now);
      assert outcome.Ok?;
      if outcome.value.Some? { OnSelfElected(now); }
      TickClaimDeadline(order, now);
    }

    method OnSelfElected(now: real)
      requires Valid()
      modifies this, engine, roster, inputs
      ensures Valid() && coordinator == old(coordinator) && electionTriggered == old(electionTriggered)
      ensures State() == SelfElected(old(State()), self, now)
    {
      var peers := KnownPeers(roster.players, self.id);
      if peers == {} {
        PromoteToHost(now);
        return;
      }
      sent := sent + [NewHostClaim(self.ip, self.joinIndex)];
      pendingElectionAcks := peers;
      electionClaimDeadline := now + ELECTION_CLAIM_TIMEOUT_S;
    }

    method OnElectionAck(ip: string, now: real)
      requires Valid()
      modifies this, engine, roster, inputs
      ensures Valid() && coordinator == old(coordinator) && State() == AckHeard(old(State()), self, ip, now)
    {
      if promotionDone { return; }
      if ip !in pendingElectionAcks { return; }
      pendingElectionAcks := pendingElectionAcks - {ip};
      if pendingElectionAcks == {} { PromoteToHost(now); }
    }

    method OnNewHostClaim(joinIndex: int, ip: string)
      requires Valid()
      modifies this, coordinator
      ensures Valid() && coordinator == old(coordinator) && State() == ClaimHeard(old(State()), self, joinIndex, ip)
    {
      if joinIndex == self.joinIndex { return; }
      if coordinator == null { return; }
      var outcome := coordinator.OnNewHostClaim(joinIndex, ip);
      if outcome.Some? {
        followingHostIp := Some(ip);
        sent := sent + [ElectionAck(self.ip)];
      }
    }

    method TickClaimDeadline(order: seq<string>, now: real)
      requires Valid()
      modifies this, engine, roster, inputs
      ensures Valid() && coordinator == old(coordinator) && State() == DeadlineTicked(old(State()), self, order, now)
    {
      if promotionDone || pendingElectionAcks == {} { return; }
      if electionClaimDeadline == 0.0 || now < electionClaimDeadline { return; }
      EvictSilentPeers(order);
      pendingElectionAcks := {};
      PromoteToHost(now);
    }

    method EvictSilentPeers(order: seq<string>)
      requires Valid()
      modifies this, engine, roster, inputs
      ensures Valid() && coordinator == old(coordinator) && State() == PeersEvicted(old(State()), self, order)
    {
      var k := 0;
      while k < |order|
        invariant 0 <= k <= |order| && coordinator == old(coordinator)
        invariant Valid() && State() == PeersEvicted(old(State()), self, order[..k])
      {
        assert order[..k + 1][..k] == order[..k];
        EvictPeerAt(order[k]);
        k := k + 1;
      }
      assert order[..k] == order;
    }

    method EvictPeerAt(ip: string)
      requires Valid()
      modifies this, engine, roster, inputs
      ensures Valid() && coordinator == old(coordinator) && State() == PeerEvicted(old(State()), self, ip)
    {
      var listed := Roster.Sorted(roster.players);
      var i := EntryAt(listed, ip, self.id);
      if i >= 0 { EvictPlayer(listed[i].playerId); }
    }

    method PromoteToHost(now: real)
      requires Valid()
      modifies this, engine, roster, inputs
      ensures Valid() && coordinator == old(coordinator) && electionTriggered == old(electionTriggered)
      ensures State() == Promoted(old(State()), self, now)
    {
      if promotionDone { return; }
      TakeOver();
      EvictHost();
      Announce(now);
    }

    method TakeOver()
      requires Valid()
      modifies this, engine
      ensures Valid() && coordinator == old(coordinator) && State() == TakenOver(old(State()))
    {
      promotionDone := true;
      engine.isAuthoritative := true;
      if lastSnapshot.Some? {
        engine.world := lastSnapshot.value;
        lastSnapshotSequence := lastSnapshot.value.number;
      }
    }

    method EvictHost()
      requires Valid()
      modifies this, engine, roster, inputs
      ensures Valid() && coordinator == old(coordinator) && State() == HostEvicted(old(State()))
    {
      var crashed := Roster.FindHost(roster.players);
      if crashed >= 0 { EvictPlayer(roster.players[crashed].playerId); }
    }

    method Announce(now: real)
      requires Valid()
      modifies this, roster, inputs
      ensures Valid() && coordinator == old(coordinator) && State() == Announced(old(State()), self, now)
    {
      roster.PromoteHost(self.id);
      if HasOthers(roster.players, self.id) { sent := sent + [ReconnectionAck(self.ip)]; }
      FinishPromotion(now);
    }

    method FinishPromotion(now: real)
      modifies this`role, inputs`lastInputTime
      ensures State() == old(State()).(
                heardAt := Graced(old(inputs.lastInputTime), OtherIds(roster.players, self.id), now), role := Host)
    {
      GiveGracePeriod(now);
      role := Host;
    }

    method GiveGracePeriod(now: real)
      modifies inputs`lastInputTime
      ensures inputs.lastInputTime == Graced(old(inputs.lastInputTime), OtherIds(roster.players, self.id), now)
    {
      var listed := Roster.Sorted(roster.players);
      Roster.SameEntries(roster.players);
      assert OtherIds(listed, self.id) == OtherIds(roster.players, self.id);
      var k := 0;
      while k < |listed|
        invariant 0 <= k <= |listed|
        invariant inputs.lastInputTime == Graced(old(inputs.lastInputTime), OtherIds(listed[..k], self.id), now)
      {
        OtherIdsGrow(listed, k, self.id);
        GraceGrows(old(inputs.lastInputTime), OtherIds(listed[..k], self.id), listed[k].playerId, now);
        if listed[k].playerId != self.id {
          inputs.lastInputTime := inputs.lastInputTime[listed[k].playerId := now];
        }
        k := k + 1;
      }
      assert listed[..k] == listed;
    }

    method OnReconnectionAck(ip: string)
      requires Valid()
      modifies this, engine, roster, inputs
      ensures Valid() && State() == NewHostHeard(old(State()), self, ip)
    {
      if reconnected || promotionDone { return; }
      Redirect(ip);
      RepointRosterAt(ip);
      electionTriggered, pendingElectionAcks, electionClaimDeadline, coordinator := false, {}, 0.0, null;
    }

    method Redirect(ip: string)
      requires Valid()
      modifies this, engine
      ensures Valid() && coordinator == old(coordinator) && State() == Redirected(old(State()), ip)
    {
      reconnected := true;
      remoteHost := ip;
      if lastSnapshot.Some? {
        engine.world := Simulation.Rebased(lastSnapshot.value, engine.world);
      }
      lastSnapshotSequence := 0;
    }

    method RepointRosterAt(ip: string)
      requires Valid()
      modifies this, engine, roster, inputs
      ensures Valid() && coordinator == old(coordinator) && State() == Repointed(old(State()), ip)
    {
      EvictHost();
      var listed := Roster.Sorted(roster.players);
      var newHost := EntryWithHost(listed, ip);
      if newHost >= 0 { roster.PromoteHost(listed[newHost].playerId); }
    }

    method MergeRoster(es: seq<Roster.Entry>)
      requires Valid() && Roster.DistinctIndices(es)
      modifies roster
      ensures Valid() && State() == RosterMerged(old(State()), self, es)
    {
      var known := Roster.IndicesOf(roster.players);
      ghost var was := roster.players;
      var k := 0;
      while k < |es|
        invariant 0 <= k <= |es| && roster.players == Learned(was, known, self.id, es[..k])
        invariant Roster.DistinctIndices(roster.players)
        invariant forall e :: e in roster.players ==> e.joinIndex in known || e in es[..k]
      {
        assert es[..k + 1][..k] == es[..k];
        if es[k].joinIndex !in known && es[k].playerId != self.id {
          var added := roster.AddPlayer(es[k]);
          assert added.Ok?;
        }
        k := k + 1;
      }
      assert es[..k] == es;
    }

    /** `es` is the roster received from the lobby in the order of its join indices. */
    method CheckForRejoiningPlayers(es: seq<Roster.Entry>, now: real)
      requires Valid()
      modifies this, engine, roster, inputs
      ensures Valid() && coordinator == old(coordinator)
      ensures State() == BroadcastHeard(old(State()), self, engine.setup, es, now)
    {
      var someone := false;
      var k := 0;
      while k < |es|
        invariant 0 <= k <= |es| && coordinator == old(coordinator)
        invariant Valid() && State() == AllReentered(old(State()), self, engine.setup, es[..k], now)
        invariant someone == SomeoneEnters(old(State()), self, engine.setup, es[..k], now)
      {
        assert es[..k + 1][..k] == es[..k];
        var entered := Reenter(es[k], now);
        someone := someone || entered;
        k := k + 1;
      }
      assert es[..k] == es;
      if someone { sent := sent + [InitialStateSync(engine.world)]; }
    }

    method Reenter(e: Roster.Entry, now: real) returns (entered: bool)
      requires Valid()
      modifies this, engine, roster, inputs
      ensures Valid() && coordinator == old(coordinator)
      ensures entered == Enters(old(State()), self, e)
      ensures State() == Reentered(old(State()), self, engine.setup, e, now)
    {
      if e.playerId == self.id { return false; }
      var i := Roster.FindIndex(roster.players, e.joinIndex);
      if i >= 0 && roster.players[i].playerId != e.playerId { return false; }
      if i >= 0 && roster.players[i].host == e.host && roster.players[i].udpPort == e.udpPort
         && e.joinIndex !in rejoinStates {
        return false;
      }
      Enter(e, i, now);
      return true;
    }

    method Enter(e: Roster.Entry, i: int, now: real)
      requires Valid() && Enters(State(), self, e) && i == Roster.FindIndex(roster.players, e.joinIndex)
      modifies this, engine, roster, inputs
      ensures Valid() && coordinator == old(coordinator)
      ensures State() == Reentered(old(State()), self, engine.setup, e, now)
    {
      hide Enters, Roster.FindIndex, PlayersWith, EntriesWith;
      PutBackCharacter(e, i >= 0);
      ReplaceEntry(e, i);
      inputs.lastInputTime := inputs.lastInputTime[e.playerId := now];
    }

    /** The entry at position i, if any, gives way to the new one. */
    method ReplaceEntry(e: Roster.Entry, i: int)
      requires Valid() && i == Roster.FindIndex(roster.players, e.joinIndex)
      modifies roster
      ensures Roster.DistinctIndices(roster.players)
      ensures roster.players == EntriesWith(old(roster.players), e)
    {
      if i >= 0 {
        IndexIsGone(roster.players, i);
        roster.RemovePlayer(roster.players[i].playerId);
      }
      var added := roster.AddPlayer(e);
      assert added.Ok?;
    }

    /** The saved character returns; without one, a participant new to the roster is spawned. */
    method PutBackCharacter(e: Roster.Entry, known: bool)
      requires Valid()
      modifies this`rejoinStates, engine
      ensures Valid() && coordinator == old(coordinator)
      ensures State() == old(State()).(
                rejoinStates := old(rejoinStates) - {e.joinIndex},
                world := old(engine.world).(players := PlayersWith(old(State()), engine.setup, e, known)))
    {
      if e.joinIndex in rejoinStates {
        var restored := rejoinStates[e.joinIndex];
        rejoinStates := rejoinStates - {e.joinIndex};
        var character := restored.(id := e.playerId, joinIndex := e.joinIndex);
        engine.world := engine.world.(players := Simulation.PutPlayer(engine.world.players, character));
      } else if !known {
        engine.SpawnPlayer(e.playerId, Simulation.SpawnPosition(engine.setup, e.joinIndex), e.joinIndex);
      }
    }
  }

  lemma GraceGrows(heardAt: map<string, real>, ids: set<string>, id: string, now: real)
    ensures Graced(heardAt, ids + {id}, now) == Graced(heardAt, ids, now)[id := now]
    ensures Graced(heardAt, ids + {}, now) == Graced(heardAt, ids, now)
  {
    assert ids + {} == ids;
  }

  lemma OtherIdsGrow(ps: seq<Roster.Entry>, k: nat, id: string)
    requires k < |ps|
    ensures OtherIds(ps[..k + 1], id) == OtherIds(ps[..k], id) + if ps[k].playerId != id then {ps[k].playerId} else {}
  {
    assert ps[..k + 1] == ps[..k] + [ps[k]];
    assert forall e :: e in ps[..k + 1] <==> e in ps[..k] || e == ps[k];
  }

  lemma IndexIsGone(ps: seq<Roster.Entry>, i: nat)
    requires Roster.DistinctIndices(ps) && i < |ps|
    ensures !Roster.HasIndex(Roster.WithoutPlayer(ps, ps[i].playerId), ps[i].joinIndex)
  {
    var rest := Roster.WithoutPlayer(ps, ps[i].playerId);
    forall k | 0 <= k < |rest| ensures rest[k].joinIndex != ps[i].joinIndex {
      assert rest[k] in ps;
    }
  }
}
