/** One node's part in membership and migration: election, promotion, following a new host, eviction
    and re-entry (application/election/mixin.py, application/gameplay/client.py,
    application/gameplay/events.py, application/gameplay/host.py). The state is a value here; the
    object that changes it step by step is in GameNode. */
module NodeState {
  import opened Prelude
  import opened Config
  import opened Entities
  import Simulation
  import Roster
  import Election
  import Inputs = HostInputs

  /** What never changes about a node. */
  datatype Self = Self(id: string, ip: string, joinIndex: nat, sessionId: string)

  datatype Role = Client | Host

  datatype Message =
    | NewHostClaim(ip: string, joinIndex: int)
    | ElectionAck(ip: string)
    | ReconnectionAck(ip: string)
    | InitialStateSync(world: Simulation.World)
    | PlayerLeftNotice(id: string)

  datatype State = State(
    roster: seq<Roster.Entry>, world: Simulation.World, authoritative: bool,
    role: Role, promotionDone: bool, triggered: bool, reconnected: bool,
    pendingAcks: set<string>, deadline: real, coordinator: Option<Election.Coordinator>,
    following: Option<string>, remoteHost: string, lastSequence: int,
    rejoinStates: map<int, Player>, lastSnapshot: Option<Simulation.World>,
    cache: Inputs.Cache, heardAt: map<string, real>, sent: seq<Message>)

  /** What the operations rely on. */
  ghost predicate Consistent(n: State, self: Self) {
    && Roster.DistinctIndices(n.roster)
    && (n.coordinator.None? ==> !n.triggered)
    && (n.coordinator.Some? ==>
          && n.coordinator.value.joinIndex == self.joinIndex && n.coordinator.value.ip == self.ip
          && (n.coordinator.value.phase == Election.Pending ==> n.coordinator.value.expiry.Some?))
  }

  // ---- Eviction ---------------------------------------------------------------------------

  /** Removes a participant; a listed one that is alive is remembered under its join index. */
  function Evicted(n: State, id: string): State {
    var i := Roster.FindPlayer(n.roster, id);
    var j := Simulation.FindPlayer(n.world.players, id);
    n.(rejoinStates := if i >= 0 && j >= 0 then n.rejoinStates[n.roster[i].joinIndex := n.world.players[j]]
                       else n.rejoinStates,
       world := n.world.(players := Simulation.RemovePlayer(n.world.players, id)),
       roster := Roster.WithoutPlayer(n.roster, id),
       cache := Inputs.Cache(n.cache.numbers - {id}, n.cache.inputs - {id}),
       heardAt := n.heardAt - {id})
  }

  function LeftHeard(n: State, self: Self, id: string): State { if id == self.id then n else Evicted(n, id) }

  function Dropped(n: State, id: string): State {
    var n := Evicted(n, id);
    n.(sent := n.sent + [PlayerLeftNotice(id)])
  }

  /** Players whose connection broke. */
  function AllDropped(n: State, ids: seq<string>): State {
    if ids == [] then n else Dropped(AllDropped(n, ids[..|ids| - 1]), ids[|ids| - 1])
  }

  predicate TimedOut(heardAt: map<string, real>, id: string, now: real) {
    id in heardAt && now - heardAt[id] > UDP_INPUT_TIMEOUT
  }

  /** Players not heard for too long; `ids` lists whoever was ever heard. */
  function SilentDropped(n: State, ids: seq<string>, now: real): State {
    if ids == [] then n
    else
      var id, n := ids[|ids| - 1], SilentDropped(n, ids[..|ids| - 1], now);
      if TimedOut(n.heardAt, id, now) then Dropped(n, id) else n
  }

  /** Inputs reach a host: recorded for any player id, listed or not. */
  function InputsHeard(n: State, packets: seq<Inputs.Packet>, now: real): State {
    n.(cache := Inputs.CachedAll(n.cache, packets), heardAt := Inputs.HeardAt(n.heardAt, n.cache, packets, now))
  }

  // ---- Election and promotion -------------------------------------------------------------

  /** Addresses of the surviving peers. */
  function KnownPeers(ps: seq<Roster.Entry>, id: string): (r: set<string>)
    ensures forall ip :: ip in r <==> exists e :: e in ps && !e.isHost && e.playerId != id && e.host == ip
  {
    set e | e in ps && !e.isHost && e.playerId != id :: e.host
  }

  /** First entry of another participant at this address, or -1. */
  function EntryAt(ps: seq<Roster.Entry>, ip: string, id: string): (i: int)
    ensures -1 <= i < |ps|
    ensures i >= 0 ==> ps[i].host == ip && ps[i].playerId != id
    ensures i < 0 ==> forall k :: 0 <= k < |ps| ==> ps[k].host != ip || ps[k].playerId == id
  {
    if ps == [] then -1
    else if ps[0].host == ip && ps[0].playerId != id then 0
    else var i := EntryAt(ps[1..], ip, id); if i < 0 then -1 else i + 1
  }

  function PeerEvicted(n: State, self: Self, ip: string): State {
    var listed := Roster.Sorted(n.roster);
    var i := EntryAt(listed, ip, self.id);
    if i < 0 then n else Evicted(n, listed[i].playerId)
  }

  function PeersEvicted(n: State, self: Self, ips: seq<string>): State {
    if ips == [] then n else PeerEvicted(PeersEvicted(n, self, ips[..|ips| - 1]), self, ips[|ips| - 1])
  }

  predicate HasOthers(ps: seq<Roster.Entry>, id: string) { exists i :: 0 <= i < |ps| && ps[i].playerId != id }

  function OtherIds(ps: seq<Roster.Entry>, id: string): set<string> {
    set e | e in ps && e.playerId != id :: e.playerId
  }

  /** Every other participant counts as heard just now. */
  function Graced(heardAt: map<string, real>, ids: set<string>, now: real): map<string, real> {
    map k | k in heardAt.Keys + ids :: if k in ids then now else heardAt[k]
  }

  function HostEvicted(n: State): State {
    var h := Roster.FindHost(n.roster);
    if h < 0 then n else Evicted(n, n.roster[h].playerId)
  }

  function TakenOver(n: State): State {
    var n := n.(promotionDone := true, authoritative := true);
    if n.lastSnapshot.None? then n
    else n.(world := n.lastSnapshot.value, lastSequence := n.lastSnapshot.value.number)
  }

  function Announced(n: State, self: Self, now: real): State {
    var n := n.(roster := Roster.Promoted(n.roster, self.id));
    n.(sent := if HasOthers(n.roster, self.id) then n.sent + [ReconnectionAck(self.ip)] else n.sent,
       heardAt := Graced(n.heardAt, OtherIds(n.roster, self.id), now), role := Host)
  }

  /** Takes over from the last snapshot, without the crashed host, as the only host. */
  function Promoted(n: State, self: Self, now: real): State {
    if n.promotionDone then n else Announced(HostEvicted(TakenOver(n)), self, now)
  }

  function SelfElected(n: State, self: Self, now: real): State {
    var peers := KnownPeers(n.roster, self.id);
    if peers == {} then Promoted(n, self, now)
    else n.(sent := n.sent + [NewHostClaim(self.ip, self.joinIndex)], pendingAcks := peers,
            deadline := now + ELECTION_CLAIM_TIMEOUT_S)
  }

  function AckHeard(n: State, self: Self, ip: string, now: real): State {
    if n.promotionDone || ip !in n.pendingAcks then n
    else
      var n := n.(pendingAcks := n.pendingAcks - {ip});
      if n.pendingAcks == {} then Promoted(n, self, now) else n
  }

  function ClaimHeard(n: State, self: Self, joinIndex: int, ip: string): State {
    if joinIndex == self.joinIndex || n.coordinator.None? || !Election.Follows(n.coordinator.value, joinIndex) then n
    else n.(coordinator := Some(Election.ClaimHeard(n.coordinator.value, joinIndex, ip)),
            following := Some(ip), sent := n.sent + [ElectionAck(self.ip)])
  }

  predicate DeadlineReached(n: State, now: real) {
    !n.promotionDone && n.pendingAcks != {} && n.deadline != 0.0 && now >= n.deadline
  }

  /** `order` stands for the iteration order of the set of awaited peers. */
  function DeadlineTicked(n: State, self: Self, order: seq<string>, now: real): State {
    if !DeadlineReached(n, now) then n
    else Promoted(PeersEvicted(n, self, order).(pendingAcks := {}), self, now)
  }

  /** First client frame, and again after a migration. */
  function Equipped(n: State, self: Self): State {
    if n.coordinator.Some? then n
    else n.(coordinator := Some(Election.Fresh(self.joinIndex, self.ip)), lastSnapshot := None)
  }

  /** The host's failure is confirmed: count down. */
  function Confirmed(n: State, self: Self, now: real): State
    requires n.coordinator.Some?
  {
    var started := Election.Started(n.coordinator.value, KnownPeers(n.roster, self.id));
    n.(triggered := true, coordinator := Some(Election.TimerSet(started, now)))
  }

  /** The election part of a client frame, without the claim deadline. */
  function CountedDown(n: State, self: Self, now: real): State {
    if n.coordinator.None? || !n.triggered || !Election.Fires(n.coordinator.value, now) then n
    else SelfElected(n.(coordinator := Some(Election.Ticked(n.coordinator.value, now))), self, now)
  }

  function ElectionTicked(n: State, self: Self, order: seq<string>, now: real): State {
    var n := CountedDown(n, self, now);
    if n.coordinator.None? || !n.triggered then n else DeadlineTicked(n, self, order, now)
  }

  // ---- Following a new host ---------------------------------------------------------------

  function Repointed(n: State, ip: string): State {
    var n := HostEvicted(n);
    var listed := Roster.Sorted(n.roster);
    var i := EntryWithHost(listed, ip);
    if i < 0 then n else n.(roster := Roster.Promoted(n.roster, listed[i].playerId))
  }

  function EntryWithHost(ps: seq<Roster.Entry>, ip: string): (i: int)
    ensures -1 <= i < |ps| && (i >= 0 ==> ps[i].host == ip)
    ensures i < 0 ==> forall k :: 0 <= k < |ps| ==> ps[k].host != ip
  {
    if ps == [] then -1
    else if ps[0].host == ip then 0
    else var i := EntryWithHost(ps[1..], ip); if i < 0 then -1 else i + 1
  }

  function Redirected(n: State, ip: string): State {
    n.(reconnected := true, remoteHost := ip, lastSequence := 0,
       world := Simulation.Resynced(n.world, n.lastSnapshot))
  }

  function NewHostHeard(n: State, self: Self, ip: string): State {
    if n.reconnected || n.promotionDone then n
    else
      Repointed(Redirected(n, ip), ip).(triggered := false, pendingAcks := {}, deadline := 0.0, coordinator := None)
  }

  // ---- Learning about others --------------------------------------------------------------

  function Learned(roster: seq<Roster.Entry>, known: set<int>, id: string, es: seq<Roster.Entry>): seq<Roster.Entry> {
    if es == [] then roster
    else
      var e := es[|es| - 1];
      var before := Learned(roster, known, id, es[..|es| - 1]);
      if e.joinIndex in known || e.playerId == id then before else before + [e]
  }

  /** `es` is the received roster in the order of its join indices. */
  function RosterMerged(n: State, self: Self, es: seq<Roster.Entry>): State {
    n.(roster := Learned(n.roster, Roster.IndicesOf(n.roster), self.id, es))
  }

  // ---- Re-entry ---------------------------------------------------------------------------

  /** The broadcast entry names someone new, at a new address, or with a saved character. */
  predicate Enters(n: State, self: Self, e: Roster.Entry) {
    var i := Roster.FindIndex(n.roster, e.joinIndex);
    && e.playerId != self.id
    && (i >= 0 ==>
          && n.roster[i].playerId == e.playerId
          && !(n.roster[i].host == e.host && n.roster[i].udpPort == e.udpPort && e.joinIndex !in n.rejoinStates))
  }

  /** The participants once `e` has returned. */
  function EntriesWith(ps: seq<Roster.Entry>, e: Roster.Entry): seq<Roster.Entry> {
    var i := Roster.FindIndex(ps, e.joinIndex);
    (if i < 0 then ps else Roster.WithoutPlayer(ps, ps[i].playerId)) + [e]
  }

  /** The characters once `e` has returned: its saved one, or a new one for somebody unknown. */
  function PlayersWith(n: State, setup: Simulation.Setup, e: Roster.Entry, known: bool): seq<Player> {
    if e.joinIndex in n.rejoinStates then
      Simulation.PutPlayer(n.world.players, n.rejoinStates[e.joinIndex].(id := e.playerId, joinIndex := e.joinIndex))
    else if !known then
      Simulation.PutPlayer(n.world.players,
        Simulation.Spawned(setup, e.playerId, Simulation.SpawnPosition(setup, e.joinIndex), e.joinIndex))
    else n.world.players
  }

  function Reentered(n: State, self: Self, setup: Simulation.Setup, e: Roster.Entry, now: real): State {
    if !Enters(n, self, e) then n
    else
      var i := Roster.FindIndex(n.roster, e.joinIndex);
      n.(roster := EntriesWith(n.roster, e), world := n.world.(players := PlayersWith(n, setup, e, i >= 0)),
         rejoinStates := n.rejoinStates - {e.joinIndex}, heardAt := n.heardAt[e.playerId := now])
  }

  function AllReentered(n: State, self: Self, setup: Simulation.Setup, es: seq<Roster.Entry>, now: real): State {
    if es == [] then n
    else Reentered(AllReentered(n, self, setup, es[..|es| - 1], now), self, setup, es[|es| - 1], now)
  }

  predicate SomeoneEnters(n: State, self: Self, setup: Simulation.Setup, es: seq<Roster.Entry>, now: real) {
    && es != []
    && (|| SomeoneEnters(n, self, setup, es[..|es| - 1], now)
        || Enters(AllReentered(n, self, setup, es[..|es| - 1], now), self, es[|es| - 1]))
  }

  /** A roster broadcast by the lobby, `es` in the order of its join indices. */
  function BroadcastHeard(n: State, self: Self, setup: Simulation.Setup, es: seq<Roster.Entry>, now: real): State {
    var r := AllReentered(n, self, setup, es, now);
    if SomeoneEnters(n, self, setup, es, now) then r.(sent := r.sent + [InitialStateSync(r.world)]) else r
  }
}
