/** What a node keeps through every sequence of election events: it promotes at most once, only after
    its own claim was answered or its silent peers were given up, and is then the single host
    (application/election/mixin.py, application/gameplay/client.py). */
module Migration {
  import opened Prelude
  import opened Config
  import opened Entities
  import opened NodeState
  import Simulation
  import Roster
  import Election
  import Lobby
  import Inputs = HostInputs

  // ---- A node in order --------------------------------------------------------------------

  /** The roster is canonical and lists the node itself; only others' characters are saved. */
  ghost predicate Base(n: State, self: Self) {
    && Consistent(n, self)
    && self.joinIndex < MAX_PLAYERS && self.id == Roster.PlayerIdFor(self.joinIndex)
    && (forall e :: e in n.roster ==> Lobby.Canonical(e))
    && (exists e :: e in n.roster && e.playerId == self.id)
    && (forall e :: e in n.roster && e.playerId == self.id ==> e.host == self.ip)
    && (forall j :: j in n.rejoinStates ==>
          0 <= j < MAX_PLAYERS && j != self.joinIndex && n.rejoinStates[j].id == Roster.PlayerIdFor(j))
  }

  ghost predicate SoleHost(ps: seq<Roster.Entry>, id: string) {
    forall e :: e in ps ==> (e.isHost <==> e.playerId == id)
  }

  ghost predicate AnotherHost(ps: seq<Roster.Entry>, id: string) {
    && (forall e, f :: e in ps && f in ps && e.isHost && f.isHost ==> e == f)
    && (forall e :: e in ps && e.isHost ==> e.playerId != id)
  }

  /** Being host, running an authoritative engine and having promoted are the same thing; the host
      is alone in its roster, a client follows at most one other. */
  ghost predicate InOrder(n: State, self: Self) {
    && Base(n, self)
    && (n.promotionDone <==> n.role == Host) && (n.promotionDone <==> n.authoritative)
    && (if n.promotionDone then SoleHost(n.roster, self.id) else AnotherHost(n.roster, self.id))
    && Announcements(n.sent) <= (if n.promotionDone then 1 else 0)
  }

  function Announcements(ms: seq<Message>): nat {
    if ms == [] then 0 else Announcements(ms[..|ms| - 1]) + (if ms[|ms| - 1].ReconnectionAck? then 1 else 0)
  }

  lemma OneMore(ms: seq<Message>, m: Message)
    ensures Announcements(ms + [m]) == Announcements(ms) + (if m.ReconnectionAck? then 1 else 0)
  {
    assert (ms + [m])[..|ms|] == ms;
  }

  /** Only the participants, their characters and their input traces differ. */
  predicate OnlyMembersDiffer(n: State, m: State) {
    m == n.(roster := m.roster, world := m.world, rejoinStates := m.rejoinStates, cache := m.cache,
        heardAt := m.heardAt)
  }

  // ---- Eviction ---------------------------------------------------------------------------

  lemma EvictionKeepsBase(n: State, self: Self, id: string)
    requires Base(n, self) && id != self.id
    ensures Base(Evicted(n, id), self)
  {
    var m := Evicted(n, id);
    var i, j := Roster.FindPlayer(n.roster, id), Simulation.FindPlayer(n.world.players, id);
    if i >= 0 {
      assert n.roster[i] in n.roster;
      assert Lobby.Canonical(n.roster[i]);
    }
    var e :| e in n.roster && e.playerId == self.id;
    assert e in m.roster;
  }

  lemma EvictionKeepsOk(n: State, self: Self, id: string)
    requires InOrder(n, self) && id != self.id
    ensures InOrder(Evicted(n, id), self)
  {
    EvictionKeepsBase(n, self, id);
  }

  ghost predicate DistinctHosts(ps: seq<Roster.Entry>) {
    forall e, f :: e in ps && f in ps && e.host == f.host ==> e == f
  }

  ghost predicate Silent(e: Roster.Entry, self: Self, order: seq<string>) { e.playerId != self.id && e.host in order }

  /** With distinct addresses exactly the silent peers leave the roster, in whatever order. */
  lemma {:induction false} SilentPeersLeave(n: State, self: Self, order: seq<string>)
    requires Base(n, self) && DistinctHosts(n.roster)
    ensures var m := PeersEvicted(n, self, order);
      && Base(m, self) && OnlyMembersDiffer(n, m)
      && (forall e :: e in m.roster <==> e in n.roster && !Silent(e, self, order))
  {
    if order != [] {
      var ips, ip := order[..|order| - 1], order[|order| - 1];
      SilentPeersLeave(n, self, ips);
      var before := PeersEvicted(n, self, ips);
      var listed := Roster.Sorted(before.roster);
      Roster.SameEntries(before.roster);
      var i := EntryAt(listed, ip, self.id);
      assert forall x :: x in order <==> x in ips || x == ip;
      if i >= 0 {
        EvictionKeepsBase(before, self, listed[i].playerId);
        assert listed[i] in listed;
        OneEntryLeaves(before.roster, listed[i]);
      }
    }
  }

  /** Canonical ids are distinct, so removing an id removes one entry. */
  lemma OneEntryLeaves(ps: seq<Roster.Entry>, gone: Roster.Entry)
    requires Roster.DistinctIndices(ps) && gone in ps && forall e :: e in ps ==> Lobby.Canonical(e)
    ensures forall e :: e in Roster.WithoutPlayer(ps, gone.playerId) <==> e in ps && e != gone
  {
    forall e | e in ps && e.playerId == gone.playerId ensures e == gone {
      Roster.PlayerIdsAreDistinct(e.joinIndex, gone.joinIndex);
      var i :| 0 <= i < |ps| && ps[i] == e;
      var j :| 0 <= j < |ps| && ps[j] == gone;
    }
  }

  // ---- Promotion --------------------------------------------------------------------------

  lemma HostEvictionKeepsBase(n: State, self: Self)
    requires Base(n, self) && AnotherHost(n.roster, self.id)
    ensures Base(HostEvicted(n), self) && OnlyMembersDiffer(n, HostEvicted(n))
    ensures forall e :: e in HostEvicted(n).roster ==> e in n.roster
  {
    var h := Roster.FindHost(n.roster);
    if h >= 0 {
      assert n.roster[h] in n.roster;
      EvictionKeepsBase(n, self, n.roster[h].playerId);
    }
  }

  lemma FlagsMove(ps: seq<Roster.Entry>, id: string)
    ensures SoleHost(Roster.Promoted(ps, id), id)
    ensures forall e :: e in ps ==> e.(isHost := e.playerId == id) in Roster.Promoted(ps, id)
    ensures forall f :: f in Roster.Promoted(ps, id) ==> exists e :: e in ps && f == e.(isHost := e.playerId == id)
    ensures Roster.DistinctIndices(ps) ==> Roster.DistinctIndices(Roster.Promoted(ps, id))
  {
    var r := Roster.Promoted(ps, id);
    forall e | e in ps ensures e.(isHost := e.playerId == id) in r {
      var i :| 0 <= i < |ps| && ps[i] == e;
      assert r[i] in r;
    }
    forall f | f in r ensures exists e :: e in ps && f == e.(isHost := e.playerId == id) {
      var i :| 0 <= i < |r| && r[i] == f;
      assert ps[i] in ps;
    }
  }

  lemma FlagsKeepBase(n: State, self: Self, id: string)
    requires Base(n, self)
    ensures Base(n.(roster := Roster.Promoted(n.roster, id)), self)
  {
    FlagsMove(n.roster, id);
    var e :| e in n.roster && e.playerId == self.id;
    assert e.(isHost := e.playerId == id) in Roster.Promoted(n.roster, id);
  }

  lemma AnnouncementKeepsOk(n: State, self: Self, now: real)
    requires Base(n, self) && n.promotionDone && n.authoritative && Announcements(n.sent) == 0
    ensures InOrder(Announced(n, self, now), self)
    ensures Announced(n, self, now).roster == Roster.Promoted(n.roster, self.id)
  {
    FlagsKeepBase(n, self, self.id);
    FlagsMove(n.roster, self.id);
    OneMore(n.sent, ReconnectionAck(self.ip));
    var r := Announced(n, self, now);
    assert Base(r, self) by { assert Base(n.(roster := r.roster), self); }
  }

  /** Promotion leaves the node as the only host, and everybody listed was listed before. */
  lemma PromotionKeepsOk(n: State, self: Self, now: real)
    requires Base(n, self) && AnotherHost(n.roster, self.id) && !n.promotionDone && Announcements(n.sent) == 0
    ensures InOrder(Promoted(n, self, now), self) && Promoted(n, self, now).promotionDone
    ensures forall f :: f in Promoted(n, self, now).roster ==>
        exists e :: e in n.roster && e.host == f.host && e.playerId == f.playerId
    ensures Promoted(n, self, now) == Promoted(n, self, now).(
              pendingAcks := n.pendingAcks, reconnected := n.reconnected, remoteHost := n.remoteHost)
  {
    var m := TakenOver(n);
    assert Base(m, self);
    HostEvictionKeepsBase(m, self);
    var k := HostEvicted(m);
    AnnouncementKeepsOk(k, self, now);
    FlagsMove(k.roster, self.id);
  }

  // ---- Whole runs -------------------------------------------------------------------------

  datatype Happening =
    | Frame(now: real, order: seq<string>)
    | HostLost(now: real)
    | AckArrives(ip: string, now: real)
    | ClaimArrives(joinIndex: int, ip: string)
    | NewHostArrives(ip: string)
    | PlayerLeft(id: string)
    | RosterArrives(entries: seq<Roster.Entry>)
    | LobbyArrives(entries: seq<Roster.Entry>, setup: Simulation.Setup, now: real)
    | ConnectionsChecked(disconnected: seq<string>, heard: seq<string>, now: real)
    | InputsArrive(packets: seq<Inputs.Packet>, now: real)
    | WorldChanges(world: Simulation.World, snapshot: Option<Simulation.World>, sequence: int)

  function Happened(n: State, self: Self, h: Happening): State
    requires h.HostLost? ==> n.coordinator.Some?
  {
    match h
    case Frame(now, order) => ElectionTicked(Equipped(n, self), self, order, now)
    case HostLost(now) => Confirmed(n, self, now)
    case AckArrives(ip, now) => AckHeard(n, self, ip, now)
    case ClaimArrives(joinIndex, ip) => ClaimHeard(n, self, joinIndex, ip)
    case NewHostArrives(ip) => NewHostHeard(n, self, ip)
    case PlayerLeft(id) => LeftHeard(n, self, id)
    case RosterArrives(es) => RosterMerged(n, self, es)
    case LobbyArrives(es, setup, now) => BroadcastHeard(n, self, setup, es, now)
    case ConnectionsChecked(disconnected, heard, now) => SilentDropped(AllDropped(n, disconnected), heard, now)
    case InputsArrive(packets, now) => InputsHeard(n, packets, now)
    case WorldChanges(w, snapshot, sequence) => n.(world := w, lastSnapshot := snapshot, lastSequence := sequence)
  }

  /** Rosters from elsewhere are canonical and bring no second host. */
  ghost predicate Sound(n: State, es: seq<Roster.Entry>) {
    && Roster.DistinctIndices(es)
    && forall e :: e in es ==> Lobby.Canonical(e) && (e.isHost ==> Roster.HasIndex(n.roster, e.joinIndex))
  }

  /** What can happen to a node: client frames only while it is a client, a loss is confirmed only
      once, the new host is somebody else, peers have distinct addresses. */
  ghost predicate CanHappen(n: State, self: Self, h: Happening) {
    match h
    case Frame(_, order) =>
      n.role == Client && DistinctHosts(n.roster) && forall ip :: ip in order <==> ip in n.pendingAcks
    case HostLost(_) => n.coordinator.Some? && !n.triggered && n.role == Client
    case NewHostArrives(ip) => ip != self.ip
    case RosterArrives(es) => Sound(n, es)
    case ConnectionsChecked(disconnected, heard, _) => n.role == Host && self.id !in disconnected && self.id !in heard
    case InputsArrive(_, _) => n.role == Host
    case LobbyArrives(es, _, _) =>
      n.role == Host && Sound(n, es) && forall e :: e in es && e.isHost ==> e.playerId == self.id
    case _ => true
  }

  /** The claim a node has made since it last followed somebody, and who acknowledged it. */
  datatype History = History(claimed: bool, peers: set<string>, acked: set<string>)

  const NO_CLAIM := History(false, {}, {})

  function Remembered(k: History, n: State, self: Self, h: Happening): History {
    match h
    case Frame(now, _) =>
      var m := Equipped(n, self);
      if m.triggered && Election.Fires(m.coordinator.value, now) then History(true, KnownPeers(n.roster, self.id), {})
          else k
    case AckArrives(ip, _) => if n.promotionDone then k else k.(acked := k.acked + {ip})
    case NewHostArrives(_) => if n.reconnected || n.promotionDone then k else NO_CLAIM
    case _ => k
  }

  ghost predicate HistoryOk(n: State, k: History) {
    !n.promotionDone ==> n.pendingAcks == if k.claimed then k.peers - k.acked else {}
  }

  /** Every peer named in the claim has acknowledged it or is no longer listed. */
  ghost predicate Answered(n: State, self: Self, k: History) {
    k.claimed && forall ip :: ip in k.peers ==> ip in k.acked || forall e :: e in n.roster && e.playerId != self.id ==>
        e.host != ip
  }

  ghost predicate Kept(n: State, m: State, self: Self, k: History) {
    && InOrder(m, self) && HistoryOk(m, k)
    && (n.promotionDone ==> m.promotionDone)
    && (m.promotionDone && !n.promotionDone ==> Answered(m, self, k))
    && (n.reconnected ==> m.reconnected && m.remoteHost == n.remoteHost)
  }

  lemma PromotionIsKept(n: State, self: Self, now: real, k: History)
    requires InOrder(n, self) && !n.promotionDone && k.claimed && k.peers <= k.acked
    ensures Kept(n, Promoted(n, self, now), self, k)
  {
    PromotionKeepsOk(n, self, now);
  }

  lemma AckKeeps(n: State, self: Self, h: Happening, k: History)
    requires InOrder(n, self) && HistoryOk(n, k) && h.AckArrives?
    ensures Kept(n, Happened(n, self, h), self, Remembered(k, n, self, h))
  {
    if !n.promotionDone && h.ip in n.pendingAcks {
      var m := n.(pendingAcks := n.pendingAcks - {h.ip});
      if m.pendingAcks == {} { PromotionIsKept(m, self, h.now, Remembered(k, n, self, h)); }
    }
  }

  lemma CountdownKeeps(n: State, self: Self, now: real, k: History)
    requires InOrder(n, self) && HistoryOk(n, k) && !n.promotionDone && n.coordinator.Some?
    ensures var fires := n.triggered && Election.Fires(n.coordinator.value, now);
      Kept(n, CountedDown(n, self, now), self, if fires then History(true, KnownPeers(n.roster, self.id), {}) else k)
    ensures CountedDown(n, self, now).pendingAcks == n.pendingAcks || !DeadlineReached(CountedDown(n, self, now), now)
    ensures CountedDown(n, self, now).roster == n.roster || CountedDown(n, self, now).promotionDone
  {
    if n.triggered && Election.Fires(n.coordinator.value, now) {
      var m := n.(coordinator := Some(Election.Ticked(n.coordinator.value, now)));
      if KnownPeers(n.roster, self.id) == {} {
        PromotionIsKept(m, self, now, History(true, {}, {}));
      } else {
        ClaimKeeps(m, self, now);
      }
    }
  }

  lemma ClaimKeeps(n: State, self: Self, now: real)
    requires InOrder(n, self) && !n.promotionDone && KnownPeers(n.roster, self.id) != {}
    ensures Kept(n, SelfElected(n, self, now), self, History(true, KnownPeers(n.roster, self.id), {}))
    ensures !DeadlineReached(SelfElected(n, self, now), now) && SelfElected(n, self, now).roster == n.roster
  {
    OneMore(n.sent, NewHostClaim(self.ip, self.joinIndex));
  }

  lemma DeadlineKeeps(n: State, self: Self, order: seq<string>, now: real, k: History)
    requires InOrder(n, self) && HistoryOk(n, k)
    requires DeadlineReached(n, now) ==> DistinctHosts(n.roster) && forall ip :: ip in order <==> ip in n.pendingAcks
    ensures Kept(n, DeadlineTicked(n, self, order, now), self, k)
  {
    if DeadlineReached(n, now) {
      SilentPeersLeave(n, self, order);
      var m := PeersEvicted(n, self, order).(pendingAcks := {});
      PromotionKeepsOk(m, self, now);
      var r := Promoted(m, self, now);
      forall ip | ip in k.peers ensures ip in k.acked || forall e :: e in r.roster && e.playerId != self.id ==>
          e.host != ip {
        if ip !in k.acked {
          forall f | f in r.roster && f.playerId != self.id ensures f.host != ip {
            var e :| e in m.roster && e.host == f.host && e.playerId == f.playerId;
            assert !Silent(e, self, order);
          }
        }
      }
    }
  }

  lemma FrameKeeps(n: State, self: Self, h: Happening, k: History)
    requires InOrder(n, self) && HistoryOk(n, k) && h.Frame? && CanHappen(n, self, h)
    ensures Kept(n, Happened(n, self, h), self, Remembered(k, n, self, h))
  {
    var m := Equipped(n, self);
    CountdownKeeps(m, self, h.now, k);
    DeadlineKeeps(CountedDown(m, self, h.now), self, h.order, h.now, Remembered(k, n, self, h));
  }

  lemma NewHostKeeps(n: State, self: Self, h: Happening, k: History)
    requires InOrder(n, self) && HistoryOk(n, k) && h.NewHostArrives? && CanHappen(n, self, h)
    ensures Kept(n, Happened(n, self, h), self, Remembered(k, n, self, h))
  {
    if !n.reconnected && !n.promotionDone {
      assert Base(Redirected(n, h.ip), self);
      RepointingKeepsBase(Redirected(n, h.ip), self, h.ip);
    }
  }

  /** Following somebody at another address never makes the node itself the host. */
  lemma RepointingKeepsBase(n: State, self: Self, ip: string)
    requires Base(n, self) && AnotherHost(n.roster, self.id) && ip != self.ip
    ensures var m := Repointed(n, ip);
      Base(m, self) && AnotherHost(m.roster, self.id) && OnlyMembersDiffer(n, m)
  {
    HostEvictionKeepsBase(n, self);
    var m := HostEvicted(n);
    var listed := Roster.Sorted(m.roster);
    Roster.SameEntries(m.roster);
    var i := EntryWithHost(listed, ip);
    if i >= 0 {
      assert listed[i] in m.roster;
      FlagsKeepBase(m, self, listed[i].playerId);
      FlagsMove(m.roster, listed[i].playerId);
      SamePlayerSameEntry(Roster.Promoted(m.roster, listed[i].playerId));
    }
  }

  lemma SamePlayerSameEntry(ps: seq<Roster.Entry>)
    requires Roster.DistinctIndices(ps) && forall e :: e in ps ==> Lobby.Canonical(e)
    ensures forall e, f :: e in ps && f in ps && e.playerId == f.playerId ==> e == f
  {
    forall e, f | e in ps && f in ps && e.playerId == f.playerId ensures e == f {
      Roster.PlayerIdsAreDistinct(e.joinIndex, f.joinIndex);
      var i :| 0 <= i < |ps| && ps[i] == e;
      var j :| 0 <= j < |ps| && ps[j] == f;
    }
  }

  lemma {:induction false} MergedIsBase(n: State, self: Self, es: seq<Roster.Entry>)
    requires Base(n, self) && Sound(n, es)
    ensures var m := RosterMerged(n, self, es);
      && Base(m, self)
      && (forall e :: e in n.roster ==> e in m.roster)
      && (forall e :: e in m.roster && e !in n.roster ==> e in es && e.playerId != self.id && !e.isHost)
  {
    var known := Roster.IndicesOf(n.roster);
    if es != [] {
      var rest, e := es[..|es| - 1], es[|es| - 1];
      MergedIsBase(n, self, rest);
      Lobby.IndexListed(n.roster, e.joinIndex);
      var before := Learned(n.roster, known, self.id, rest);
      if e.joinIndex !in known && e.playerId != self.id {
        forall f | f in before ensures f.joinIndex != e.joinIndex {
          if f !in n.roster { EarlierIndexDiffers(es, f); }
        }
        StaysDistinct(before, e);
      }
    }
  }

  lemma EarlierIndexDiffers(es: seq<Roster.Entry>, f: Roster.Entry)
    requires Roster.DistinctIndices(es) && es != [] && f in es[..|es| - 1]
    ensures f.joinIndex != es[|es| - 1].joinIndex
  {
    var rest := es[..|es| - 1];
    var r :| 0 <= r < |rest| && rest[r] == f;
    assert es[r] == f;
  }

  lemma EntriesStayInOrder(ps: seq<Roster.Entry>, e: Roster.Entry)
    requires Roster.DistinctIndices(ps) && Lobby.Canonical(e) && forall f :: f in ps ==> Lobby.Canonical(f)
    ensures Roster.DistinctIndices(EntriesWith(ps, e))
    ensures forall f :: f in EntriesWith(ps, e) <==> f == e || (f in ps && f.joinIndex != e.joinIndex)
  {
    var i := Roster.FindIndex(ps, e.joinIndex);
    var rest := if i < 0 then ps else Roster.WithoutPlayer(ps, ps[i].playerId);
    RestIsOthers(ps, e.joinIndex);
    StaysDistinct(rest, e);
  }

  lemma StaysDistinct(ps: seq<Roster.Entry>, e: Roster.Entry)
    requires Roster.DistinctIndices(ps) && forall f :: f in ps ==> f.joinIndex != e.joinIndex
    ensures Roster.DistinctIndices(ps + [e])
  {
    assert forall k :: 0 <= k < |ps| ==> ps[k] in ps;
  }

  lemma RestIsOthers(ps: seq<Roster.Entry>, joinIndex: int)
    requires Roster.DistinctIndices(ps) && forall f :: f in ps ==> Lobby.Canonical(f)
    ensures var i := Roster.FindIndex(ps, joinIndex);
      var rest := if i < 0 then ps else Roster.WithoutPlayer(ps, ps[i].playerId);
      && Roster.DistinctIndices(rest)
      && forall f :: f in rest <==> f in ps && f.joinIndex != joinIndex
  {
    var i := Roster.FindIndex(ps, joinIndex);
    if i >= 0 {
      assert ps[i] in ps;
      OneEntryLeaves(ps, ps[i]);
      forall f | f in ps && f.joinIndex == joinIndex ensures f == ps[i] {
        var r :| 0 <= r < |ps| && ps[r] == f;
      }
    } else {
      forall f | f in ps ensures f.joinIndex != joinIndex {
        var r :| 0 <= r < |ps| && ps[r] == f;
      }
    }
  }

  lemma ReentryKeepsOk(n: State, self: Self, setup: Simulation.Setup, e: Roster.Entry, now: real)
    requires InOrder(n, self) && n.promotionDone && Lobby.Canonical(e) && (e.isHost ==> e.playerId == self.id)
    ensures InOrder(Reentered(n, self, setup, e, now), self)
    ensures OnlyMembersDiffer(n, Reentered(n, self, setup, e, now))
  {
    if Enters(n, self, e) {
      EntriesStayInOrder(n.roster, e);
      var me :| me in n.roster && me.playerId == self.id;
      assert Lobby.Canonical(me) && me.joinIndex != e.joinIndex;
      assert me in EntriesWith(n.roster, e);
    }
  }

  lemma {:induction false} ReentriesKeepOk(n: State, self: Self, setup: Simulation.Setup, es: seq<Roster.Entry>,
      now: real)
    requires InOrder(n, self) && n.promotionDone
    requires forall e :: e in es ==> Lobby.Canonical(e) && (e.isHost ==> e.playerId == self.id)
    ensures InOrder(AllReentered(n, self, setup, es, now), self)
    ensures OnlyMembersDiffer(n, AllReentered(n, self, setup, es, now))
  {
    if es != [] {
      ReentriesKeepOk(n, self, setup, es[..|es| - 1], now);
      ReentryKeepsOk(AllReentered(n, self, setup, es[..|es| - 1], now), self, setup, es[|es| - 1], now);
    }
  }

  lemma MembershipKeeps(n: State, self: Self, h: Happening, k: History)
    requires InOrder(n, self) && HistoryOk(n, k) && CanHappen(n, self, h)
    requires h.PlayerLeft? || h.RosterArrives? || h.LobbyArrives?
    ensures Kept(n, Happened(n, self, h), self, Remembered(k, n, self, h))
  {
    match h {
      case PlayerLeft(id) => if id != self.id { EvictionKeepsOk(n, self, id); }
      case RosterArrives(es) => MergedIsBase(n, self, es); MergeKeepsHosts(n, self, es);
      case LobbyArrives(es, setup, now) =>
        ReentriesKeepOk(n, self, setup, es, now);
        OneMore(n.sent, InitialStateSync(AllReentered(n, self, setup, es, now).world));
    }
  }

  lemma MergeKeepsHosts(n: State, self: Self, es: seq<Roster.Entry>)
    requires InOrder(n, self) && Sound(n, es)
    ensures if n.promotionDone then SoleHost(RosterMerged(n, self, es).roster, self.id)
            else AnotherHost(RosterMerged(n, self, es).roster, self.id)
  {
    MergedIsBase(n, self, es);
  }

  lemma QuietKeeps(n: State, self: Self, h: Happening, k: History)
    requires InOrder(n, self) && HistoryOk(n, k) && CanHappen(n, self, h)
    requires h.ClaimArrives? || h.HostLost? || h.WorldChanges? || h.InputsArrive?
    ensures Kept(n, Happened(n, self, h), self, Remembered(k, n, self, h))
  {
    OneMore(n.sent, ElectionAck(self.ip));
  }

  lemma DropKeepsOk(n: State, self: Self, id: string)
    requires InOrder(n, self) && n.promotionDone && id != self.id
    ensures InOrder(Dropped(n, id), self)
    ensures Dropped(n, id).promotionDone && Dropped(n, id).reconnected == n.reconnected &&
        Dropped(n, id).remoteHost == n.remoteHost
  {
    EvictionKeepsOk(n, self, id);
    OneMore(n.sent, PlayerLeftNotice(id));
  }

  lemma {:induction false} DropsKeepOk(n: State, self: Self, ids: seq<string>)
    requires InOrder(n, self) && n.promotionDone && self.id !in ids
    ensures var m := AllDropped(n, ids);
      InOrder(m, self) && m.promotionDone && m.reconnected == n.reconnected && m.remoteHost == n.remoteHost
  {
    if ids != [] {
      DropsKeepOk(n, self, ids[..|ids| - 1]);
      DropKeepsOk(AllDropped(n, ids[..|ids| - 1]), self, ids[|ids| - 1]);
    }
  }

  lemma {:induction false} SilentDropsKeepOk(n: State, self: Self, ids: seq<string>, now: real)
    requires InOrder(n, self) && n.promotionDone && self.id !in ids
    ensures var m := SilentDropped(n, ids, now);
      InOrder(m, self) && m.promotionDone && m.reconnected == n.reconnected && m.remoteHost == n.remoteHost
  {
    if ids != [] {
      SilentDropsKeepOk(n, self, ids[..|ids| - 1], now);
      var before := SilentDropped(n, ids[..|ids| - 1], now);
      if TimedOut(before.heardAt, ids[|ids| - 1], now) { DropKeepsOk(before, self, ids[|ids| - 1]); }
    }
  }

  lemma HappeningKeeps(n: State, self: Self, h: Happening, k: History)
    requires InOrder(n, self) && HistoryOk(n, k) && CanHappen(n, self, h)
    ensures Kept(n, Happened(n, self, h), self, Remembered(k, n, self, h))
  {
    match h {
      case Frame(_, _) => FrameKeeps(n, self, h, k);
      case AckArrives(_, _) => AckKeeps(n, self, h, k);
      case NewHostArrives(_) => NewHostKeeps(n, self, h, k);
      case ClaimArrives(_, _) => QuietKeeps(n, self, h, k);
      case PlayerLeft(_) => MembershipKeeps(n, self, h, k);
      case RosterArrives(_) => MembershipKeeps(n, self, h, k);
      case LobbyArrives(_, _, _) => MembershipKeeps(n, self, h, k);
      case HostLost(_) => QuietKeeps(n, self, h, k);
      case ConnectionsChecked(disconnected, heard, now) =>
        DropsKeepOk(n, self, disconnected);
        SilentDropsKeepOk(AllDropped(n, disconnected), self, heard, now);
      case WorldChanges(_, _, _) => QuietKeeps(n, self, h, k);
      case InputsArrive(_, _) => QuietKeeps(n, self, h, k);
    }
  }

  /** A node and what it remembers of its claim, after a run. */
  datatype Life = Life(node: State, history: History)

  ghost predicate Lives(n: State, self: Self, hs: seq<Happening>)
    decreases |hs|, 0
  {
    hs == [] || (Lives(n, self, hs[..|hs| - 1]) && CanHappen(After(n, self, hs[..|hs| - 1]).node, self, hs[|hs| - 1]))
  }

  ghost function After(n: State, self: Self, hs: seq<Happening>): Life
    requires Lives(n, self, hs)
    decreases |hs|, 1
  {
    if hs == [] then Life(n, NO_CLAIM)
    else
      var before, h := After(n, self, hs[..|hs| - 1]), hs[|hs| - 1];
      Life(Happened(before.node, self, h), Remembered(before.history, before.node, self, h))
  }

  ghost predicate FreshClient(n: State, self: Self) {
    && InOrder(n, self) && n.role == Client && n.pendingAcks == {} && n.coordinator.None? && !n.reconnected
  }

  lemma {:induction false} LifeIsInOrder(n: State, self: Self, hs: seq<Happening>)
    requires FreshClient(n, self) && Lives(n, self, hs)
    ensures InOrder(After(n, self, hs).node, self) && HistoryOk(After(n, self, hs).node, After(n, self, hs).history)
  {
    if hs != [] {
      var before := After(n, self, hs[..|hs| - 1]);
      LifeIsInOrder(n, self, hs[..|hs| - 1]);
      HappeningKeeps(before.node, self, hs[|hs| - 1], before.history);
    }
  }

  /** In every life of a node that starts as a client: it announces itself as host at most once, being
      host coincides with an authoritative engine, a host is alone in its roster. The step that
      promotes it follows its own claim, all of whose peers have acknowledged or are gone; being host
      and following a new host are both forever. */
  lemma PromotedOnceAndAnswered(n: State, self: Self, hs: seq<Happening>, h: Happening)
    requires FreshClient(n, self) && Lives(n, self, hs + [h])
    ensures (hs + [h])[..|hs|] == hs && Lives(n, self, hs)
    ensures var before, after := After(n, self, hs).node, After(n, self, hs + [h]).node;
      && InOrder(after, self)
      && (before.role == Host ==> after.role == Host)
      && (after.role == Host && before.role == Client ==> Answered(after, self, After(n, self, hs + [h]).history))
      && (before.reconnected ==> after.reconnected && after.remoteHost == before.remoteHost)
  {
    assert (hs + [h])[..|hs|] == hs;
    LifeIsInOrder(n, self, hs);
    var before := After(n, self, hs);
    HappeningKeeps(before.node, self, h, before.history);
  }

  // ---- What becomes of the roster -----------------------------------------------------------

  /** Merging adds exactly the others' entries under join indices that were unknown. */
  lemma {:induction false} MergeLearnsExactly(n: State, self: Self, es: seq<Roster.Entry>)
    ensures forall e :: e in RosterMerged(n, self, es).roster <==>
              e in n.roster || (e in es && e.playerId != self.id && e.joinIndex !in Roster.IndicesOf(n.roster))
  {
    if es != [] { MergeLearnsExactly(n, self, es[..|es| - 1]); }
  }

  /** The entries of everybody but the old host, the flag on exactly this player. */
  ghost predicate HandedOver(before: seq<Roster.Entry>, after: seq<Roster.Entry>, id: string) {
    forall f :: f in after <==> exists e :: e in before && !e.isHost && f == e.(isHost := e.playerId == id)
  }

  lemma HostLeaves(n: State, self: Self)
    requires Base(n, self) && AnotherHost(n.roster, self.id)
    ensures forall e :: e in HostEvicted(n).roster <==> e in n.roster && !e.isHost
    ensures forall e, p :: e in n.roster && e.isHost && p in HostEvicted(n).world.players ==> p.id != e.playerId
  {
    var h := Roster.FindHost(n.roster);
    if h >= 0 {
      assert n.roster[h] in n.roster;
      OneEntryLeaves(n.roster, n.roster[h]);
      RemovedPlayers(n.world.players, n.roster[h].playerId);
    } else {
      forall e | e in n.roster ensures !e.isHost {
        var k :| 0 <= k < |n.roster| && n.roster[k] == e;
      }
    }
  }

  /** A promoted node lists everybody but the crashed host, is flagged itself, and has no character of the
      crashed host in its world. */
  lemma PromotionHandsOver(n: State, self: Self, now: real)
    requires Base(n, self) && AnotherHost(n.roster, self.id) && !n.promotionDone
    ensures var r := Promoted(n, self, now);
      && HandedOver(n.roster, r.roster, self.id)
      && forall e, p :: e in n.roster && e.isHost && p in r.world.players ==> p.id != e.playerId
  {
    var m := TakenOver(n);
    assert Base(m, self);
    HostLeaves(m, self);
    FlagsMove(HostEvicted(m).roster, self.id);
  }

  /** A node that follows the new host lists everybody but the old one, with the flag on the entry at the
      new address if it knows it. */
  lemma FollowingHandsOver(n: State, self: Self, ip: string, next: Roster.Entry)
    requires Base(n, self) && AnotherHost(n.roster, self.id) && !n.promotionDone && !n.reconnected
    requires next in n.roster && !next.isHost && next.host == ip && DistinctHosts(n.roster)
    ensures HandedOver(n.roster, NewHostHeard(n, self, ip).roster, next.playerId)
  {
    var m := Redirected(n, ip);
    assert Base(m, self);
    HostLeaves(m, self);
    var k := HostEvicted(m);
    var listed := Roster.Sorted(k.roster);
    Roster.SameEntries(k.roster);
    var i := EntryWithHost(listed, ip);
    var j :| 0 <= j < |listed| && listed[j] == next;
    assert listed[i] in k.roster && listed[i] == next;
    FlagsMove(k.roster, next.playerId);
  }

  // ---- Which announcement is followed -------------------------------------------------------

  /** The first announcement that arrives in this life, or -1. */
  function FirstAnnouncement(hs: seq<Happening>): (i: int)
    ensures -1 <= i < |hs|
    ensures i >= 0 ==> hs[i].NewHostArrives?
    ensures forall k :: 0 <= k < (if i < 0 then |hs| else i) ==> !hs[k].NewHostArrives?
  {
    if hs == [] then -1
    else
      var n := |hs| - 1;
      var i := FirstAnnouncement(hs[..n]);
      assert forall k :: 0 <= k < n ==> hs[..n][k] == hs[k];
      if i < 0 && hs[n].NewHostArrives? then n else i
  }

  /** Nothing but an announcement redirects a node, and that only once and never a host. */
  lemma AddressStays(n: State, self: Self, h: Happening)
    requires InOrder(n, self) && CanHappen(n, self, h)
    requires h.NewHostArrives? ==> n.reconnected || n.promotionDone
    ensures Happened(n, self, h).reconnected == n.reconnected && Happened(n, self, h).remoteHost == n.remoteHost
  {
    hide Base, Evicted, PeersEvicted;
    match h {
      case Frame(now, order) => FrameKeepsAddress(n, self, order, now);
      case ConnectionsChecked(disconnected, heard, now) =>
        DropsKeepOk(n, self, disconnected);
        SilentDropsKeepOk(AllDropped(n, disconnected), self, heard, now);
      case LobbyArrives(es, setup, now) => ReentriesKeepOk(n, self, setup, es, now);
      case AckArrives(_, now) => PromotionKeepsAddress(n.(pendingAcks := n.pendingAcks - {h.ip}), self, now);
      case PlayerLeft(id) => EvictionKeepsAddress(n, id);
      case _ =>
    }
  }

  lemma EvictionKeepsAddress(n: State, id: string)
    ensures OnlyMembersDiffer(n, Evicted(n, id))
  {
  }

  lemma PromotionKeepsAddress(n: State, self: Self, now: real)
    ensures Promoted(n, self, now).reconnected == n.reconnected && Promoted(n, self, now).remoteHost == n.remoteHost
  {
    HostEvictionKeepsScenery(TakenOver(n));
  }

  lemma FrameKeepsAddress(n: State, self: Self, order: seq<string>, now: real)
    requires InOrder(n, self) && DistinctHosts(n.roster)
    ensures var m := ElectionTicked(Equipped(n, self), self, order, now);
      m.reconnected == n.reconnected && m.remoteHost == n.remoteHost
  {
    hide Base, Evicted, InOrder, PeersEvicted, Promoted;
    var e := Equipped(n, self);
    PromotionKeepsAddress(e.(coordinator := Some(Election.Ticked(e.coordinator.value, now))), self, now);
    var m := CountedDown(e, self, now);
    PeersKeepAddress(m, self, order);
    PromotionKeepsAddress(PeersEvicted(m, self, order).(pendingAcks := {}), self, now);
  }

  lemma {:induction false} PeersKeepAddress(n: State, self: Self, order: seq<string>)
    ensures OnlyMembersDiffer(n, PeersEvicted(n, self, order))
  {
    hide Evicted;
    if order != [] {
      PeersKeepAddress(n, self, order[..|order| - 1]);
      var before := PeersEvicted(n, self, order[..|order| - 1]);
      var listed := Roster.Sorted(before.roster);
      var i := EntryAt(listed, order[|order| - 1], self.id);
      if i >= 0 { EvictionKeepsAddress(before, listed[i].playerId); }
    }
  }

  /** A node follows nobody but the first announcement of its life, and that one exactly unless it had
      become host before; every later one is ignored. */
  lemma {:induction false} FirstAnnouncementDecides(n: State, self: Self, hs: seq<Happening>)
    requires FreshClient(n, self) && Lives(n, self, hs)
    ensures var i, m := FirstAnnouncement(hs), After(n, self, hs).node;
      if i < 0 then !m.reconnected && m.remoteHost == n.remoteHost
      else
        && Lives(n, self, hs[..i])
        && var before := After(n, self, hs[..i]).node;
           && m.reconnected == (before.role == Client)
           && m.remoteHost == (if m.reconnected then hs[i].ip else n.remoteHost)
           && (before.role == Host ==> m.role == Host)
  {
    if hs != [] {
      hide Happened, CanHappen, Remembered, FirstAnnouncement;
      var rest, h := hs[..|hs| - 1], hs[|hs| - 1];
      FirstAnnouncementDecides(n, self, rest);
      LifeIsInOrder(n, self, rest);
      var before := After(n, self, rest);
      HappeningKeeps(before.node, self, h, before.history);
      FirstOfLonger(hs);
      var i := FirstAnnouncement(hs);
      assert i >= 0 ==> hs[..i] == rest[..i];
      if i == |rest| {
        FollowedExactly(before.node, self, h);
      } else {
        AddressStays(before.node, self, h);
      }
    }
  }

  lemma FirstOfLonger(hs: seq<Happening>)
    requires hs != []
    ensures var n, i := |hs| - 1, FirstAnnouncement(hs[..|hs| - 1]);
      FirstAnnouncement(hs) == if i < 0 && hs[n].NewHostArrives? then n else i
  {
  }

  lemma FollowedExactly(n: State, self: Self, h: Happening)
    requires InOrder(n, self) && CanHappen(n, self, h) && h.NewHostArrives? && !n.reconnected
    ensures var m := Happened(n, self, h);
      if n.role == Client then m.reconnected && m.remoteHost == h.ip else m == n
  {
    if n.role == Client { RepointingKeepsBase(Redirected(n, h.ip), self, h.ip); }
  }

  // ---- What eviction at the deadline leaves ------------------------------------------------

  lemma {:induction false} RemovedPlayers(ps: seq<Player>, id: string)
    ensures forall p :: p in Simulation.RemovePlayer(ps, id) <==> p in ps && p.id != id
  {
    if ps != [] { RemovedPlayers(ps[1..], id); }
  }

  /** Giving up silent peers removes their characters from the world as it is, and from nothing else. */
  lemma {:induction false} SilentCharactersLeave(n: State, self: Self, order: seq<string>)
    requires Base(n, self) && DistinctHosts(n.roster)
    ensures forall p :: p in PeersEvicted(n, self, order).world.players <==>
              p in n.world.players && !exists e :: e in n.roster && Silent(e, self, order) && e.playerId == p.id
  {
    if order != [] {
      var ips, ip := order[..|order| - 1], order[|order| - 1];
      SilentCharactersLeave(n, self, ips);
      SilentPeersLeave(n, self, ips);
      var before := PeersEvicted(n, self, ips);
      var listed := Roster.Sorted(before.roster);
      Roster.SameEntries(before.roster);
      var i := EntryAt(listed, ip, self.id);
      assert forall x :: x in order <==> x in ips || x == ip;
      assert forall e :: Silent(e, self, order) <==> Silent(e, self, ips) || (e.playerId != self.id && e.host == ip);
      if i >= 0 {
        assert listed[i] in listed && listed[i] in n.roster;
        RemovedPlayers(before.world.players, listed[i].playerId);
        assert forall e :: e in n.roster && Silent(e, self, order) && !Silent(e, self, ips) ==> e == listed[i];
      } else {
        forall e | e in before.roster ensures e.playerId == self.id || e.host != ip {
          var k :| 0 <= k < |listed| && listed[k] == e;
        }
      }
    }
  }

  /** The character of a silent peer is in the new host's world exactly when the node had received a
      snapshot and that snapshot shows it: the snapshot is restored after the eviction. */
  lemma SilentCharacterReturnsExactly(n: State, self: Self, order: seq<string>, now: real, e: Roster.Entry)
    requires InOrder(n, self) && DistinctHosts(n.roster) && DeadlineReached(n, now)
    requires e in n.roster && Silent(e, self, order) && !e.isHost
    ensures var after := DeadlineTicked(n, self, order, now);
      (exists p :: p in after.world.players && p.id == e.playerId) <==>
        n.lastSnapshot.Some? && exists p :: p in n.lastSnapshot.value.players && p.id == e.playerId
  {
    SilentPeersLeave(n, self, order);
    SilentCharactersLeave(n, self, order);
    var m := TakenOver(PeersEvicted(n, self, order).(pendingAcks := {}));
    var h := Roster.FindHost(m.roster);
    if h >= 0 {
      assert m.roster[h] in m.roster;
      RemovedPlayers(m.world.players, m.roster[h].playerId);
      SamePlayerSameEntry(n.roster);
    }
  }

  // ---- What the survivors share after a migration ------------------------------------------

  /** Survivors that had received the same last snapshot end with the same blocks, power-ups and gates
      as the new host, and the follower accepts the new host's snapshots from number 1 on. */
  lemma SurvivorsAgreeOnTheEnvironment(host: State, hostSelf: Self, follower: State, self: Self, ip: string, now: real)
    requires host.lastSnapshot.Some? && host.lastSnapshot == follower.lastSnapshot
    requires !host.promotionDone && !follower.promotionDone && !follower.reconnected
    ensures var w, v := Promoted(host, hostSelf, now).world, NewHostHeard(follower, self, ip).world;
      v.blocks == w.blocks && v.powerUps == w.powerUps && v.gates == w.gates
    ensures Promoted(host, hostSelf, now).world.number == host.lastSnapshot.value.number
    ensures NewHostHeard(follower, self, ip).lastSequence == 0 && NewHostHeard(follower, self, ip).remoteHost == ip
  {
    hide HostEvicted;
    HostEvictionKeepsScenery(TakenOver(host));
    HostEvictionKeepsScenery(Redirected(follower, ip));
  }

  lemma HostEvictionKeepsScenery(n: State)
    ensures HostEvicted(n).world == n.world.(players := HostEvicted(n).world.players)
    ensures OnlyMembersDiffer(n, HostEvicted(n))
  {
  }

  /** Everybody listed but the node itself was heard no longer than the timeout ago. */
  ghost predicate HeardLately(n: State, self: Self, now: real) {
    && self.id !in n.heardAt
    && forall e :: e in n.roster && e.playerId != self.id ==>
         e.playerId in n.heardAt && now - n.heardAt[e.playerId] <= UDP_INPUT_TIMEOUT
  }

  /** For ten seconds after a promotion no survivor is dropped for silence. */
  lemma GracePeriodHolds(n: State, self: Self, promotedAt: real, ids: seq<string>, now: real)
    requires !n.promotionDone && self.id !in n.heardAt && now - promotedAt <= UDP_INPUT_TIMEOUT
    ensures var host := Promoted(n, self, promotedAt);
      HeardLately(host, self, now)
      && forall e :: e in SilentDropped(host, ids, now).roster <==> e in host.roster
  {
    var host := Promoted(n, self, promotedAt);
    var before := HostEvicted(TakenOver(n));
    assert self.id !in OtherIds(Roster.Promoted(before.roster, self.id), self.id);
    assert host.roster == Roster.Promoted(before.roster, self.id);
    assert host.heardAt == Graced(before.heardAt, OtherIds(host.roster, self.id), promotedAt);
    forall e | e in host.roster && e.playerId != self.id ensures e.playerId in OtherIds(host.roster, self.id) {}
    LateEnough(host, self, ids, now);
  }

  lemma {:induction false} LateEnough(n: State, self: Self, ids: seq<string>, now: real)
    requires HeardLately(n, self, now)
    ensures HeardLately(SilentDropped(n, ids, now), self, now)
    ensures forall e :: e in SilentDropped(n, ids, now).roster <==> e in n.roster
  {
    if ids != [] {
      LateEnough(n, self, ids[..|ids| - 1], now);
      var before, id := SilentDropped(n, ids[..|ids| - 1], now), ids[|ids| - 1];
      if TimedOut(before.heardAt, id, now) {
        assert forall e :: e in before.roster ==> e.playerId != id;
      }
    }
  }

  // ---- A silent peer that comes back --------------------------------------------------------

  function Member(joinIndex: nat, host: string, isHost: bool): Roster.Entry {
    Roster.Entry(Roster.PlayerIdFor(joinIndex), host, 50020, joinIndex, Roster.Connected, isHost)
  }

  function WorldOf(players: seq<Player>): Simulation.World {
    Simulation.World(0, players, [], [], [], [], Simulation.Tally(0, 0, 0), 0, false, None, [])
  }

  /** The second player has claimed the role and waits for the third; the last snapshot shows it. */
  function Claimant(third: Player): State {
    State([Member(0, "first", true), Member(1, "second", false), Member(2, "third", false)], WorldOf([third]),
          false, Client, false, true, false, {"third"}, 2.0,
          Some(Election.Fresh(1, "second").(phase := Election.Claimed)),
          None, "first", 0, map[], Some(WorldOf([third])), Inputs.EMPTY_CACHE, map[], [])
  }

  const SECOND := Self(Roster.PlayerIdFor(1), "second", 1, "session")

  lemma ClaimantIsInOrder(third: Player)
    ensures InOrder(Claimant(third), SECOND) && DistinctHosts(Claimant(third).roster)
    ensures Roster.PlayerIdFor(2) != SECOND.id && Roster.PlayerIdFor(0) != SECOND.id
  {
    hide Roster.PlayerIdFor;
    if Roster.PlayerIdFor(2) == SECOND.id { Roster.PlayerIdsAreDistinct(2, 1); }
    if Roster.PlayerIdFor(0) == SECOND.id { Roster.PlayerIdsAreDistinct(0, 1); }
    var n := Claimant(third);
    assert n.roster[1] in n.roster;
    assert Base(n, SECOND);
    assert |"first"| == 5 && |"third"| == 5 && "first"[0] != "third"[0];
  }

  lemma SilentAreUnlisted(n: State, self: Self, order: seq<string>, now: real, e: Roster.Entry)
    requires InOrder(n, self) && DistinctHosts(n.roster) && DeadlineReached(n, now)
    requires e in n.roster && Silent(e, self, order)
    ensures forall f :: f in DeadlineTicked(n, self, order, now).roster ==> f.playerId != e.playerId
  {
    SilentPeersLeave(n, self, order);
    SamePlayerSameEntry(n.roster);
    var m := PeersEvicted(n, self, order).(pendingAcks := {});
    PromotionKeepsOk(m, self, now);
    forall f | f in DeadlineTicked(n, self, order, now).roster ensures f.playerId != e.playerId {
      var g :| g in m.roster && g.host == f.host && g.playerId == f.playerId;
      assert g in n.roster && !Silent(g, self, order);
    }
  }

  /** At the deadline the third player is evicted, and its character is back all the same. */
  lemma SilentCharacterIsBack(third: Player)
    requires third.id == Roster.PlayerIdFor(2)
    ensures var after := DeadlineTicked(Claimant(third), SECOND, ["third"], 2.0);
      && (exists p :: p in after.world.players && p.id == third.id)
      && (forall e :: e in after.roster ==> e.playerId != third.id)
  {
    hide Roster.PlayerIdFor, InOrder, DeadlineTicked;
    var n := Claimant(third);
    ClaimantIsInOrder(third);
    var e := Member(2, "third", false);
    assert n.roster[2] == e && e in n.roster && third in n.lastSnapshot.value.players;
    SilentCharacterReturnsExactly(n, SECOND, ["third"], 2.0, e);
    SilentAreUnlisted(n, SECOND, ["third"], 2.0, e);
  }

  /** A client of the first player's game, before anything has happened to it. */
  function Follower(): State {
    var n := Claimant(NewPlayer(Roster.PlayerIdFor(2), 0.0, 0.0, 2));
    n.(triggered := false, pendingAcks := {}, deadline := 0.0, coordinator := None)
  }

  /** It follows the third player, and does not follow the fourth one that takes over later. */
  lemma SecondMigrationIsNotFollowed()
    ensures var hs := [NewHostArrives("third"), NewHostArrives("fourth")];
      && FreshClient(Follower(), SECOND) && Lives(Follower(), SECOND, hs)
      && var m := After(Follower(), SECOND, hs).node;
         m.role == Client && m.reconnected && m.remoteHost == "third"
  {
    hide InOrder, HostEvicted;
    var n, one := Follower(), [NewHostArrives("third")];
    var hs := one + [NewHostArrives("fourth")];
    FollowerIsInOrder();
    assert |"third"| == 5 && |"fourth"| == 6 && "third"[0] != "second"[0];
    assert one[..0] == [] && hs[..1] == one && hs[..0] == [];
    FirstAnnouncementDecides(n, SECOND, hs);
    HostEvictionKeepsScenery(Redirected(n, "third"));
  }

  lemma FollowerIsInOrder()
    ensures InOrder(Follower(), SECOND)
  {
    hide Roster.PlayerIdFor;
    ClaimantIsInOrder(NewPlayer(Roster.PlayerIdFor(2), 0.0, 0.0, 2));
    assert Base(Follower(), SECOND);
  }
}
