/** What a host knows of one player's inputs in the course of its life, and when it drops that player
    for silence (application/gameplay/host.py:36-71, application/gameplay/events.py:60-75). */
module Hearing {
  import opened Prelude
  import opened Config
  import opened Entities
  import opened NodeState
  import opened Migration
  import Simulation
  import Roster
  import Lobby
  import Inputs = HostInputs

  // ---- What is known about a player -------------------------------------------------------

  /** The two nodes know the same of this player's inputs. */
  ghost predicate KnownAlike(n: State, m: State, id: string) {
    && Inputs.SameAbout(n.cache, m.cache, id)
    && (id in n.heardAt <==> id in m.heardAt) && (id in n.heardAt ==> n.heardAt[id] == m.heardAt[id])
  }

  ghost predicate Unknown(n: State, id: string) {
    Inputs.SameAbout(Inputs.EMPTY_CACHE, n.cache, id) && id !in n.heardAt
  }

  /** Eviction forgets the evicted player's inputs and nobody else's. */
  lemma EvictionForgets(n: State, gone: string, id: string)
    ensures if id == gone then Unknown(Evicted(n, gone), id) else KnownAlike(n, Evicted(n, gone), id)
  {
  }

  lemma {:induction false} DropsForget(n: State, ids: seq<string>, id: string)
    ensures if id in ids then Unknown(AllDropped(n, ids), id) else KnownAlike(n, AllDropped(n, ids), id)
  {
    if ids != [] {
      DropsForget(n, ids[..|ids| - 1], id);
      EvictionForgets(AllDropped(n, ids[..|ids| - 1]), ids[|ids| - 1], id);
    }
  }

  lemma {:induction false} SilentDropsForget(n: State, ids: seq<string>, now: real, id: string)
    ensures var m := SilentDropped(n, ids, now);
      if id in ids && TimedOut(n.heardAt, id, now) then Unknown(m, id) else KnownAlike(n, m, id)
  {
    if ids != [] {
      SilentDropsForget(n, ids[..|ids| - 1], now, id);
      EvictionForgets(SilentDropped(n, ids[..|ids| - 1], now), ids[|ids| - 1], id);
    }
  }

  /** What happens here evicts this player: it left, its connection broke, or it was silent too long. */
  predicate EvictedBy(n: State, self: Self, h: Happening, id: string) {
    match h
    case PlayerLeft(other) => other == id && id != self.id
    case ConnectionsChecked(disconnected, heard, now) =>
      id in disconnected || (id in heard && TimedOut(n.heardAt, id, now))
    case _ => false
  }

  /** The packets that have arrived since this player was last evicted. */
  ghost function ArrivedSince(n: State, self: Self, hs: seq<Happening>, id: string): seq<Inputs.Packet>
    requires Lives(n, self, hs)
  {
    if hs == [] then []
    else
      var rest, h := hs[..|hs| - 1], hs[|hs| - 1];
      if EvictedBy(After(n, self, rest).node, self, h, id) then []
      else ArrivedSince(n, self, rest, id) + (if h.InputsArrive? then h.packets else [])
  }

  lemma {:induction false} ReentriesKeepInputs(n: State, self: Self, setup: Simulation.Setup, es: seq<Roster.Entry>,
      now: real)
    ensures AllReentered(n, self, setup, es, now).cache == n.cache
  {
    if es != [] { ReentriesKeepInputs(n, self, setup, es[..|es| - 1], now); }
  }

  lemma HappeningTells(n: State, self: Self, h: Happening, id: string)
    requires InOrder(n, self) && n.promotionDone && CanHappen(n, self, h)
    ensures var c := Happened(n, self, h).cache;
      if EvictedBy(n, self, h, id) then Inputs.SameAbout(Inputs.EMPTY_CACHE, c, id)
      else if h.InputsArrive? then c == Inputs.CachedAll(n.cache, h.packets)
      else Inputs.SameAbout(n.cache, c, id)
  {
    hide Base, Evicted, AllDropped, SilentDropped, AllReentered, Promoted, ElectionTicked, Inputs.CachedAll;
    match h {
      case PlayerLeft(other) => EvictionForgets(n, other, id);
      case ConnectionsChecked(disconnected, heard, now) =>
        DropsForget(n, disconnected, id);
        SilentDropsForget(AllDropped(n, disconnected), heard, now, id);
      case LobbyArrives(es, setup, now) => ReentriesKeepInputs(n, self, setup, es, now);
      case _ =>
    }
  }

  /** Whatever happens to a host, of each player it knows what has arrived since its last eviction,
      whether that player is listed or not. */
  lemma {:induction false} KnowsWhatArrived(n: State, self: Self, hs: seq<Happening>, id: string)
    requires InOrder(n, self) && n.promotionDone && Lives(n, self, hs)
    requires Inputs.SameAbout(Inputs.EMPTY_CACHE, n.cache, id)
    ensures var m := After(n, self, hs).node;
      && InOrder(m, self) && m.promotionDone
      && Inputs.SameAbout(Inputs.CachedAll(Inputs.EMPTY_CACHE, ArrivedSince(n, self, hs, id)), m.cache, id)
  {
    if hs != [] {
      hide Happened, CanHappen, Remembered, InOrder, EvictedBy;
      var rest, h := hs[..|hs| - 1], hs[|hs| - 1];
      KnowsWhatArrived(n, self, rest, id);
      var before := After(n, self, rest);
      HappeningKeeps(before.node, self, h, before.history);
      HappeningTells(before.node, self, h, id);
      var earlier := ArrivedSince(n, self, rest, id);
      if h.InputsArrive? {
        Inputs.CachingAppends(Inputs.EMPTY_CACHE, earlier, h.packets);
        Inputs.CachingAlike(Inputs.CachedAll(Inputs.EMPTY_CACHE, earlier), before.node.cache, h.packets, id);
      }
      assert earlier + [] == earlier;
    }
  }

  // ---- Dropped for silence ----------------------------------------------------------------

  /** The player takes part under this entry, waits for nothing, and was last heard at `at`. */
  ghost predicate Present(n: State, e: Roster.Entry, at: real) {
    && e in n.roster && e.joinIndex !in n.rejoinStates
    && e.playerId in n.heardAt && n.heardAt[e.playerId] == at
  }

  ghost predicate Gone(n: State, id: string) { Unknown(n, id) && forall f :: f in n.roster ==> f.playerId != id }

  /** Nobody but a check for silence evicts the player, and rosters from elsewhere repeat its entry. */
  predicate LeavesAlone(h: Happening, e: Roster.Entry) {
    match h
    case PlayerLeft(id) => id != e.playerId
    case ConnectionsChecked(disconnected, _, _) => e.playerId !in disconnected
    case LobbyArrives(es, _, _) => forall f :: f in es && f.joinIndex == e.joinIndex ==> SameAddress(f, e)
    case _ => true
  }

  predicate SameAddress(e: Roster.Entry, f: Roster.Entry) {
    e.playerId == f.playerId && e.host == f.host && e.udpPort == f.udpPort
  }

  /** When it was last heard: at its entry, or with the last input accepted since. */
  ghost function LastHeard(n: State, self: Self, hs: seq<Happening>, id: string, entered: real): real
    requires Lives(n, self, hs)
  {
    if hs == [] then entered
    else
      var rest, h := hs[..|hs| - 1], hs[|hs| - 1];
      if h.InputsArrive? && Inputs.SomeAccepted(After(n, self, rest).node.cache, h.packets, id) then h.now
      else LastHeard(n, self, rest, id, entered)
  }

  /** Every check of the run that looked at this player found it heard within the limit. */
  ghost predicate InTime(n: State, self: Self, hs: seq<Happening>, id: string, entered: real)
    requires Lives(n, self, hs)
  {
    hs == []
    || (var rest, h := hs[..|hs| - 1], hs[|hs| - 1];
        && InTime(n, self, rest, id, entered)
        && (h.ConnectionsChecked? && id in h.heard ==>
             h.now - LastHeard(n, self, rest, id, entered) <= UDP_INPUT_TIMEOUT))
  }

  lemma EvictionKeepsPresent(n: State, self: Self, id: string, e: Roster.Entry, at: real)
    requires InOrder(n, self) && Present(n, e, at) && id != e.playerId
    ensures Present(Evicted(n, id), e, at)
  {
    var i := Roster.FindPlayer(n.roster, id);
    if i >= 0 {
      assert n.roster[i] in n.roster;
      var k :| 0 <= k < |n.roster| && n.roster[k] == e;
    }
  }

  lemma EvictionMakesGone(n: State, id: string)
    ensures Gone(Evicted(n, id), id)
  {
  }

  lemma EvictionKeepsGone(n: State, other: string, id: string)
    requires Gone(n, id)
    ensures Gone(Evicted(n, other), id)
  {
  }

  lemma {:induction false} DropsKeepPresent(n: State, self: Self, ids: seq<string>, e: Roster.Entry, at: real)
    requires InOrder(n, self) && n.promotionDone && self.id !in ids && e.playerId !in ids && Present(n, e, at)
    ensures Present(AllDropped(n, ids), e, at)
  {
    if ids != [] {
      hide InOrder, Evicted, Present;
      DropsKeepPresent(n, self, ids[..|ids| - 1], e, at);
      DropsKeepOk(n, self, ids[..|ids| - 1]);
      var before := AllDropped(n, ids[..|ids| - 1]);
      EvictionKeepsPresent(before, self, ids[|ids| - 1], e, at);
      SentIsNotSeen(Evicted(before, ids[|ids| - 1]), Dropped(before, ids[|ids| - 1]), e, at);
    }
  }

  lemma SentIsNotSeen(n: State, m: State, e: Roster.Entry, at: real)
    requires m == n.(sent := m.sent)
    ensures Present(n, e, at) == Present(m, e, at) && Gone(n, e.playerId) == Gone(m, e.playerId)
  {
  }

  lemma {:induction false} SilentDropsExactly(n: State, self: Self, ids: seq<string>, now: real, e: Roster.Entry,
      at: real)
    requires InOrder(n, self) && n.promotionDone && self.id !in ids && Present(n, e, at)
    ensures var m := SilentDropped(n, ids, now);
      if e.playerId in ids && now - at > UDP_INPUT_TIMEOUT then Gone(m, e.playerId) else Present(m, e, at)
  {
    if ids != [] {
      var rest, id := ids[..|ids| - 1], ids[|ids| - 1];
      SilentDropsExactly(n, self, rest, now, e, at);
      SilentDropsKeepOk(n, self, rest, now);
      var before := SilentDropped(n, rest, now);
      assert Present(before, e, at) ==> (TimedOut(before.heardAt, e.playerId, now) <==> now - at > UDP_INPUT_TIMEOUT);
      if TimedOut(before.heardAt, id, now) {
        hide InOrder, Evicted, Present, Gone;
        SentIsNotSeen(Evicted(before, id), Dropped(before, id), e, at);
        if id == e.playerId {
          EvictionMakesGone(before, id);
        } else if Gone(before, e.playerId) {
          EvictionKeepsGone(before, id, e.playerId);
        } else {
          EvictionKeepsPresent(before, self, id, e, at);
        }
      }
    }
  }

  lemma ReentryKeepsPresent(n: State, self: Self, setup: Simulation.Setup, f: Roster.Entry, now: real, e: Roster.Entry,
      at: real)
    requires InOrder(n, self) && Lobby.Canonical(f) && Present(n, e, at)
    requires f.joinIndex == e.joinIndex ==> SameAddress(f, e)
    ensures Present(Reentered(n, self, setup, f, now), e, at)
  {
    if Enters(n, self, f) {
      EntriesStayInOrder(n.roster, f);
      var k :| 0 <= k < |n.roster| && n.roster[k] == e;
      if f.joinIndex != e.joinIndex {
        assert Lobby.Canonical(e);
        if f.playerId == e.playerId { Roster.PlayerIdsAreDistinct(f.joinIndex, e.joinIndex); }
      }
    }
  }

  lemma {:induction false} ReentriesKeepPresent(
      n: State, self: Self, setup: Simulation.Setup, es: seq<Roster.Entry>, now: real, e: Roster.Entry, at: real)
    requires InOrder(n, self) && n.promotionDone && Present(n, e, at)
    requires forall f :: f in es ==> Lobby.Canonical(f) && (f.isHost ==> f.playerId == self.id)
    requires forall f :: f in es && f.joinIndex == e.joinIndex ==> SameAddress(f, e)
    ensures Present(AllReentered(n, self, setup, es, now), e, at)
  {
    if es != [] {
      hide InOrder, Present, Reentered;
      ReentriesKeepPresent(n, self, setup, es[..|es| - 1], now, e, at);
      ReentriesKeepOk(n, self, setup, es[..|es| - 1], now);
      ReentryKeepsPresent(AllReentered(n, self, setup, es[..|es| - 1], now), self, setup, es[|es| - 1], now, e, at);
    }
  }

  lemma LearningKeepsEntry(roster: seq<Roster.Entry>, known: set<int>, id: string, es: seq<Roster.Entry>,
      e: Roster.Entry)
    requires e in roster
    ensures e in Learned(roster, known, id, es)
  {
  }

  lemma HappeningKeepsPresent(n: State, self: Self, h: Happening, e: Roster.Entry, at: real)
    requires InOrder(n, self) && n.promotionDone && CanHappen(n, self, h) && LeavesAlone(h, e) && Present(n, e, at)
    ensures var m, id := Happened(n, self, h), e.playerId;
      if h.ConnectionsChecked? && id in h.heard && h.now - at > UDP_INPUT_TIMEOUT then Gone(m, id)
      else Present(m, e, if h.InputsArrive? && Inputs.SomeAccepted(n.cache, h.packets, id) then h.now else at)
  {
    hide Evicted;
    match h {
      case PlayerLeft(id) => EvictionKeepsPresent(n, self, id, e, at);
      case ConnectionsChecked(disconnected, heard, now) =>
        DropsKeepOk(n, self, disconnected);
        DropsKeepPresent(n, self, disconnected, e, at);
        SilentDropsExactly(AllDropped(n, disconnected), self, heard, now, e, at);
      case RosterArrives(es) => LearningKeepsEntry(n.roster, Roster.IndicesOf(n.roster), self.id, es, e);
      case LobbyArrives(es, setup, now) => ReentriesKeepPresent(n, self, setup, es, now, e, at);
      case InputsArrive(packets, now) => Inputs.HeardExactly(n.heardAt, n.cache, packets, now, e.playerId);
      case _ =>
    }
  }

  lemma {:induction false} StaysWhileHeard(n: State, self: Self, hs: seq<Happening>, e: Roster.Entry, entered: real)
    requires InOrder(n, self) && n.promotionDone && Lives(n, self, hs) && Present(n, e, entered)
    requires forall i :: 0 <= i < |hs| ==> LeavesAlone(hs[i], e)
    requires InTime(n, self, hs, e.playerId, entered)
    ensures var m := After(n, self, hs).node;
      InOrder(m, self) && m.promotionDone && Present(m, e, LastHeard(n, self, hs, e.playerId, entered))
  {
    if hs != [] {
      hide Happened, CanHappen, Remembered, InOrder, LeavesAlone, Present;
      var rest, h := hs[..|hs| - 1], hs[|hs| - 1];
      StaysWhileHeard(n, self, rest, e, entered);
      var before := After(n, self, rest);
      HappeningKeeps(before.node, self, h, before.history);
      HappeningKeepsPresent(before.node, self, h, e, LastHeard(n, self, rest, e.playerId, entered));
    }
  }

  /** A player that nobody evicts otherwise stays through every check in time, and the first check more
      than ten seconds after it was last heard, and no other, drops it and forgets its inputs. */
  lemma DroppedExactlyForSilence(n: State, self: Self, hs: seq<Happening>, e: Roster.Entry, entered: real,
      check: Happening)
    requires InOrder(n, self) && n.promotionDone && Lives(n, self, hs) && Present(n, e, entered)
    requires forall i :: 0 <= i < |hs| ==> LeavesAlone(hs[i], e)
    requires InTime(n, self, hs, e.playerId, entered)
    requires check.ConnectionsChecked? && e.playerId in check.heard && LeavesAlone(check, e)
    requires CanHappen(After(n, self, hs).node, self, check)
    ensures var m, at := Happened(After(n, self, hs).node, self, check), LastHeard(n, self, hs, e.playerId, entered);
      if check.now - at > UDP_INPUT_TIMEOUT then Gone(m, e.playerId) else Present(m, e, at)
  {
    StaysWhileHeard(n, self, hs, e, entered);
    HappeningKeepsPresent(After(n, self, hs).node, self, check, e, LastHeard(n, self, hs, e.playerId, entered));
  }

  /** As long as nothing numbered above the last known input arrives, it counts as heard at its entry. */
  lemma {:induction false} UnheardSinceEntry(n: State, self: Self, hs: seq<Happening>, e: Roster.Entry, entered: real,
      last: int)
    requires InOrder(n, self) && n.promotionDone && Lives(n, self, hs) && Present(n, e, entered)
    requires forall i :: 0 <= i < |hs| ==> LeavesAlone(hs[i], e)
    requires InTime(n, self, hs, e.playerId, entered)
    requires last == Inputs.LastNumber(n.cache, e.playerId)
    requires forall i :: 0 <= i < |hs| && hs[i].InputsArrive? ==> !Inputs.SomeAbove(hs[i].packets, e.playerId, last)
    ensures LastHeard(n, self, hs, e.playerId, entered) == entered
    ensures Inputs.LastNumber(After(n, self, hs).node.cache, e.playerId) == last
  {
    if hs != [] {
      hide Happened, CanHappen, Remembered, InOrder, LeavesAlone, Present, Inputs.SomeAbove, Inputs.SomeAccepted;
      var rest, h := hs[..|hs| - 1], hs[|hs| - 1];
      UnheardSinceEntry(n, self, rest, e, entered, last);
      StaysWhileHeard(n, self, rest, e, entered);
      var before := After(n, self, rest).node;
      HappeningTells(before, self, h, e.playerId);
      NotEvictedInTime(before, self, h, e, entered);
      if h.InputsArrive? { Inputs.HeardFromExactly(before.cache, h.packets, e.playerId); }
    }
  }

  lemma NotEvictedInTime(n: State, self: Self, h: Happening, e: Roster.Entry, at: real)
    requires Present(n, e, at) && LeavesAlone(h, e)
    requires h.ConnectionsChecked? && e.playerId in h.heard ==> h.now - at <= UDP_INPUT_TIMEOUT
    ensures !EvictedBy(n, self, h, e.playerId)
  {
  }

  // ---- What is reported -------------------------------------------------------------------

  /** The messages added report exactly these players as gone. */
  ghost predicate Reports(before: seq<Message>, after: seq<Message>, gone: iset<string>) {
    before <= after && forall m :: m in after[|before|..] <==> m.PlayerLeftNotice? && m.id in gone
  }

  lemma {:induction false} DropsAreReported(n: State, ids: seq<string>)
    ensures Reports(n.sent, AllDropped(n, ids).sent, iset id | id in ids)
  {
    if ids == [] {
      assert n.sent[|n.sent|..] == [];
    } else {
      var rest, id := ids[..|ids| - 1], ids[|ids| - 1];
      DropsAreReported(n, rest);
      var gone := iset i | i in rest;
      OneMoreReport(n.sent, AllDropped(n, rest).sent, gone, id);
      assert (iset i | i in ids) == gone + iset{id};
    }
  }

  lemma OneMoreReport(before: seq<Message>, after: seq<Message>, gone: iset<string>, id: string)
    requires Reports(before, after, gone)
    ensures Reports(before, after + [PlayerLeftNotice(id)], gone + iset{id})
  {
    var added := after[|before|..];
    assert (after + [PlayerLeftNotice(id)])[|before|..] == added + [PlayerLeftNotice(id)];
  }

  lemma {:induction false} SilentAreReported(n: State, ids: seq<string>, now: real)
    ensures Reports(n.sent, SilentDropped(n, ids, now).sent, iset id | id in ids && TimedOut(n.heardAt, id, now))
  {
    if ids == [] {
      assert n.sent[|n.sent|..] == [];
    } else {
      var rest, id := ids[..|ids| - 1], ids[|ids| - 1];
      SilentAreReported(n, rest, now);
      SilentDropsForget(n, rest, now, id);
      var gone := iset i | i in rest && TimedOut(n.heardAt, i, now);
      var all := iset i | i in ids && TimedOut(n.heardAt, i, now);
      if TimedOut(SilentDropped(n, rest, now).heardAt, id, now) {
        OneMoreReport(n.sent, SilentDropped(n, rest, now).sent, gone, id);
        assert all == gone + iset{id};
      } else {
        assert all == gone;
      }
    }
  }

  /** A check reports exactly the players whose connection broke and those silent for more than ten
      seconds. */
  lemma CheckReportsExactly(n: State, disconnected: seq<string>, heard: seq<string>, now: real)
    ensures Reports(n.sent, SilentDropped(AllDropped(n, disconnected), heard, now).sent,
                    iset id | id in disconnected || (id in heard && TimedOut(n.heardAt, id, now)))
  {
    var m := AllDropped(n, disconnected);
    DropsAreReported(n, disconnected);
    SilentAreReported(m, heard, now);
    forall id ensures id in disconnected || (TimedOut(m.heardAt, id, now) <==> TimedOut(n.heardAt, id, now)) {
      DropsForget(n, disconnected, id);
    }
    var after := SilentDropped(m, heard, now).sent;
    assert after[|n.sent|..] == m.sent[|n.sent|..] + after[|m.sent|..];
    forall id | id in disconnected ensures !TimedOut(m.heardAt, id, now) { DropsForget(n, disconnected, id); }
  }
}
