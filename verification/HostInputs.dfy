/** The input half of application/gameplay/host.py: remote inputs arrive unordered, repeated or not
    at all, and the host keeps the latest of each player. */
module HostInputs {
  import opened Prelude
  import opened Entities

  datatype Packet =
    | InputPacket(playerId: string, number: int, input: Input)
    | Probe(sessionId: string, sender: string)
    | Other

  datatype Cache = Cache(numbers: map<string, int>, inputs: map<string, Input>)

  const EMPTY_CACHE := Cache(map[], map[])
  const IDLE := Input(false, false, false, false)

  function LastNumber(c: Cache, id: string): int { if id in c.numbers then c.numbers[id] else -1 }

  predicate Accepts(c: Cache, p: Packet) { p.InputPacket? && p.number > LastNumber(c, p.playerId) }

  function Cached(c: Cache, p: Packet): Cache {
    if Accepts(c, p) then Cache(c.numbers[p.playerId := p.number], c.inputs[p.playerId := p.input]) else c
  }

  function CachedAll(c: Cache, ps: seq<Packet>): Cache {
    if ps == [] then c else Cached(CachedAll(c, ps[..|ps| - 1]), ps[|ps| - 1])
  }

  class HostInputCache {
    const sessionId: string
    var lastRemoteInputSequence: map<string, int>
    var cachedRemoteInputs: map<string, Input>
    var lastInputTime: map<string, real>
    var replies: seq<string>

    ghost function State(): Cache
      reads this
    {
      Cache(lastRemoteInputSequence, cachedRemoteInputs)
    }

    constructor (sessionId: string)
      ensures this.sessionId == sessionId && State() == EMPTY_CACHE && lastInputTime == map[] && replies == []
    {
      this.sessionId := sessionId;
      lastRemoteInputSequence, cachedRemoteInputs, lastInputTime, replies := map[], map[], map[], [];
    }

    /** Empties the socket: stale or repeated inputs are ignored, probes of this session answered. */
    method DrainRemoteInputPackets(packets: seq<Packet>, now: real) returns (drained: nat)
      modifies this
      ensures State() == CachedAll(old(State()), packets)
      ensures lastInputTime == HeardAt(old(lastInputTime), old(State()), packets, now)
      ensures replies == old(replies) + Answered(sessionId, packets)
      ensures drained == AcceptedCount(old(State()), packets)
    {
      drained := 0;
      var n := 0;
      ghost var start := State();
      while n < |packets|
        invariant 0 <= n <= |packets| && drained == AcceptedCount(start, packets[..n])
        invariant State() == CachedAll(start, packets[..n])
        invariant lastInputTime == HeardAt(old(lastInputTime), start, packets[..n], now)
        invariant replies == old(replies) + Answered(sessionId, packets[..n])
      {
        assert packets[..n + 1][..n] == packets[..n];
        var p := packets[n];
        if p.Probe? {
          if p.sessionId == sessionId { replies := replies + [p.sender]; }
        } else if p.InputPacket? {
          var last := if p.playerId in lastRemoteInputSequence then lastRemoteInputSequence[p.playerId] else -1;
          if p.number > last {
            lastRemoteInputSequence := lastRemoteInputSequence[p.playerId := p.number];
            cachedRemoteInputs := cachedRemoteInputs[p.playerId := p.input];
            lastInputTime := lastInputTime[p.playerId := now];
            drained := drained + 1;
          }
        }
        n := n + 1;
      }
      assert packets[..n] == packets;
    }

    /** The authoritative input map: the local input, and for every other participant its cached
        input or none. */
    method BuildHostInputs(localId: string, localInput: Input, roster: seq<string>) returns (inputs: map<string, Input>)
      ensures inputs == HostInputMap(State(), localId, localInput, roster)
    {
      inputs := map[localId := localInput];
      var n := 0;
      while n < |roster|
        invariant 0 <= n <= |roster|
        invariant inputs == HostInputMap(State(), localId, localInput, roster[..n])
      {
        InputMapGrows(State(), localId, localInput, roster, n);
        if roster[n] != localId {
          inputs := inputs[roster[n] := if roster[n] in cachedRemoteInputs then cachedRemoteInputs[roster[n]]
              else IDLE];
        }
        n := n + 1;
      }
      assert roster[..n] == roster;
    }
  }

  function AcceptedCount(c: Cache, ps: seq<Packet>): nat {
    if ps == [] then 0
    else
      var before := ps[..|ps| - 1];
      AcceptedCount(c, before) + (if Accepts(CachedAll(c, before), ps[|ps| - 1]) then 1 else 0)
  }

  ghost predicate AcceptedAt(c: Cache, packets: seq<Packet>, i: int, id: string) {
    0 <= i < |packets| && Accepts(CachedAll(c, packets[..i]), packets[i]) && packets[i].playerId == id
  }

  /** When each player was last heard, after these packets arrived at `now`. */
  function HeardAt(heard: map<string, real>, c: Cache, packets: seq<Packet>, now: real): map<string, real> {
    if packets == [] then heard
    else
      var before, p := packets[..|packets| - 1], packets[|packets| - 1];
      var earlier := HeardAt(heard, c, before, now);
      if Accepts(CachedAll(c, before), p) then earlier[p.playerId := now] else earlier
  }

  /** Exactly the players with an accepted packet count as heard now; nobody else's time moves. */
  lemma {:induction false} HeardExactly(heard: map<string, real>, c: Cache, packets: seq<Packet>, now: real, id: string)
    ensures var after := HeardAt(heard, c, packets, now);
      if exists i :: AcceptedAt(c, packets, i, id) then id in after && after[id] == now
      else (id in after <==> id in heard) && (id in heard ==> after[id] == heard[id])
  {
    if packets != [] {
      var n := |packets| - 1;
      HeardExactly(heard, c, packets[..n], now, id);
      forall i | 0 <= i < n ensures AcceptedAt(c, packets, i, id) <==> AcceptedAt(c, packets[..n], i, id) {
        assert packets[..n][..i] == packets[..i];
      }
      assert AcceptedAt(c, packets, n, id) <==>
          Accepts(CachedAll(c, packets[..n]), packets[n]) && packets[n].playerId == id;
      if i :| AcceptedAt(c, packets[..n], i, id) { assert AcceptedAt(c, packets, i, id); }
    }
  }

  /** An input of this player with a number above n. */
  predicate Above(p: Packet, id: string, n: int) { p.InputPacket? && p.playerId == id && p.number > n }

  ghost predicate SomeAbove(packets: seq<Packet>, id: string, n: int) {
    exists i :: 0 <= i < |packets| && Above(packets[i], id, n)
  }

  ghost predicate SomeAccepted(c: Cache, packets: seq<Packet>, id: string) { exists i :: AcceptedAt(c, packets, i, id) }

  /** The cache says the same about this player. */
  predicate SameAbout(c: Cache, d: Cache, id: string) {
    && (id in c.numbers <==> id in d.numbers) && (id in c.numbers ==> c.numbers[id] == d.numbers[id])
    && (id in c.inputs <==> id in d.inputs) && (id in c.inputs ==> c.inputs[id] == d.inputs[id])
  }

  /** Out of any stream some input of a player is accepted exactly when the stream holds one numbered
      above the last one known. Otherwise the host goes on with the number and the input it has. */
  lemma {:induction false} HeardFromExactly(c: Cache, packets: seq<Packet>, id: string)
    ensures SomeAccepted(c, packets, id) <==> SomeAbove(packets, id, LastNumber(c, id))
    ensures LastNumber(CachedAll(c, packets), id) >= LastNumber(c, id)
    ensures !SomeAbove(packets, id, LastNumber(c, id)) ==> SameAbout(c, CachedAll(c, packets), id)
  {
    if packets != [] {
      var n, last := |packets| - 1, LastNumber(c, id);
      HeardFromExactly(c, packets[..n], id);
      forall i | 0 <= i < n ensures AcceptedAt(c, packets, i, id) <==> AcceptedAt(c, packets[..n], i, id) {
        assert packets[..n][..i] == packets[..i];
      }
      assert AcceptedAt(c, packets, n, id) <==>
          Accepts(CachedAll(c, packets[..n]), packets[n]) && packets[n].playerId == id;
      assert SomeAccepted(c, packets, id) <==> SomeAccepted(c, packets[..n], id) || AcceptedAt(c, packets, n, id) by {
        if i :| AcceptedAt(c, packets[..n], i, id) { assert AcceptedAt(c, packets, i, id); }
      }
      assert SomeAbove(packets, id, last) <==> SomeAbove(packets[..n], id, last) || Above(packets[n], id, last) by {
        if i :| 0 <= i < n && Above(packets[..n][i], id, last) { assert Above(packets[i], id, last); }
        if i :| 0 <= i < |packets| && Above(packets[i], id, last) { assert i < n ==> Above(packets[..n][i], id, last); }
      }
    }
  }

  lemma {:induction false} CachingAppends(c: Cache, first: seq<Packet>, second: seq<Packet>)
    ensures CachedAll(c, first + second) == CachedAll(CachedAll(c, first), second)
    decreases |second|
  {
    if second == [] {
      assert first + second == first;
    } else {
      assert (first + second)[..|first + second| - 1] == first + second[..|second| - 1];
      CachingAppends(c, first, second[..|second| - 1]);
    }
  }

  lemma {:induction false} CachingAlike(c: Cache, d: Cache, packets: seq<Packet>, id: string)
    requires SameAbout(c, d, id)
    ensures SameAbout(CachedAll(c, packets), CachedAll(d, packets), id)
  {
    if packets != [] { CachingAlike(c, d, packets[..|packets| - 1], id); }
  }

  /** An input of this player numbered from 0 on and above everything of it among `arrived`. */
  ghost predicate Newer(p: Packet, arrived: seq<Packet>, id: string) {
    Above(p, id, -1) && forall k :: 0 <= k < |arrived| && Above(arrived[k], id, -1) ==> p.number > arrived[k].number
  }

  ghost predicate SomeNewer(packets: seq<Packet>, arrived: seq<Packet>, id: string) {
    exists i :: 0 <= i < |packets| && Newer(packets[i], arrived, id)
  }

  lemma NewerExactly(p: Packet, arrived: seq<Packet>, id: string)
    ensures Newer(p, arrived, id) <==> Above(p, id, LastNumber(CachedAll(EMPTY_CACHE, arrived), id))
  {
    var c := CachedAll(EMPTY_CACHE, arrived);
    CacheHoldsNewest(arrived);
    forall k | 0 <= k < |arrived| && Above(arrived[k], id, -1) ensures arrived[k].number <= LastNumber(c, id) {
      assert FromPlayer(Sent(arrived), arrived[k], id);
    }
    if id in c.numbers {
      var k :| 0 <= k < |arrived| && arrived[k] == InputPacket(id, c.numbers[id], c.inputs[id]);
      assert Above(arrived[k], id, -1);
    }
  }

  /** A host that knows of a player what `arrived` has told it accepts some input out of a stream exactly
      when the stream holds one numbered above all of them; otherwise it goes on with what it has. */
  lemma HeardAfterExactly(c: Cache, arrived: seq<Packet>, stream: seq<Packet>, id: string)
    requires SameAbout(CachedAll(EMPTY_CACHE, arrived), c, id)
    ensures SomeAccepted(c, stream, id) <==> SomeNewer(stream, arrived, id)
    ensures !SomeNewer(stream, arrived, id) ==> SameAbout(CachedAll(EMPTY_CACHE, arrived), CachedAll(c, stream), id)
  {
    HeardFromExactly(c, stream, id);
    forall i | 0 <= i < |stream| ensures Newer(stream[i], arrived, id) <==> Above(stream[i], id, LastNumber(c, id)) {
      NewerExactly(stream[i], arrived, id);
    }
  }

  function Answered(sessionId: string, packets: seq<Packet>): seq<string> {
    if packets == [] then []
    else
      var p := packets[|packets| - 1];
      Answered(sessionId, packets[..|packets| - 1]) + (if p.Probe? && p.sessionId == sessionId then [p.sender] else [])
  }

  function HostInputMap(c: Cache, localId: string, localInput: Input, roster: seq<string>): map<string, Input> {
    map id | id in (set x | x in roster) + {localId} ::
      if id == localId then localInput else if id in c.inputs then c.inputs[id] else IDLE
  }

  lemma InputMapGrows(c: Cache, localId: string, localInput: Input, roster: seq<string>, n: nat)
    requires n < |roster|
    ensures HostInputMap(c, localId, localInput, roster[..n + 1])
         == HostInputMap(c, localId, localInput, roster[..n])
              [roster[n] := if roster[n] == localId then localInput else if roster[n] in c.inputs
                  then c.inputs[roster[n]] else IDLE]
    ensures roster[n] == localId ==>
              HostInputMap(c, localId, localInput, roster[..n + 1]) == HostInputMap(c, localId, localInput, roster[..n])
  {
    assert roster[..n + 1] == roster[..n] + [roster[n]];
  }

  // ---- Order and repetition do not matter -------------------------------------------------

  /** Two packets of a player with the same number carry the same input. */
  ghost predicate Coherent(sent: set<Packet>) {
    forall p, q :: p in sent && q in sent && p.InputPacket? && q.InputPacket? ==>
      p.playerId == q.playerId && p.number == q.number ==> p.input == q.input
  }

  ghost predicate FromPlayer(sent: set<Packet>, p: Packet, id: string) {
    p in sent && p.InputPacket? && p.playerId == id && p.number > -1
  }

  /** For every player the cache holds a packet of `sent` with the highest number, and nothing for a
      player without one. */
  ghost predicate HoldsNewest(c: Cache, sent: set<Packet>) {
    && c.numbers.Keys == c.inputs.Keys
    && (forall id :: id in c.numbers ==>
          InputPacket(id, c.numbers[id], c.inputs[id]) in sent && c.numbers[id] > -1)
    && (forall p, id :: FromPlayer(sent, p, id) ==> id in c.numbers && p.number <= c.numbers[id])
  }

  ghost function Sent(ps: seq<Packet>): set<Packet> { set p | p in ps }

  lemma {:induction false} CacheHoldsNewest(ps: seq<Packet>)
    ensures HoldsNewest(CachedAll(EMPTY_CACHE, ps), Sent(ps))
  {
    if ps != [] {
      var before, p := ps[..|ps| - 1], ps[|ps| - 1];
      CacheHoldsNewest(before);
      assert Sent(ps) == Sent(before) + {p};
      var c, d := CachedAll(EMPTY_CACHE, before), CachedAll(EMPTY_CACHE, ps);
      forall q, id | FromPlayer(Sent(ps), q, id) ensures id in d.numbers && q.number <= d.numbers[id] {
        if q in Sent(before) { assert FromPlayer(Sent(before), q, id); }
      }
    }
  }

  lemma NewestIsUnique(c: Cache, d: Cache, sent: set<Packet>)
    requires HoldsNewest(c, sent) && HoldsNewest(d, sent) && Coherent(sent)
    ensures c == d
  {
    forall id | id in c.numbers ensures id in d.numbers && c.numbers[id] <= d.numbers[id] {
      assert FromPlayer(sent, InputPacket(id, c.numbers[id], c.inputs[id]), id);
    }
    forall id | id in d.numbers ensures id in c.numbers && d.numbers[id] <= c.numbers[id] {
      assert FromPlayer(sent, InputPacket(id, d.numbers[id], d.inputs[id]), id);
    }
    assert c.numbers == d.numbers;
    assert c.inputs == d.inputs;
  }

  /** Two streams of the same packets, in any order and with any repetitions, leave the host with
      the same cache and the same input map. */
  lemma StreamOrderIsIrrelevant(ps: seq<Packet>, qs: seq<Packet>, localId: string, localInput: Input,
      roster: seq<string>)
    requires Sent(ps) == Sent(qs) && Coherent(Sent(ps))
    ensures CachedAll(EMPTY_CACHE, ps) == CachedAll(EMPTY_CACHE, qs)
    ensures HostInputMap(CachedAll(EMPTY_CACHE, ps), localId, localInput, roster)
         == HostInputMap(CachedAll(EMPTY_CACHE, qs), localId, localInput, roster)
  {
    CacheHoldsNewest(ps);
    CacheHoldsNewest(qs);
    NewestIsUnique(CachedAll(EMPTY_CACHE, ps), CachedAll(EMPTY_CACHE, qs), Sent(ps));
  }

  /** After any stream the host plays for every other participant the input with the highest number it has
      sent, and nothing for one that has sent none. */
  lemma HostPlaysTheNewest(ps: seq<Packet>, localId: string, localInput: Input, roster: seq<string>, id: string)
    requires id in roster && id != localId
    ensures var inputs := HostInputMap(CachedAll(EMPTY_CACHE, ps), localId, localInput, roster);
      && id in inputs && localId in inputs && inputs[localId] == localInput
      && if SomeAbove(ps, id, -1)
         then exists p :: p in ps && Above(p, id, -1) && p.input == inputs[id] && !SomeAbove(ps, id, p.number)
         else inputs[id] == Input(false, false, false, false)
  {
    var c := CachedAll(EMPTY_CACHE, ps);
    CacheHoldsNewest(ps);
    if i :| 0 <= i < |ps| && Above(ps[i], id, -1) { assert FromPlayer(Sent(ps), ps[i], id); }
    if id in c.numbers {
      var p := InputPacket(id, c.numbers[id], c.inputs[id]);
      assert p in Sent(ps);
      var k :| 0 <= k < |ps| && ps[k] == p;
      assert Above(ps[k], id, -1);
      if i :| 0 <= i < |ps| && Above(ps[i], id, p.number) { assert FromPlayer(Sent(ps), ps[i], id); }
    }
  }
}
