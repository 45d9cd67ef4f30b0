/** shared/roster.py: who takes part in the session, as each node and the lobby record it. */
module Roster {
  import opened Prelude
  import opened Config

  datatype Status = Connected | Disconnected

  datatype Entry = Entry(playerId: string, host: string, udpPort: int, joinIndex: int, status: Status, isHost: bool)

  // ---- Canonical player ids ---------------------------------------------------------------

  const DIGITS := "0123456789"

  function Decimal(n: nat): (s: string)
    ensures s != []
  {
    (if n < 10 then [] else Decimal(n / 10)) + [DIGITS[n % 10]]
  }

  /** "player1" for the host's join index 0, and so on. */
  function PlayerIdFor(joinIndex: nat): string { "player" + Decimal(joinIndex + 1) }

  lemma {:induction false} DecimalIsInjective(m: nat, n: nat)
    requires Decimal(m) == Decimal(n)
    ensures m == n
  {
    var s, t := Decimal(m), Decimal(n);
    assert s[|s| - 1] == DIGITS[m % 10] && t[|t| - 1] == DIGITS[n % 10];
    assert m % 10 == n % 10;
    assert s[..|s| - 1] == (if m < 10 then [] else Decimal(m / 10));
    assert t[..|t| - 1] == (if n < 10 then [] else Decimal(n / 10));
    if m >= 10 && n >= 10 { DecimalIsInjective(m / 10, n / 10); }
  }

  lemma PlayerIdsAreDistinct(i: nat, j: nat)
    requires PlayerIdFor(i) == PlayerIdFor(j)
    ensures i == j
  {
    assert PlayerIdFor(i)[6..] == Decimal(i + 1) && PlayerIdFor(j)[6..] == Decimal(j + 1);
    DecimalIsInjective(i + 1, j + 1);
  }

  // ---- The roster as a value --------------------------------------------------------------

  predicate HasIndex(ps: seq<Entry>, joinIndex: int) { exists i :: 0 <= i < |ps| && ps[i].joinIndex == joinIndex }

  function FindIndex(ps: seq<Entry>, joinIndex: int): (i: int)
    ensures -1 <= i < |ps|
    ensures i >= 0 ==> ps[i].joinIndex == joinIndex
    ensures i < 0 <==> !HasIndex(ps, joinIndex)
  {
    if ps == [] then -1
    else
      var n := |ps| - 1;
      var i := FindIndex(ps[..n], joinIndex);
      if i >= 0 then (assert ps[i].joinIndex == joinIndex; i)
      else if ps[n].joinIndex == joinIndex then n
      else (assert forall k :: 0 <= k < n ==> ps[..n][k] == ps[k]; -1)
  }

  function FindPlayer(ps: seq<Entry>, id: string): (i: int)
    ensures -1 <= i < |ps|
    ensures i >= 0 ==> ps[i].playerId == id
    ensures i < 0 ==> forall k :: 0 <= k < |ps| ==> ps[k].playerId != id
  {
    if ps == [] then -1
    else if ps[0].playerId == id then 0
    else var i := FindPlayer(ps[1..], id); if i < 0 then -1 else i + 1
  }

  /** The first entry flagged as host, or -1. */
  function FindHost(ps: seq<Entry>): (i: int)
    ensures -1 <= i < |ps|
    ensures i >= 0 ==> ps[i].isHost
    ensures i < 0 ==> forall k :: 0 <= k < |ps| ==> !ps[k].isHost
  {
    if ps == [] then -1
    else if ps[0].isHost then 0
    else var i := FindHost(ps[1..]); if i < 0 then -1 else i + 1
  }

  function WithoutPlayer(ps: seq<Entry>, id: string): (r: seq<Entry>)
    ensures forall e :: e in r <==> e in ps && e.playerId != id
    ensures DistinctIndices(ps) ==> DistinctIndices(r)
  {
    if ps == [] then []
    else
      var n := |ps| - 1;
      var rest := WithoutPlayer(ps[..n], id);
      assert forall e :: e in ps <==> e in ps[..n] || e == ps[n];
      assert DistinctIndices(ps) ==> DistinctIndices(ps[..n]);
      assert forall k :: 0 <= k < |rest| ==> rest[k] in ps[..n];
      if ps[n].playerId == id then rest else rest + [ps[n]]
  }

  function Promoted(ps: seq<Entry>, id: string): (r: seq<Entry>)
    ensures |r| == |ps| && forall i :: 0 <= i < |ps| ==> r[i] == ps[i].(isHost := ps[i].playerId == id)
  {
    seq(|ps|, i requires 0 <= i < |ps| => ps[i].(isHost := ps[i].playerId == id))
  }

  predicate DistinctIndices(ps: seq<Entry>) {
    forall i, j :: 0 <= i < j < |ps| ==> ps[i].joinIndex != ps[j].joinIndex
  }

  function IndicesOf(ps: seq<Entry>): set<int> { set e | e in ps :: e.joinIndex }

  /** Insertion that keeps the order by join index, after entries with the same one. */
  function Inserted(sorted: seq<Entry>, e: Entry): seq<Entry> {
    if sorted == [] || sorted[|sorted| - 1].joinIndex <= e.joinIndex then sorted + [e]
    else Inserted(sorted[..|sorted| - 1], e) + [sorted[|sorted| - 1]]
  }

  function Sorted(ps: seq<Entry>): seq<Entry> {
    if ps == [] then [] else Inserted(Sorted(ps[..|ps| - 1]), ps[|ps| - 1])
  }

  predicate Ascending(ps: seq<Entry>) { forall i, j :: 0 <= i < j < |ps| ==> ps[i].joinIndex <= ps[j].joinIndex }

  lemma {:induction false} InsertedKeepsAll(sorted: seq<Entry>, e: Entry)
    ensures multiset(Inserted(sorted, e)) == multiset(sorted) + multiset{e}
    ensures forall x :: x in Inserted(sorted, e) <==> x in sorted || x == e
  {
    if !(sorted == [] || sorted[|sorted| - 1].joinIndex <= e.joinIndex) {
      var n := |sorted| - 1;
      InsertedKeepsAll(sorted[..n], e);
      assert sorted == sorted[..n] + [sorted[n]];
    }
  }

  lemma {:induction false} InsertedIsAscending(sorted: seq<Entry>, e: Entry)
    requires Ascending(sorted)
    ensures Ascending(Inserted(sorted, e))
  {
    if !(sorted == [] || sorted[|sorted| - 1].joinIndex <= e.joinIndex) {
      var n := |sorted| - 1;
      InsertedIsAscending(sorted[..n], e);
      InsertedKeepsAll(sorted[..n], e);
      var r := Inserted(sorted[..n], e);
      forall i | 0 <= i < |r| ensures r[i].joinIndex <= sorted[n].joinIndex {
        assert r[i] in r;
      }
    }
  }

  /** `get_all_players` lists exactly the participants, ordered by join index. */
  lemma {:induction false} SortedIsAscending(ps: seq<Entry>)
    ensures Ascending(Sorted(ps)) && multiset(Sorted(ps)) == multiset(ps)
  {
    if ps != [] {
      var n := |ps| - 1;
      SortedIsAscending(ps[..n]);
      InsertedIsAscending(Sorted(ps[..n]), ps[n]);
      InsertedKeepsAll(Sorted(ps[..n]), ps[n]);
      assert ps == ps[..n] + [ps[n]];
    }
  }

  lemma SameEntries(ps: seq<Entry>)
    ensures forall e :: e in Sorted(ps) <==> e in ps
  {
    SortedIsAscending(ps);
    forall e ensures e in Sorted(ps) <==> e in ps {
      assert e in multiset(Sorted(ps)) <==> e in multiset(ps);
    }
  }

  lemma {:induction false} InsertedIsDistinct(sorted: seq<Entry>, e: Entry)
    requires DistinctIndices(sorted) && forall k :: 0 <= k < |sorted| ==> sorted[k].joinIndex != e.joinIndex
    ensures DistinctIndices(Inserted(sorted, e))
  {
    if !(sorted == [] || sorted[|sorted| - 1].joinIndex <= e.joinIndex) {
      var n := |sorted| - 1;
      InsertedIsDistinct(sorted[..n], e);
      InsertedKeepsAll(sorted[..n], e);
      var r := Inserted(sorted[..n], e);
      forall i | 0 <= i < |r| ensures r[i].joinIndex != sorted[n].joinIndex {
        assert r[i] in r;
      }
    }
  }

  lemma {:induction false} SortedIsDistinct(ps: seq<Entry>)
    requires DistinctIndices(ps)
    ensures DistinctIndices(Sorted(ps))
  {
    if ps != [] {
      var n := |ps| - 1;
      SortedIsDistinct(ps[..n]);
      SameEntries(ps[..n]);
      var sorted := Sorted(ps[..n]);
      forall k | 0 <= k < |sorted| ensures sorted[k].joinIndex != ps[n].joinIndex {
        assert sorted[k] in ps[..n];
      }
      InsertedIsDistinct(sorted, ps[n]);
    }
  }

  // ---- The roster as an object ------------------------------------------------------------

  class GlobalRoster {
    var players: seq<Entry>

    constructor ()
      ensures players == []
    {
      players := [];
    }

    /** Refuses a join index that is already taken. */
    method AddPlayer(entry: Entry) returns (r: Result<()>)
      modifies this
      ensures r.Ok? <==> !HasIndex(old(players), entry.joinIndex)
      ensures players == if r.Ok? then old(players) + [entry] else old(players)
      ensures old(DistinctIndices(players)) ==> DistinctIndices(players)
    {
      var i := 0;
      while i < |players|
        invariant 0 <= i <= |players|
        invariant forall k :: 0 <= k < i ==> players[k].joinIndex != entry.joinIndex
      {
        if players[i].joinIndex == entry.joinIndex { return Raised("Duplicate join_index"); }
        i := i + 1;
      }
      players := players + [entry];
      return Ok(());
    }

    method RemovePlayer(id: string)
      modifies this
      ensures players == WithoutPlayer(old(players), id)
    {
      players := WithoutPlayer(players, id);
    }

    /** Marks one player as host and clears the flag on all others. */
    method PromoteHost(id: string)
      modifies this
      ensures players == Promoted(old(players), id)
    {
      var i := 0;
      ghost var was := players;
      while i < |players|
        invariant 0 <= i <= |players| == |was|
        invariant forall k :: 0 <= k < i ==> players[k] == was[k].(isHost := was[k].playerId == id)
        invariant forall k :: i <= k < |was| ==> players[k] == was[k]
      {
        players := players[i := players[i].(isHost := players[i].playerId == id)];
        i := i + 1;
      }
    }
  }
}
