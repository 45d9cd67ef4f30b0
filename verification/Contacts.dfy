/** Who lives and who dies: contacts with enemies, falls into the void and returns
    (domain/game_engine.py:308-367). */
module Contacts {
  import opened Prelude
  import opened Config
  import opened Entities
  import opened Simulation
  import opened Participants

  // ---- Deaths -----------------------------------------------------------------------------

  /** Indices of players. */
  ghost predicate Within(ps: seq<Player>, dead: set<int>) { forall k :: k in dead ==> 0 <= k < |ps| }

  /** Some dead player of `ps` has this id. */
  ghost predicate Died(ps: seq<Player>, dead: set<int>, id: string)
    requires Within(ps, dead)
  {
    exists k :: k in dead && ps[k].id == id
  }

  /** Exactly these players have been reported dead from this cause, wait for three seconds under their
      join index, and nothing else was reported or set waiting. */
  ghost predicate Killed(s: Sim, t: Sim, ps: seq<Player>, dead: set<int>, cause: string, now: real)
    requires Within(ps, dead)
  {
    && s.events <= t.events
    && (forall e :: e in t.events[|s.events|..] <==> exists k :: k in dead && e == PlayerDied(ps[k].id, cause))
    && (forall w :: w in t.world.timers <==>
          || (w in s.world.timers && !Died(ps, dead, w.id))
          || (Died(ps, dead, w.id) && w.due == now + RESPAWN_DELAY_S))
    && DistinctTimers(t.world.timers)
    && (forall k :: k in dead ==> ps[k].id in t.saved && t.saved[ps[k].id] == ps[k].joinIndex)
    && (forall id :: !Died(ps, dead, id) ==>
          (id in t.saved <==> id in s.saved) && (id in s.saved ==> t.saved[id] == s.saved[id]))
  }

  lemma {:induction false} PuttingTimer(ts: seq<Timer>, w: Timer)
    requires DistinctTimers(ts)
    ensures forall v :: v in PutTimer(ts, w) <==> v == w || (v in ts && v.id != w.id)
    ensures DistinctTimers(PutTimer(ts, w))
  {
    if ts != [] {
      forall v | v in ts[1..] ensures v.id != ts[0].id {
        var i :| 0 <= i < |ts| - 1 && ts[i + 1] == v;
      }
      if ts[0].id != w.id {
        PuttingTimer(ts[1..], w);
        var rest := PutTimer(ts[1..], w);
        assert forall i :: 0 <= i < |rest| ==> rest[i] in rest;
      }
    }
  }

  lemma NobodyKilled(s: Sim, ps: seq<Player>, cause: string, now: real)
    requires DistinctTimers(s.world.timers)
    ensures Killed(s, s, ps, {}, cause, now)
  {
    assert s.events[|s.events|..] == [];
  }

  lemma OneMoreKilled(s: Sim, t: Sim, ps: seq<Player>, i: nat, dead: set<int>, cause: string, now: real)
    requires i < |ps| && Within(ps, dead) && i !in dead && DistinctPlayers(ps) && DistinctTimers(s.world.timers)
    requires Killed(QueueDeath(s, ps[i], cause, now), t, ps, dead, cause, now)
    ensures Killed(s, t, ps, dead + {i}, cause, now)
  {
    var u, all := QueueDeath(s, ps[i], cause, now), dead + {i};
    PuttingTimer(s.world.timers, Timer(ps[i].id, now + RESPAWN_DELAY_S));
    forall id ensures Died(ps, all, id) <==> Died(ps, dead, id) || id == ps[i].id {
      if id == ps[i].id { assert i in all; }
      if Died(ps, dead, id) { var k :| k in dead && ps[k].id == id; assert k in all; }
    }
    assert !Died(ps, dead, ps[i].id);
    KilledEvents(s.events, t.events, t.events[|s.events| + 1..], ps, i, dead, cause);
  }

  lemma KilledEvents(before: seq<Event>, after: seq<Event>, rest: seq<Event>, ps: seq<Player>, i: nat, dead: set<int>,
      cause: string)
    requires i < |ps| && Within(ps, dead) && after == before + [PlayerDied(ps[i].id, cause)] + rest
    requires forall e :: e in rest <==> exists k :: k in dead && e == PlayerDied(ps[k].id, cause)
    ensures before <= after
    ensures forall e :: e in after[|before|..] <==> exists k :: k in dead + {i} && e == PlayerDied(ps[k].id, cause)
  {
    var added := after[|before|..];
    assert added == [PlayerDied(ps[i].id, cause)] + rest;
    forall e ensures e in added <==> exists k :: k in dead + {i} && e == PlayerDied(ps[k].id, cause) {
      if e == PlayerDied(ps[i].id, cause) { assert i in dead + {i}; }
      if k :| k in dead && e == PlayerDied(ps[k].id, cause) { assert k in dead + {i}; }
    }
  }

  lemma {:induction false} Removal(ps: seq<Player>, id: string)
    ensures forall p :: p in RemovePlayer(ps, id) <==> p in ps && p.id != id
  {
    if ps != [] { Removal(ps[1..], id); }
  }

  lemma {:induction false} RemovalStaysDistinct(ps: seq<Player>, id: string)
    requires DistinctPlayers(ps)
    ensures DistinctPlayers(RemovePlayer(ps, id))
  {
    if ps != [] {
      RemovalStaysDistinct(ps[1..], id);
      Removal(ps[1..], id);
      var rest := RemovePlayer(ps[1..], id);
      forall k | 0 <= k < |rest| ensures rest[k].id != ps[0].id {
        assert rest[k] in rest;
        var j :| 0 <= j < |ps| - 1 && ps[1..][j] == rest[k];
      }
    }
  }

  lemma Putting(ps: seq<Player>, p: Player)
    requires DistinctPlayers(ps)
    ensures forall q :: q in PutPlayer(ps, p) <==> q == p || (q in ps && q.id != p.id)
    ensures DistinctPlayers(PutPlayer(ps, p))
  {
    var i, after := FindPlayer(ps, p.id), PutPlayer(ps, p);
    if i >= 0 {
      assert after[i] == p;
      forall q | q in ps && q.id != p.id ensures q in after {
        var k :| 0 <= k < |ps| && ps[k] == q;
        assert after[k] == q;
      }
      forall q | q in after ensures q == p || (q in ps && q.id != p.id) {
        var k :| 0 <= k < |after| && after[k] == q;
        if k < i { assert ps[k].id != ps[i].id; } else if i < k { assert ps[i].id != ps[k].id; }
      }
    }
  }

  // ---- One enemy --------------------------------------------------------------------------

  /** Holding a star that has not run out, or falling with the feet at most 4 px below its head when the
      tick began. */
  predicate Prevails(p: Player, e: Enemy, now: real) {
    || (p.effectExpiresAt.Some? && p.effectExpiresAt.value > now)
    || (p.vy > 0.0 && p.prevY + p.height <= e.box.y + 4.0)
  }

  /** The first player listed from index i on that overlaps the enemy and prevails. */
  predicate Defeats(ps: seq<Player>, e: Enemy, now: real, i: nat, k: int) {
    && i <= k < |ps| && Collides(ps[k], e.box) && Prevails(ps[k], e, now)
    && forall j :: i <= j < k && Collides(ps[j], e.box) ==> !Prevails(ps[j], e, now)
  }

  /** An overlapping player listed before anybody that prevails. */
  predicate Perishes(ps: seq<Player>, e: Enemy, now: real, i: nat, k: int) {
    && i <= k < |ps| && Collides(ps[k], e.box)
    && forall j :: i <= j <= k && Collides(ps[j], e.box) ==> !Prevails(ps[j], e, now)
  }

  ghost function Perished(ps: seq<Player>, e: Enemy, now: real, i: nat): (dead: set<int>)
    ensures Within(ps, dead)
  {
    set k | i <= k < |ps| && Perishes(ps, e, now, i, k)
  }

  /** The player that defeats an enemy bounces off it. */
  function Bouncing(p: Player, now: real): Player {
    p.(vy := 0.6 * JUMP_FORCE, effectExpiresAt := if p.effectExpiresAt.Some? && p.effectExpiresAt.value > now
                                                  then p.effectExpiresAt else None)
  }

  /** The player that defeats it, if any. */
  ghost function Winners(ps: seq<Player>, e: Enemy, now: real, i: nat): (won: set<int>)
    ensures Within(ps, won)
  {
    set k | i <= k < |ps| && Defeats(ps, e, now, i, k)
  }

  /** The enemy is gone exactly if somebody defeats it; the dead are gone, the winner bounces, and
      everybody else is as before. */
  ghost predicate Met(s: Sim, t: Sim, e: Enemy, ps: seq<Player>, dead: set<int>, won: set<int>, now: real)
    requires Within(ps, dead) && Within(ps, won)
  {
    && Killed(s, t, ps, dead, e.id, now)
    && (forall f :: f in t.world.enemies <==> f in s.world.enemies && (f.id == e.id ==> won == {}))
    && (forall q :: q in t.world.players <==>
          || (q in s.world.players && !Died(ps, dead, q.id) && !Died(ps, won, q.id))
          || (exists k :: k in won && q == Bouncing(ps[k], now)))
    && DistinctPlayers(t.world.players)
  }

  /** How an enemy meets the players listed from index i on: exactly those perish who overlap it and are
      listed before the first that prevails, and exactly that one defeats it. */
  ghost predicate Meets(s: Sim, t: Sim, e: Enemy, ps: seq<Player>, i: nat, now: real) {
    Met(s, t, e, ps, Perished(ps, e, now, i), Winners(ps, e, now, i), now)
  }

  lemma {:induction false} RemovedEnemies(es: seq<Enemy>, id: string)
    ensures forall f :: f in RemoveEnemy(es, id) <==> f in es && f.id != id
  {
    if es != [] { RemovedEnemies(es[1..], id); }
  }

  lemma {:induction false} ContactIsMeeting(s: Sim, e: Enemy, ps: seq<Player>, i: nat, now: real)
    requires DistinctPlayers(ps) && DistinctPlayers(s.world.players) && DistinctTimers(s.world.timers) && i <= |ps|
    ensures Meets(s, ContactFrom(s, e, ps, i, now), e, ps, i, now)
    decreases |ps| - i
  {
    hide Met, Perishes, Defeats, Prevails;
    if i == |ps| {
      NobodyThere(s, e, ps, i, now);
    } else if !Collides(ps[i], e.box) {
      ContactIsMeeting(s, e, ps, i + 1, now);
      OutOfReach(e, ps, i, now);
    } else if Prevails(ps[i], e, now) {
      TheFirstPrevails(s, e, ps, i, now);
    } else {
      var u := QueueDeath(s, ps[i], e.id, now);
      RemovalStaysDistinct(s.world.players, ps[i].id);
      PuttingTimer(s.world.timers, Timer(ps[i].id, now + RESPAWN_DELAY_S));
      ContactIsMeeting(u, e, ps, i + 1, now);
      TheFirstPerishes(s, e, ps, i, now);
      var t, dead, won := ContactFrom(u, e, ps, i + 1, now), Perished(ps, e, now, i + 1), Winners(ps, e, now, i + 1);
      OneMorePerished(s, t, e, ps, i, dead, won, now);
    }
  }

  lemma NobodyThere(s: Sim, e: Enemy, ps: seq<Player>, i: nat, now: real)
    requires i == |ps| && DistinctPlayers(s.world.players) && DistinctTimers(s.world.timers)
    ensures Meets(s, s, e, ps, i, now)
  {
    assert Perished(ps, e, now, i) == {} && Winners(ps, e, now, i) == {};
    NobodyKilled(s, ps, e.id, now);
  }

  lemma OutOfReach(e: Enemy, ps: seq<Player>, i: nat, now: real)
    requires i < |ps| && !Collides(ps[i], e.box)
    ensures Perished(ps, e, now, i) == Perished(ps, e, now, i + 1)
    ensures Winners(ps, e, now, i) == Winners(ps, e, now, i + 1)
  {
    forall k ensures Perishes(ps, e, now, i, k) <==> Perishes(ps, e, now, i + 1, k) {}
    forall k ensures Defeats(ps, e, now, i, k) <==> Defeats(ps, e, now, i + 1, k) {}
  }

  lemma TheFirstPrevails(s: Sim, e: Enemy, ps: seq<Player>, i: nat, now: real)
    requires i < |ps| && Collides(ps[i], e.box) && Prevails(ps[i], e, now)
    requires DistinctPlayers(s.world.players) && DistinctTimers(s.world.timers)
    ensures Meets(s, ContactFrom(s, e, ps, i, now), e, ps, i, now)
  {
    var p := ps[i].(effectExpiresAt := Unexpired(ps[i].effectExpiresAt, now));
    forall k ensures Defeats(ps, e, now, i, k) <==> k == i {}
    assert Winners(ps, e, now, i) == {i} && Perished(ps, e, now, i) == {};
    NobodyKilled(s, ps, e.id, now);
    RemovedEnemies(s.world.enemies, e.id);
    Putting(s.world.players, p.(vy := JUMP_FORCE * 0.6));
    assert p.(vy := JUMP_FORCE * 0.6) == Bouncing(ps[i], now);
    assert ContactFrom(s, e, ps, i, now) == DefeatEnemy(s, e, p);
    var t := DefeatEnemy(s, e, p);
    assert i in {i} && forall id :: Died(ps, {i}, id) <==> id == ps[i].id;
    assert Met(s, t, e, ps, {}, {i}, now);
  }

  lemma TheFirstPerishes(s: Sim, e: Enemy, ps: seq<Player>, i: nat, now: real)
    requires i < |ps| && Collides(ps[i], e.box) && !Prevails(ps[i], e, now)
    ensures Perished(ps, e, now, i) == Perished(ps, e, now, i + 1) + {i}
    ensures Winners(ps, e, now, i) == Winners(ps, e, now, i + 1)
    ensures ContactFrom(s, e, ps, i, now) == ContactFrom(QueueDeath(s, ps[i], e.id, now), e, ps, i + 1, now)
  {
    forall k ensures Perishes(ps, e, now, i, k) <==> k == i || Perishes(ps, e, now, i + 1, k) {}
    forall k ensures Defeats(ps, e, now, i, k) <==> Defeats(ps, e, now, i + 1, k) {}
    var p := ps[i].(effectExpiresAt := Unexpired(ps[i].effectExpiresAt, now));
    assert QueueDeath(s, p, e.id, now) == QueueDeath(s, ps[i], e.id, now);
  }

  lemma OneMorePerished(s: Sim, t: Sim, e: Enemy, ps: seq<Player>, i: nat, dead: set<int>, won: set<int>, now: real)
    requires i < |ps| && Within(ps, dead) && Within(ps, won) && i !in dead && i !in won
    requires DistinctPlayers(ps) && DistinctTimers(s.world.timers)
    requires Met(QueueDeath(s, ps[i], e.id, now), t, e, ps, dead, won, now)
    ensures Met(s, t, e, ps, dead + {i}, won, now)
  {
    hide Killed;
    OneMoreKilled(s, t, ps, i, dead, e.id, now);
    Removal(s.world.players, ps[i].id);
    forall id ensures Died(ps, dead + {i}, id) <==> Died(ps, dead, id) || id == ps[i].id {
      if id == ps[i].id { assert i in dead + {i}; }
      if Died(ps, dead, id) { var k :| k in dead && ps[k].id == id; assert k in dead + {i}; }
    }
  }

  // ---- All enemies ------------------------------------------------------------------------

  /** The same body in the same place. */
  predicate SamePlace(p: Player, q: Player) {
    q.id == p.id && q.x == p.x && q.y == p.y && q.width == p.width && q.height == p.height
  }

  ghost predicate NobodyTouches(ps: seq<Player>, e: Enemy) { forall p :: p in ps ==> !Collides(p, e.box) }

  lemma SomebodyIsFirst(ps: seq<Player>, e: Enemy, now: real, k: nat)
    requires k < |ps| && Collides(ps[k], e.box) && Prevails(ps[k], e, now)
    ensures Winners(ps, e, now, 0) != {}
    decreases k
  {
    if j :| 0 <= j < k && Collides(ps[j], e.box) && Prevails(ps[j], e, now) {
      SomebodyIsFirst(ps, e, now, j);
    } else {
      assert Defeats(ps, e, now, 0, k);
      assert k in Winners(ps, e, now, 0);
    }
  }

  /** Nobody has moved and nobody is new. */
  ghost predicate Remains(s: Sim, t: Sim) {
    && (forall q :: q in t.world.players ==> exists p :: p in s.world.players && SamePlace(p, q))
    && (forall f :: f in t.world.enemies ==> f in s.world.enemies)
  }

  lemma WithoutAWinner(ps: seq<Player>, e: Enemy, now: real, k: nat)
    requires k < |ps| && Collides(ps[k], e.box) && Winners(ps, e, now, 0) == {}
    ensures k in Perished(ps, e, now, 0)
  {
    forall j | 0 <= j <= k && Collides(ps[j], e.box) ensures !Prevails(ps[j], e, now) {
      if Prevails(ps[j], e, now) { SomebodyIsFirst(ps, e, now, j); }
    }
    assert Perishes(ps, e, now, 0, k);
  }

  /** An enemy that survives its pass touches nobody, and nobody has moved. */
  lemma SurvivorTouchesNobody(s: Sim, t: Sim, e: Enemy, now: real)
    requires DistinctPlayers(s.world.players) && Meets(s, t, e, s.world.players, 0, now)
    ensures e in t.world.enemies ==> NobodyTouches(t.world.players, e)
    ensures Remains(s, t)
  {
    var ps, won := s.world.players, Winners(s.world.players, e, now, 0);
    if e in t.world.enemies {
      forall q | q in t.world.players ensures !Collides(q, e.box) {
        var k :| 0 <= k < |ps| && ps[k] == q;
        if Collides(q, e.box) { WithoutAWinner(ps, e, now, k); }
      }
    }
    forall q | q in t.world.players ensures exists p :: p in ps && SamePlace(p, q) {
      if k :| k in won && q == Bouncing(ps[k], now) { assert SamePlace(ps[k], q) && ps[k] in ps; }
      else { assert SamePlace(q, q); }
    }
  }

  lemma ContactStaysDistinct(s: Sim, e: Enemy, now: real)
    requires DistinctPlayers(s.world.players) && DistinctTimers(s.world.timers)
    ensures var t := ContactFrom(s, e, s.world.players, 0, now);
      DistinctPlayers(t.world.players) && DistinctTimers(t.world.timers)
  {
    ContactIsMeeting(s, e, s.world.players, 0, now);
  }

  /** The enemies' passes, one after the other, each against the players alive when it begins. */
  ghost predicate Passes(trace: seq<Sim>, es: seq<Enemy>, now: real) {
    && |trace| == |es| + 1
    && forall j :: 0 <= j < |es| ==> Pass(trace, es, now, j)
  }

  ghost predicate Pass(trace: seq<Sim>, es: seq<Enemy>, now: real, j: nat)
    requires j < |es| && |trace| == |es| + 1
  {
    DistinctPlayers(trace[j].world.players) && Meets(trace[j], trace[j + 1], es[j], trace[j].world.players, 0, now)
  }

  ghost predicate Between(trace: seq<Sim>, s: Sim, t: Sim) { trace != [] && trace[0] == s && trace[|trace| - 1] == t }

  lemma {:induction false} ContactsArePasses(s: Sim, es: seq<Enemy>, j: nat, now: real) returns (trace: seq<Sim>)
    requires DistinctPlayers(s.world.players) && DistinctTimers(s.world.timers) && j <= |es|
    ensures Passes(trace, es[j..], now) && Between(trace, s, EnemyContactsFrom(s, es, j, now))
    decreases |es| - j
  {
    hide Meets, DistinctPlayers, DistinctTimers;
    if j == |es| {
      trace := [s];
    } else {
      ContactIsMeeting(s, es[j], s.world.players, 0, now);
      ContactStaysDistinct(s, es[j], now);
      var rest := ContactsArePasses(ContactFrom(s, es[j], s.world.players, 0, now), es, j + 1, now);
      trace := [s] + rest;
      assert es[j..] == [es[j]] + es[j + 1..];
      forall i | 0 <= i < |es[j..]| ensures Pass(trace, es[j..], now, i) {
        if i > 0 { assert Pass(rest, es[j + 1..], now, i - 1); }
      }
    }
  }

  /** Of the first n enemies none that is left touches a player that is left. */
  ghost predicate Separated(s: Sim, es: seq<Enemy>, n: nat)
    requires n <= |es|
  {
    forall i :: 0 <= i < n && es[i] in s.world.enemies ==> NobodyTouches(s.world.players, es[i])
  }

  lemma {:induction false} PassesSeparate(trace: seq<Sim>, es: seq<Enemy>, now: real, n: nat)
    requires Passes(trace, es, now) && n <= |es|
    ensures Separated(trace[n], es, n) && EnemiesFrom(trace[0], trace[n])
  {
    if n > 0 {
      hide Pass, Separated, EnemiesFrom;
      PassesSeparate(trace, es, now, n - 1);
      PassSeparates(trace, es, now, n - 1);
    }
  }

  lemma PassSeparates(trace: seq<Sim>, es: seq<Enemy>, now: real, n: nat)
    requires n < |es| && |trace| == |es| + 1 && Pass(trace, es, now, n)
    requires Separated(trace[n], es, n) && EnemiesFrom(trace[0], trace[n])
    ensures Separated(trace[n + 1], es, n + 1) && EnemiesFrom(trace[0], trace[n + 1])
  {
    SurvivorTouchesNobody(trace[n], trace[n + 1], es[n], now);
    hide Pass, Meets, DistinctPlayers, Remains, NobodyTouches, Separated, EnemiesFrom;
    OneMoreSeparated(trace[n], trace[n + 1], es, n);
    NoneIsNew(trace[0], trace[n], trace[n + 1]);
  }

  ghost predicate EnemiesFrom(s: Sim, t: Sim) { forall f :: f in t.world.enemies ==> f in s.world.enemies }

  lemma NoneIsNew(r: Sim, s: Sim, t: Sim)
    requires EnemiesFrom(r, s) && Remains(s, t)
    ensures EnemiesFrom(r, t)
  {
  }

  lemma OneMoreSeparated(s: Sim, t: Sim, es: seq<Enemy>, n: nat)
    requires n < |es| && Separated(s, es, n)
    requires es[n] in t.world.enemies ==> NobodyTouches(t.world.players, es[n])
    requires Remains(s, t)
    ensures Separated(t, es, n + 1)
  {
    forall i | 0 <= i < n && es[i] in t.world.enemies ensures NobodyTouches(t.world.players, es[i]) {
      StillSeparate(s.world.players, t.world.players, es[i]);
    }
  }

  lemma StillSeparate(ps: seq<Player>, qs: seq<Player>, e: Enemy)
    requires NobodyTouches(ps, e) && forall q :: q in qs ==> exists p :: p in ps && SamePlace(p, q)
    ensures NobodyTouches(qs, e)
  {
  }

  lemma NoContactIsLeft(s: Sim, now: real)
    requires DistinctPlayers(s.world.players) && DistinctTimers(s.world.timers)
    ensures var t := ContactPhase(s, true, now).world;
      forall e :: e in t.enemies ==> NobodyTouches(t.players, e)
  {
    var es := s.world.enemies;
    var trace := ContactsArePasses(s, es, 0, now);
    assert es[0..] == es;
    PassesSeparate(trace, es, now, |es|);
    forall e | e in ContactPhase(s, true, now).world.enemies
      ensures NobodyTouches(ContactPhase(s, true, now).world.players, e)
    {
      var i :| 0 <= i < |es| && es[i] == e;
    }
  }

  // ---- The void ---------------------------------------------------------------------------

  /** Whose feet are below the lower border. */
  ghost function Fallen(ps: seq<Player>, i: nat, height: real): (dead: set<int>)
    ensures Within(ps, dead)
  {
    set k | i <= k < |ps| && ps[k].y + ps[k].height > height
  }

  /** Exactly the fallen die, and nothing else changes. */
  ghost predicate Falls(s: Sim, t: Sim, ps: seq<Player>, dead: set<int>, now: real)
    requires Within(ps, dead)
  {
    && Killed(s, t, ps, dead, VOID_DEATH_CAUSE, now)
    && (forall q :: q in t.world.players <==> q in s.world.players && !Died(ps, dead, q.id))
    && t.world == s.world.(players := t.world.players, timers := t.world.timers)
  }

  lemma {:induction false} FallsExactly(s: Sim, ps: seq<Player>, i: nat, height: real, now: real)
    requires DistinctPlayers(ps) && DistinctTimers(s.world.timers) && i <= |ps|
    ensures Falls(s, VoidDeathsFrom(s, ps, i, height, now), ps, Fallen(ps, i, height), now)
    decreases |ps| - i
  {
    if i == |ps| {
      assert Fallen(ps, i, height) == {};
      NobodyKilled(s, ps, VOID_DEATH_CAUSE, now);
    } else if ps[i].y + ps[i].height <= height {
      FallsExactly(s, ps, i + 1, height, now);
      assert Fallen(ps, i, height) == Fallen(ps, i + 1, height);
    } else {
      var u := QueueDeath(s, ps[i], VOID_DEATH_CAUSE, now);
      PuttingTimer(s.world.timers, Timer(ps[i].id, now + RESPAWN_DELAY_S));
      FallsExactly(u, ps, i + 1, height, now);
      assert Fallen(ps, i, height) == Fallen(ps, i + 1, height) + {i};
      OneMoreFallen(s, VoidDeathsFrom(u, ps, i + 1, height, now), ps, i, Fallen(ps, i + 1, height), now);
    }
  }

  lemma OneMoreFallen(s: Sim, t: Sim, ps: seq<Player>, i: nat, dead: set<int>, now: real)
    requires i < |ps| && Within(ps, dead) && i !in dead && DistinctPlayers(ps) && DistinctTimers(s.world.timers)
    requires Falls(QueueDeath(s, ps[i], VOID_DEATH_CAUSE, now), t, ps, dead, now)
    ensures Falls(s, t, ps, dead + {i}, now)
  {
    hide Killed;
    OneMoreKilled(s, t, ps, i, dead, VOID_DEATH_CAUSE, now);
    Removal(s.world.players, ps[i].id);
    forall id ensures Died(ps, dead + {i}, id) <==> Died(ps, dead, id) || id == ps[i].id {
      if id == ps[i].id { assert i in dead + {i}; }
      if Died(ps, dead, id) { var k :| k in dead && ps[k].id == id; assert k in dead + {i}; }
    }
  }

  // ---- Returns ----------------------------------------------------------------------------

  /** A fresh character, at rest and without an effect, at the spawn point of its join index. */
  predicate AtSpawn(p: Player, setup: Setup, id: string, joinIndex: int) {
    && p == NewPlayer(id, p.x, p.y, joinIndex)
    && (setup.spawnPoints == [] ==> Placed(p, setup, 100.0, 100.0))
    && (setup.spawnPoints != [] ==>
          var point := setup.spawnPoints[joinIndex % |setup.spawnPoints|]; Placed(p, setup, point.0, point.1))
  }

  /** At this point, moved into the world if the point lies outside. */
  predicate Placed(p: Player, setup: Setup, x: real, y: real) {
    && (0.0 <= x <= setup.width - p.width ==> p.x == x)
    && (0.0 <= y <= setup.height - p.height ==> p.y == y)
    && 0.0 <= p.x <= Max(0.0, setup.width - p.width) && 0.0 <= p.y <= Max(0.0, setup.height - p.height)
  }

  lemma SpawnedAtSpawn(setup: Setup, id: string, joinIndex: int)
    ensures AtSpawn(Spawned(setup, id, SpawnPosition(setup, joinIndex), joinIndex), setup, id, joinIndex)
  {
  }

  ghost predicate Due(ts: seq<Timer>, k: nat, now: real, id: string) {
    exists i :: k <= i < |ts| && ts[i].id == id && ts[i].due <= now
  }

  /** Exactly those with a due timer are back, each at the spawn point of its saved join index. */
  ghost predicate Returns(s: Sim, t: Sim, setup: Setup, ts: seq<Timer>, k: nat, now: real) {
    && (forall w :: w in t.world.timers <==> w in s.world.timers && !Due(ts, k, now, w.id))
    && (forall id :: id in t.saved <==> id in s.saved && !Due(ts, k, now, id))
    && (forall id :: id in t.saved ==> t.saved[id] == s.saved[id])
    && (forall q :: q in t.world.players && !Due(ts, k, now, q.id) <==> q in s.world.players && !Due(ts, k, now, q.id))
    && (forall id :: Due(ts, k, now, id) ==> id in Alive(t.world.players))
    && (forall q :: q in t.world.players && Due(ts, k, now, q.id) ==>
          AtSpawn(q, setup, q.id, if q.id in s.saved then s.saved[q.id] else 0))
    && DistinctPlayers(t.world.players)
  }

  lemma {:induction false} RemovingTimer(ts: seq<Timer>, id: string)
    ensures forall w :: w in RemoveTimer(ts, id) <==> w in ts && w.id != id
  {
    if ts != [] { RemovingTimer(ts[1..], id); }
  }

  lemma {:induction false} ReturnsExactly(s: Sim, setup: Setup, ts: seq<Timer>, k: nat, now: real)
    requires DistinctTimers(ts) && DistinctPlayers(s.world.players) && k <= |ts|
    ensures Returns(s, RespawnsFrom(s, setup, ts, k, now), setup, ts, k, now)
    decreases |ts| - k
  {
    if k < |ts| {
      forall id ensures Due(ts, k, now, id) <==> Due(ts, k + 1, now, id) || (id == ts[k].id && ts[k].due <= now) {
        if id == ts[k].id && ts[k].due <= now { assert ts[k].id == id; }
      }
      if now >= ts[k].due {
        var u := Respawn(s, setup, ts[k].id);
        var joinIndex := if ts[k].id in s.saved then s.saved[ts[k].id] else 0;
        SpawnedAtSpawn(setup, ts[k].id, joinIndex);
        Putting(s.world.players, Spawned(setup, ts[k].id, SpawnPosition(setup, joinIndex), joinIndex));
        RemovingTimer(s.world.timers, ts[k].id);
        ReturnsExactly(u, setup, ts, k + 1, now);
        OneMoreReturn(s, RespawnsFrom(u, setup, ts, k + 1, now), setup, ts, k, now);
      } else {
        ReturnsExactly(s, setup, ts, k + 1, now);
      }
    }
  }

  lemma OneMoreReturn(s: Sim, t: Sim, setup: Setup, ts: seq<Timer>, k: nat, now: real)
    requires DistinctTimers(ts) && DistinctPlayers(s.world.players) && k < |ts| && ts[k].due <= now
    requires Returns(Respawn(s, setup, ts[k].id), t, setup, ts, k + 1, now)
    ensures Returns(s, t, setup, ts, k, now)
  {
    var id := ts[k].id;
    var joinIndex := if id in s.saved then s.saved[id] else 0;
    var p := Spawned(setup, id, SpawnPosition(setup, joinIndex), joinIndex);
    SpawnedAtSpawn(setup, id, joinIndex);
    Putting(s.world.players, p);
    RemovingTimer(s.world.timers, id);
    forall other ensures Due(ts, k, now, other) <==> Due(ts, k + 1, now, other) || other == id {
      if other == id { assert ts[k].id == id; }
    }
    assert !Due(ts, k + 1, now, id);
    assert p in t.world.players;
    assert p.id in Alive(t.world.players);
  }

  // ---- A new run --------------------------------------------------------------------------

  /** At rest at the spawn point of its join index, without an effect; the body is the same. */
  predicate BackAtStart(p: Player, q: Player, setup: Setup) {
    && q.id == p.id && q.joinIndex == p.joinIndex && q.width == p.width && q.height == p.height
    && q.vx == 0.0 && q.vy == 0.0 && !q.onGround && !q.crouching && q.effectExpiresAt == None
    && (setup.spawnPoints == [] ==> q.x == 100.0 && q.y == 100.0)
    && (setup.spawnPoints != [] ==>
          var point := setup.spawnPoints[p.joinIndex % |setup.spawnPoints|]; q.x == point.0 && q.y == point.1)
  }

  /** A reset puts every living player back at its start and the level back as it was loaded, and forgets
      progress, victory and everybody that waits. */
  lemma ResetStartsOver(s: Sim, setup: Setup)
    ensures var t := ResetForNewRun(s, setup); var w := t.world;
      && |w.players| == |s.world.players|
      && (forall i :: 0 <= i < |w.players| ==> BackAtStart(s.world.players[i], w.players[i], setup))
      && w.blocks == setup.level.blocks && w.powerUps == setup.level.powerUps
      && w.enemies == setup.level.enemies && w.gates == setup.level.gates
      && w.tally == Tally(0, 0, 0) && w.initialEnemies == |setup.level.enemies|
      && !w.victory && w.victor == None && w.number == s.world.number
      && w.timers == [] && t.saved == map[] && t.events == s.events + [LevelReset]
  {
    var t := ResetForNewRun(s, setup);
    forall i | 0 <= i < |t.world.players| ensures BackAtStart(s.world.players[i], t.world.players[i], setup) {}
  }
}
