/** Who gets a power-up when several players touch it in the same tick
    (domain/game_engine.py:192-214). */
module PowerUpRace {
  import opened Prelude
  import opened Config
  import opened Entities
  import opened Simulation

  predicate Touching(ps: seq<Player>, b: Box, i: int) { 0 <= i < |ps| && Collides(ps[i], b) }

  ghost predicate Untouched(ps: seq<Player>, b: Box) { forall i :: !Touching(ps, b, i) }

  /** Player w touches the box, nobody touching it has a smaller join index, and everybody touching
      it who comes earlier has a larger one. */
  ghost predicate Wins(ps: seq<Player>, b: Box, w: int) {
    && Touching(ps, b, w)
    && (forall i :: Touching(ps, b, i) ==> ps[w].joinIndex <= ps[i].joinIndex)
    && (forall i :: i < w && Touching(ps, b, i) ==> ps[w].joinIndex < ps[i].joinIndex)
  }

  /** The same among the players before k. */
  ghost predicate Leads(ps: seq<Player>, b: Box, k: nat, best: int) {
    && (best < 0 ==> forall i :: i < k ==> !Touching(ps, b, i))
    && (best >= 0 ==>
          && best < k && Touching(ps, b, best)
          && (forall i :: i < k && Touching(ps, b, i) ==> ps[best].joinIndex <= ps[i].joinIndex)
          && (forall i :: i < best && Touching(ps, b, i) ==> ps[best].joinIndex < ps[i].joinIndex))
  }

  lemma {:induction false} LeaderWins(ps: seq<Player>, b: Box, k: nat, best: int)
    requires k <= |ps| && -1 <= best < |ps| && Leads(ps, b, k, best)
    ensures var w := WinnerFrom(ps, b, k, best);
      if w < 0 then Untouched(ps, b) else Wins(ps, b, w)
    decreases |ps| - k
  {
    if k < |ps| {
      var next := if Collides(ps[k], b) && (best < 0 || ps[k].joinIndex < ps[best].joinIndex) then k else best;
      assert Touching(ps, b, k) <==> Collides(ps[k], b);
      LeaderWins(ps, b, k + 1, next);
    }
  }

  /** The winner: nobody exactly when nobody touches the power-up, otherwise the least join index, the
      first in order on ties. */
  lemma WinnerIsLeast(ps: seq<Player>, b: Box)
    ensures var w := WinnerFrom(ps, b, 0, -1);
      && (w < 0 <==> Untouched(ps, b))
      && (w >= 0 ==> Wins(ps, b, w))
  {
    LeaderWins(ps, b, 0, -1);
  }

  lemma OnlyOneWins(ps: seq<Player>, b: Box, v: int, w: int)
    requires Wins(ps, b, v) && Wins(ps, b, w)
    ensures v == w
  {
    assert Touching(ps, b, v) && Touching(ps, b, w);
  }

  // ---- All power-ups of a tick ------------------------------------------------------------

  /** Same bodies and join indices; only a star effect may differ. */
  predicate SameBodies(ps: seq<Player>, qs: seq<Player>) {
    |ps| == |qs| && forall i :: 0 <= i < |ps| ==> qs[i] == ps[i].(effectExpiresAt := qs[i].effectExpiresAt)
  }

  lemma SameBodiesTouchAlike(ps: seq<Player>, qs: seq<Player>, b: Box, w: int)
    requires SameBodies(ps, qs)
    ensures Wins(ps, b, w) <==> Wins(qs, b, w)
    ensures Untouched(ps, b) <==> Untouched(qs, b)
  {
    assert forall i :: Touching(ps, b, i) <==> Touching(qs, b, i);
  }

  /** What becomes of one power-up, told from the players as they were when the phase began. */
  ghost predicate Raced(ps: seq<Player>, before: PowerUp, after: PowerUp) {
    if before.collected || Untouched(ps, before.box) then after == before
    else exists w :: Wins(ps, before.box, w) && after == before.(collected := true, owner := Some(ps[w].id))
  }

  /** Player i wins some free star. */
  ghost predicate WinsStar(ps: seq<Player>, pus: seq<PowerUp>, i: int, from: nat) {
    exists k :: from <= k < |pus| && !pus[k].collected && IsStar(pus[k]) && Wins(ps, pus[k].box, i)
  }

  ghost predicate RaceResult(ps: seq<Player>, pus: seq<PowerUp>, j: nat, r: CollectPhase, now: real) {
    && |r.powerUps| == |pus| && SameBodies(ps, r.players)
    && (forall k :: 0 <= k < |pus| ==> if k < j then r.powerUps[k] == pus[k] else Raced(ps, pus[k], r.powerUps[k]))
    && (forall i :: 0 <= i < |ps| ==>
          r.players[i].effectExpiresAt == if WinsStar(ps, pus, i, j) then Some(now + STAR_EFFECT_S)
              else ps[i].effectExpiresAt)
  }

  /** Every free power-up that is touched goes to the toucher with the least join index, none is
      taken otherwise, and exactly the winners of stars get the effect. */
  lemma {:induction false} CollectedByTheLeast(ps: seq<Player>, pus: seq<PowerUp>, events: seq<Event>, j: nat,
      now: real)
    requires j <= |pus|
    ensures RaceResult(ps, pus, j, CollectFrom(ps, pus, events, j, now), now)
    decreases |pus| - j
  {
    if j < |pus| {
      WinnerIsLeast(ps, pus[j].box);
      var w := if pus[j].collected then -1 else WinnerFrom(ps, pus[j].box, 0, -1);
      if w < 0 {
        CollectedByTheLeast(ps, pus, events, j + 1, now);
        NobodyTakes(ps, pus, j, CollectFrom(ps, pus, events, j + 1, now), now);
      } else {
        TakenByTheWinner(ps, pus, events, j, now, w);
      }
    }
  }

  lemma NoStarHere(ps: seq<Player>, pus: seq<PowerUp>, i: int, j: nat)
    requires j < |pus| && (pus[j].collected || Untouched(ps, pus[j].box))
    ensures WinsStar(ps, pus, i, j) <==> WinsStar(ps, pus, i, j + 1)
  {
    assert Untouched(ps, pus[j].box) ==> !Wins(ps, pus[j].box, i);
  }

  lemma NobodyTakes(ps: seq<Player>, pus: seq<PowerUp>, j: nat, r: CollectPhase, now: real)
    requires j < |pus| && RaceResult(ps, pus, j + 1, r, now)
    requires pus[j].collected || Untouched(ps, pus[j].box)
    ensures RaceResult(ps, pus, j, r, now)
  {
    hide Wins, WinsStar, Touching;
    forall i | 0 <= i < |ps| ensures WinsStar(ps, pus, i, j) <==> WinsStar(ps, pus, i, j + 1) {
      NoStarHere(ps, pus, i, j);
    }
    assert r.powerUps[j] == pus[j];
    assert Raced(ps, pus[j], r.powerUps[j]);
  }

  lemma TakenByTheWinner(ps: seq<Player>, pus: seq<PowerUp>, events: seq<Event>, j: nat, now: real, w: int)
    requires j < |pus| && !pus[j].collected && 0 <= w < |ps| && w == WinnerFrom(ps, pus[j].box, 0, -1) &&
        Wins(ps, pus[j].box, w)
    ensures RaceResult(ps, pus, j, CollectFrom(ps, pus, events, j, now), now)
    decreases |pus| - j, 0
  {
    var (taken, event) := Collect(pus[j], ps[w].id).value;
    var ps' := if IsStar(pus[j]) then ps[w := ps[w].(effectExpiresAt := Some(now + STAR_EFFECT_S))] else ps;
    var pus' := pus[j := taken];
    CollectedByTheLeast(ps', pus', events + [event], j + 1, now);
    var r := CollectFrom(ps', pus', events + [event], j + 1, now);
    forall k | j < k < |pus| ensures Raced(ps, pus[k], r.powerUps[k]) { RacedAlike(ps, ps', pus[k], r.powerUps[k]); }
    forall i | 0 <= i < |ps|
      ensures WinsStar(ps, pus, i, j) <==> WinsStar(ps', pus', i, j + 1) || (i == w && IsStar(pus[j]))
    {
      StarsAlike(ps, ps', pus, pus', i, j, w);
    }
  }

  lemma RacedAlike(ps: seq<Player>, qs: seq<Player>, before: PowerUp, after: PowerUp)
    requires SameBodies(ps, qs) && Raced(qs, before, after)
    ensures Raced(ps, before, after)
  {
    forall w ensures Wins(ps, before.box, w) <==> Wins(qs, before.box, w) {
      SameBodiesTouchAlike(ps, qs, before.box, w);
    }
    SameBodiesTouchAlike(ps, qs, before.box, 0);
  }

  lemma StarsAlike(ps: seq<Player>, qs: seq<Player>, pus: seq<PowerUp>, later: seq<PowerUp>, i: int, j: nat, w: int)
    requires SameBodies(ps, qs) && j < |pus| == |later| && (forall k :: j < k < |pus| ==> later[k] == pus[k])
    requires !pus[j].collected && Wins(ps, pus[j].box, w)
    ensures WinsStar(ps, pus, i, j) <==> WinsStar(qs, later, i, j + 1) || (i == w && IsStar(pus[j]))
  {
    forall k | j < k < |pus| ensures Wins(ps, pus[k].box, i) <==> Wins(qs, later[k].box, i) {
      SameBodiesTouchAlike(ps, qs, pus[k].box, i);
    }
    if Wins(ps, pus[j].box, i) { OnlyOneWins(ps, pus[j].box, i, w); }
  }

  /** The power-up phase of a host's tick: exactly the free power-ups somebody touches are taken, each
      by the toucher with the least join index. */
  lemma PowerUpsGoToTheLeast(s: Sim, now: real)
    ensures var t := PowerUpsPhase(s, true, now);
      && |t.world.powerUps| == |s.world.powerUps|
      && (forall k :: 0 <= k < |s.world.powerUps| ==> Raced(s.world.players, s.world.powerUps[k], t.world.powerUps[k]))
  {
    CollectedByTheLeast(s.world.players, s.world.powerUps, s.events, 0, now);
  }
}
