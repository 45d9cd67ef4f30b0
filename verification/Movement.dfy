/** How a player moves: overlaps, being pushed back, and a tick in open space
    (domain/physics.py, domain/collisions.py, domain/game_engine.py:83-147). */
module Movement {
  import opened Prelude
  import opened Config
  import opened Entities
  import opened Simulation
  import Progress
  import Confinement

  // ---- Overlaps ---------------------------------------------------------------------------

  predicate InsidePlayer(p: Player, x: real, y: real) { p.x < x < p.x + p.width && p.y < y < p.y + p.height }

  predicate InsideBox(b: Box, x: real, y: real) { b.x < x < b.x + b.width && b.y < y < b.y + b.height }

  /** Two rectangles of positive size collide exactly when some point is inside both. */
  lemma CollidesExactly(p: Player, b: Box)
    requires p.width > 0.0 && p.height > 0.0 && b.width > 0.0 && b.height > 0.0
    ensures Collides(p, b) <==> exists x, y :: InsidePlayer(p, x, y) && InsideBox(b, x, y)
  {
    if Collides(p, b) {
      var x := (Max(p.x, b.x) + Min(p.x + p.width, b.x + b.width)) / 2.0;
      var y := (Max(p.y, b.y) + Min(p.y + p.height, b.y + b.height)) / 2.0;
      assert InsidePlayer(p, x, y) && InsideBox(b, x, y);
    }
  }

  // ---- Being pushed back ------------------------------------------------------------------

  /** Out through the top, only if the feet were above it before: standing. */
  predicate LandsOn(p: Player, r: Player, b: Box) {
    p.vy > 0.0 && p.prevY + p.height <= b.y && r == p.(y := b.y - p.height, vy := 0.0, onGround := true)
  }

  predicate HitsFromBelow(p: Player, r: Player, b: Box) { p.vy < 0.0 && r == p.(y := b.y + b.height, vy := 0.0) }

  predicate StopsLeftOf(p: Player, r: Player, b: Box) { p.vx > 0.0 && r == p.(x := b.x - p.width, vx := 0.0) }

  predicate StopsRightOf(p: Player, r: Player, b: Box) { p.vx < 0.0 && r == p.(x := b.x + b.width, vx := 0.0) }

  /** No way out is shorter than d. */
  predicate Shortest(p: Player, b: Box, d: real) {
    && d <= p.y + p.height - b.y && d <= b.y + b.height - p.y
    && d <= p.x + p.width - b.x && d <= b.x + b.width - p.x
  }

  /** A player that overlaps a box is moved, if at all, against its own motion, back to where it touches
      the box, by the shortest of the four ways out; and it is moved whenever that way is the only
      shortest one and leads against its motion. */
  lemma PushedBackTheShortestWay(p: Player, b: Box)
    requires Collides(p, b)
    ensures var r := ResolveCollision(p, b);
      && (r == p || LandsOn(p, r, b) || HitsFromBelow(p, r, b) || StopsLeftOf(p, r, b) || StopsRightOf(p, r, b))
      && Shortest(p, b, Max(Abs(r.x - p.x), Abs(r.y - p.y)))
    ensures OnlyWay(p, b, p.y + p.height - b.y, 0) && p.vy > 0.0 && p.prevY + p.height <= b.y ==>
              LandsOn(p, ResolveCollision(p, b), b)
    ensures OnlyWay(p, b, b.y + b.height - p.y, 1) && p.vy < 0.0 ==> HitsFromBelow(p, ResolveCollision(p, b), b)
    ensures OnlyWay(p, b, p.x + p.width - b.x, 2) && p.vx > 0.0 ==> StopsLeftOf(p, ResolveCollision(p, b), b)
    ensures OnlyWay(p, b, b.x + b.width - p.x, 3) && p.vx < 0.0 ==> StopsRightOf(p, ResolveCollision(p, b), b)
  {
  }

  /** The way with this number, of length d, is shorter than the three others. */
  predicate OnlyWay(p: Player, b: Box, d: real, number: int) {
    && (number != 0 ==> d < p.y + p.height - b.y) && (number != 1 ==> d < b.y + b.height - p.y)
    && (number != 2 ==> d < p.x + p.width - b.x) && (number != 3 ==> d < b.x + b.width - p.x)
  }

  // ---- A tick in open space ---------------------------------------------------------------

  /** Where the input takes a player that nothing stops: left wins over right, a jump needs the ground,
      gravity acts before the position moves. */
  predicate Glides(p: Player, q: Player, input: Input, dt: real) {
    && q.x == p.x + q.vx * dt && q.y == p.y + q.vy * dt
    && (input.left ==> q.vx == -MOVE_SPEED)
    && (input.right && !input.left ==> q.vx == MOVE_SPEED)
    && (!input.left && !input.right ==> q.vx == 0.0)
    && q.vy == (if input.jump && p.onGround then JUMP_FORCE else p.vy) + GRAVITY * dt
    && !q.onGround && q.crouching == (input.down && p.onGround && !input.jump)
    && q.prevX == p.x && q.prevY == p.y && q.id == p.id && q.joinIndex == p.joinIndex
    && q.width == p.width && q.height == p.height
  }

  ghost predicate OpenSpace(q: Player, w: World, setup: Setup) {
    && (forall j :: 0 <= j < |setup.platforms| ==> !Collides(q, setup.platforms[j]))
    && ClearOfBlocks(q, w.blocks) && ClearOfGates(q, w.gates)
    && Confinement.InWorld(q, setup)
  }

  predicate ClearOfBlocks(q: Player, blocks: seq<Block>) {
    forall j :: 0 <= j < |blocks| ==> blocks[j].destroyed || !Collides(q, blocks[j].box)
  }

  predicate ClearOfGates(q: Player, gates: seq<Gate>) { forall j :: 0 <= j < |gates| ==> !Collides(q, gates[j].box) }

  lemma {:induction false} NoPlatformInTheWay(q: Player, platforms: seq<Box>, j: nat)
    requires forall k :: j <= k < |platforms| ==> !Collides(q, platforms[k])
    ensures PlatformsFrom(q, platforms, j) == q
    decreases |platforms| - j
  {
    if j < |platforms| { NoPlatformInTheWay(q, platforms, j + 1); }
  }

  lemma {:induction false} NoBlockInTheWay(q: Player, blocks: seq<Block>, events: seq<Event>, j: nat)
    requires ClearOfBlocks(q, blocks)
    ensures BlocksFrom(q, blocks, events, j).player == q
    decreases |blocks| - j
  {
    if j < |blocks| { NoBlockInTheWay(q, blocks, events, j + 1); }
  }

  lemma {:induction false} HitsLeaveAlone(ps: seq<Player>, blocks: seq<Block>, events: seq<Event>, k: nat, i: nat)
    requires i < |ps| && ClearOfBlocks(ps[i], blocks)
    ensures HitBlocksFrom(ps, blocks, events, k).players[i] == ps[i]
    decreases |ps| - k
  {
    if k < |ps| {
      var hit := BlocksFrom(ps[k], blocks, events, 0);
      Progress.BlocksFromAdvances(ps[k], blocks, events, 0);
      NoBlockInTheWay(ps[i], blocks, events, 0);
      HitsLeaveAlone(ps[k := hit.player], hit.blocks, hit.events, k + 1, i);
    }
  }

  lemma {:induction false} GatesLeaveAlone(ps: seq<Player>, gates: seq<Gate>, events: seq<Event>, j: nat, t: Tally,
      i: nat)
    requires i < |ps| && ClearOfGates(ps[i], gates)
    ensures GatesFrom(ps, gates, events, j, t).players[i] == ps[i]
    decreases |gates| - j
  {
    if j < |gates| {
      var (g, change) := UpdateGate(gates[j], RequirementsMet(gates[j], t));
      var after := if g.state == Closed then PushOutAll(ps, g.box) else ps;
      GatesLeaveAlone(after, gates[j := g], events + change, j + 1, t, i);
    }
  }

  lemma MovedGlides(p: Player, inputs: map<string, Input>, dt: real, now: real)
    requires p.id in inputs
    ensures Glides(p, Moved(p, inputs, dt, now).(onGround := false), inputs[p.id], dt)
  {
  }

  /** A predicted tick takes a player exactly where its input says, if nothing is in the way there. */
  lemma FreeTick(s: Sim, setup: Setup, call: TickCall, i: nat, q: Player)
    requires !s.world.victory && i < |s.world.players| && s.world.players[i].id in call.inputs
    requires Glides(s.world.players[i], q, call.inputs[s.world.players[i].id], call.dt) && OpenSpace(q, s.world, setup)
    ensures var t := TickBy(s, setup, false, call).world;
      |t.players| == |s.world.players| && t.players[i] == q.(effectExpiresAt := t.players[i].effectExpiresAt)
  {
    hide HitBlocksFrom, GatesFrom, CurrentTally;
    var p := s.world.players[i];
    var r := Moved(p, call.inputs, call.dt, call.clock.expiry).(onGround := false);
    MovedGlides(p, call.inputs, call.dt, call.clock.expiry);
    SameGlide(p, q, r, call.inputs[p.id], call.dt);
    NoPlatformInTheWay(r, setup.platforms, 0);
    var s1 := MovePhase(s, setup, call.inputs, call.dt, call.clock.expiry);
    assert s1.world.players[i] == r;
    HitsLeaveAlone(s1.world.players, s1.world.blocks, s1.events, 0, i);
    var s2 := TallyPhase(EnemiesPhase(BlocksPhase(s1), call.commands, call.dt));
    assert s2.world.players[i] == r;
    GatesLeaveAlone(s2.world.players, s2.world.gates, s2.events, 0, s2.world.tally, i);
    var s3 := GatesPhase(s2);
    assert s3.world.players[i] == r;
    assert ClampToWorld(r, setup, false) == r;
  }

  lemma SameGlide(p: Player, q: Player, r: Player, input: Input, dt: real)
    requires Glides(p, q, input, dt) && Glides(p, r, input, dt)
    ensures r == q.(effectExpiresAt := r.effectExpiresAt)
  {
    assert q.vx == r.vx && q.vy == r.vy;
  }

  // ---- Blocks break from below --------------------------------------------------------------

  /** Before the tick the head was no higher than 4 px above the block's lower edge. */
  predicate FromBelow(p: Player, b: Box) { p.prevY >= b.y + b.height - 4.0 }

  predicate NewlyBroken(before: seq<Block>, after: seq<Block>, k: int) {
    0 <= k < |before| == |after| && !before[k].destroyed && after[k].destroyed
  }

  /** A player breaks a block only from below, and the first intact block it overlaps it breaks exactly
      then. */
  lemma {:induction false} BreaksFromBelow(p: Player, blocks: seq<Block>, events: seq<Event>, j: nat)
    ensures var after := BlocksFrom(p, blocks, events, j).blocks;
      && (forall k :: NewlyBroken(blocks, after, k) ==> FromBelow(p, blocks[k].box))
      && (forall k :: FirstOverlap(p, blocks, j, k) ==> (after[k].destroyed <==> FromBelow(p, blocks[k].box)))
    decreases |blocks| - j
  {
    if j < |blocks| {
      var b := blocks[j];
      if b.destroyed || !Collides(p, b.box) {
        BreaksFromBelow(p, blocks, events, j + 1);
      } else {
        var q := ResolveCollision(p, b.box);
        var (bs, es) := if IsHeadBump(p, b.box)
                        then (blocks[j := b.(destroyed := true)], events + [BlockDestroyed(b.box.x, b.box.y)])
                        else (blocks, events);
        assert q.prevY == p.prevY;
        BreaksFromBelow(q, bs, es, j + 1);
        Progress.BlocksFromAdvances(q, bs, es, j + 1);
        LaterBlocksOnly(q, bs, es, j + 1);
      }
    }
  }

  /** The first intact block from index j on that the player overlaps. */
  predicate FirstOverlap(p: Player, blocks: seq<Block>, j: nat, k: int) {
    && j <= k < |blocks| && !blocks[k].destroyed && Collides(p, blocks[k].box)
    && forall i :: j <= i < k ==> blocks[i].destroyed || !Collides(p, blocks[i].box)
  }

  lemma {:induction false} LaterBlocksOnly(p: Player, blocks: seq<Block>, events: seq<Event>, j: nat)
    ensures forall k :: 0 <= k < j && k < |blocks| ==> BlocksFrom(p, blocks, events, j).blocks[k] == blocks[k]
    decreases |blocks| - j
  {
    if j < |blocks| {
      var b := blocks[j];
      if b.destroyed || !Collides(p, b.box) {
        LaterBlocksOnly(p, blocks, events, j + 1);
      } else if IsHeadBump(p, b.box) {
        LaterBlocksOnly(ResolveCollision(p, b.box), blocks[j := b.(destroyed := true)],
                        events + [BlockDestroyed(b.box.x, b.box.y)], j + 1);
      } else {
        LaterBlocksOnly(ResolveCollision(p, b.box), blocks, events, j + 1);
      }
    }
  }

  /** Whatever breaks in the block phase was under attack from below by some player. */
  lemma {:induction false} SomebodyWasBelow(ps: seq<Player>, blocks: seq<Block>, events: seq<Event>, i: nat)
    ensures var after := HitBlocksFrom(ps, blocks, events, i).blocks;
      forall k :: NewlyBroken(blocks, after, k) ==> exists a :: i <= a < |ps| && FromBelow(ps[a], blocks[k].box)
    decreases |ps| - i
  {
    if i < |ps| {
      var hit := BlocksFrom(ps[i], blocks, events, 0);
      var qs := ps[i := hit.player];
      BreaksFromBelow(ps[i], blocks, events, 0);
      Progress.BlocksFromAdvances(ps[i], blocks, events, 0);
      SomebodyWasBelow(qs, hit.blocks, hit.events, i + 1);
      var after := HitBlocksFrom(ps, blocks, events, i).blocks;
      forall k | NewlyBroken(blocks, after, k) ensures exists a :: i <= a < |ps| && FromBelow(ps[a], blocks[k].box) {
        if hit.blocks[k].destroyed {
          assert NewlyBroken(blocks, hit.blocks, k);
        } else {
          assert NewlyBroken(hit.blocks, after, k);
          var a :| i + 1 <= a < |qs| && FromBelow(qs[a], hit.blocks[k].box);
          assert FromBelow(ps[a], blocks[k].box);
        }
      }
    }
  }
}
