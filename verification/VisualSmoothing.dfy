/** The part of application/gameplay/client.py that hides reconciliation corrections from the eye. */
module VisualSmoothing {
  import opened Prelude
  import opened Config
  import opened Entities

  /** How much of the outstanding error one frame absorbs. */
  function GlideStep(offset: real): (step: real)
    ensures offset >= 0.0 ==> 0.0 <= step <= offset * RECONCILE_GLIDE_RATE
    ensures offset <= 0.0 ==> offset * RECONCILE_GLIDE_RATE <= step <= 0.0
    ensures Abs(step) == Min(RECONCILE_MAX_GLIDE_PX, Abs(offset) * RECONCILE_GLIDE_RATE)
  {
    Max(-RECONCILE_MAX_GLIDE_PX, Min(RECONCILE_MAX_GLIDE_PX, offset * RECONCILE_GLIDE_RATE))
  }

  class LocalVisual {
    var offset: (real, real)

    constructor ()
      ensures offset == (0.0, 0.0)
    {
      offset := (0.0, 0.0);
    }

    /** The player to draw. `before` is where it stood before this frame's reconciliation. Drawn
        position plus offset is the reconciled position, and compared with where the player would
        have been drawn without the correction the picture moves by one glide step only. */
    method Smooth(player: Option<Player>, before: Option<(real, real)>) returns (drawn: Option<Player>)
      modifies this
      ensures player.None? || before.None? ==> drawn == player && offset == old(offset)
      ensures player.Some? && before.Some? ==>
                && drawn.Some? && drawn.value == player.value.(x := drawn.value.x, y := drawn.value.y)
                && drawn.value.x + offset.0 == player.value.x
                && drawn.value.y + offset.1 == player.value.y
                && drawn.value.x == before.value.0 - old(offset.0)
                     + GlideStep(old(offset.0) + player.value.x - before.value.0)
                && drawn.value.y == before.value.1 - old(offset.1)
                     + GlideStep(old(offset.1) + player.value.y - before.value.1)
    {
      if player.None? || before.None? { return player; }
      var offsetX := offset.0 + (player.value.x - before.value.0);
      var offsetY := offset.1 + (player.value.y - before.value.1);
      var glideX, glideY := GlideStep(offsetX), GlideStep(offsetY);
      offsetX, offsetY := offsetX - glideX, offsetY - glideY;
      offset := (offsetX, offsetY);
      drawn := Some(player.value.(x := player.value.x - offsetX, y := player.value.y - offsetY));
    }
  }

  /** The jolt seen on one axis: at most 8 px and 30% of the outstanding error, never past zero. */
  lemma JoltIsBounded(offset: real)
    ensures Abs(GlideStep(offset)) <= RECONCILE_MAX_GLIDE_PX
    ensures Abs(GlideStep(offset)) <= RECONCILE_GLIDE_RATE * Abs(offset)
    ensures Abs(offset - GlideStep(offset)) == Abs(offset) - Abs(GlideStep(offset))
    ensures (offset - GlideStep(offset)) * offset >= 0.0
  {
    if offset > 0.0 {
      assert (offset - GlideStep(offset)) >= 0.7 * offset;
    } else if offset < 0.0 {
      assert (offset - GlideStep(offset)) <= 0.7 * offset;
    }
  }

  /** The offset on one axis after n frames without corrections. */
  function Glided(offset: real, n: nat): real
    decreases n
  {
    if n == 0 then offset else Glided(offset - GlideStep(offset), n - 1)
  }

  /** The least amount one frame absorbs while the error is at least `bound`. */
  function Pace(bound: real): real { Min(RECONCILE_MAX_GLIDE_PX, RECONCILE_GLIDE_RATE * bound) }

  function Total(pace: real, n: nat): real { if n == 0 then 0.0 else Total(pace, n - 1) + pace }

  lemma {:induction false} TotalIsProduct(pace: real, n: nat)
    ensures Total(pace, n) == n as real * pace
  {
    if n > 0 {
      TotalIsProduct(pace, n - 1);
      OneMore((n - 1) as real, pace);
      assert n as real == (n - 1) as real + 1.0;
    }
  }

  lemma OneMore(a: real, b: real)
    ensures (a + 1.0) * b == a * b + b
  {
  }

  lemma {:induction false} GlidingShrinks(offset: real, n: nat, bound: real)
    requires bound > 0.0
    ensures Abs(Glided(offset, n)) <= Abs(offset)
    ensures Abs(Glided(offset, n)) < bound || Abs(Glided(offset, n)) <= Abs(offset) - Total(Pace(bound), n)
    decreases n
  {
    if n > 0 {
      JoltIsBounded(offset);
      GlidingShrinks(offset - GlideStep(offset), n - 1, bound);
    }
  }

  /** Without new corrections the error falls below any positive bound: after Abs(offset) / Pace(bound)
      frames it has, and it stays there. */
  lemma OffsetVanishes(offset: real, n: nat, bound: real)
    requires bound > 0.0 && n as real * Pace(bound) >= Abs(offset)
    ensures Abs(Glided(offset, n)) < bound
  {
    TotalIsProduct(Pace(bound), n);
    GlidingShrinks(offset, n, bound);
  }
}
