/** domain/shadow_copy.py: the smoothed picture of a remote player between two snapshots. */
module ShadowCopyModel {
  import opened Prelude
  import opened Config
  import opened Entities

  const SHORTEST_WINDOW: real := 0.000001

  function Lerp(start: real, end: real, alpha: real): real { start + (end - start) * alpha }

  datatype Shadow = Shadow(lastConfirmed: Option<Player>, target: Option<Player>, lastNumber: int,
                           lastTime: Option<real>, window: real)

  const NOTHING_SEEN := Shadow(None, None, -1, None, SNAPSHOT_TIMEOUT)

  predicate Sound(s: Shadow) {
    && SHORTEST_WINDOW <= s.window <= SNAPSHOT_TIMEOUT
    && (s.target.Some? <==> s.lastConfirmed.Some?) && (s.target.Some? <==> s.lastTime.Some?)
    && (s.target.None? ==> s.lastNumber == -1)
  }

  function Updated(s: Shadow, snapshot: Player, number: int, receivedAt: real): Shadow {
    if number <= s.lastNumber then s
    else if s.target.None? then
      Shadow(Some(snapshot), Some(snapshot), number, Some(receivedAt), SNAPSHOT_TIMEOUT)
    else
      var window := if s.lastTime.None? then SNAPSHOT_TIMEOUT
                    else Max(SHORTEST_WINDOW, Min(SNAPSHOT_TIMEOUT, receivedAt - s.lastTime.value));
      Shadow(s.target, Some(snapshot), number, Some(receivedAt), window)
  }

  function Interpolated(s: Shadow, alpha: real): Player
    requires s.target.Some?
  {
    var end := s.target.value;
    var start := if s.lastConfirmed.Some? then s.lastConfirmed.value else end;
    var a := Clamp(alpha, 0.0, 1.0);
    end.(x := Lerp(start.x, end.x, a), y := Lerp(start.y, end.y, a),
         vx := Lerp(start.vx, end.vx, a), vy := Lerp(start.vy, end.vy, a),
         prevX := Lerp(start.prevX, end.prevX, a), prevY := Lerp(start.prevY, end.prevY, a))
  }

  function Extrapolated(target: Player, beyond: real): Player {
    var e := Min(beyond, MAX_EXTRAPOLATION_TIME);
    var stopped := beyond >= MAX_EXTRAPOLATION_TIME;
    target.(x := target.x + target.vx * e, y := target.y + target.vy * e,
            prevX := target.prevX + target.vx * e, prevY := target.prevY + target.vy * e,
            vx := if stopped then 0.0 else target.vx, vy := if stopped then 0.0 else target.vy)
  }

  function Elapsed(s: Shadow, now: real): real
    requires s.lastTime.Some?
  {
    Max(0.0, now - s.lastTime.value)
  }

  function Visual(s: Shadow, now: real): Option<Player>
    requires s.window != 0.0
  {
    if s.target.None? then None
    else if s.lastTime.None? then s.target
    else
      var elapsed := Elapsed(s, now);
      if elapsed <= SNAPSHOT_TIMEOUT then Some(Interpolated(s, elapsed / s.window))
      else Some(Extrapolated(s.target.value, elapsed - SNAPSHOT_TIMEOUT))
  }

  class ShadowCopy {
    var lastConfirmed: Option<Player>
    var target: Option<Player>
    var lastSequenceNumber: int
    var lastSnapshotTime: Option<real>
    var interpolationWindow: real

    ghost function State(): Shadow
      reads this
    {
      Shadow(lastConfirmed, target, lastSequenceNumber, lastSnapshotTime, interpolationWindow)
    }

    constructor ()
      ensures State() == NOTHING_SEEN && Sound(State())
    {
      lastConfirmed, target, lastSequenceNumber := None, None, -1;
      lastSnapshotTime, interpolationWindow := None, SNAPSHOT_TIMEOUT;
    }

    /** Stores the newest snapshot; an older or repeated one changes nothing. */
    method Update(snapshot: Player, number: int, receivedAt: real) returns (accepted: bool)
      requires Sound(State())
      modifies this
      ensures State() == Updated(old(State()), snapshot, number, receivedAt) && Sound(State())
      ensures accepted <==> number > old(lastSequenceNumber)
      ensures lastSequenceNumber == if accepted then number else old(lastSequenceNumber)
    {
      if number <= lastSequenceNumber { return false; }
      var previousTime := lastSnapshotTime;
      if target.None? {
        lastConfirmed, target := Some(snapshot), Some(snapshot);
        interpolationWindow := SNAPSHOT_TIMEOUT;
      } else {
        lastConfirmed, target := target, Some(snapshot);
        interpolationWindow := if previousTime.None? then SNAPSHOT_TIMEOUT
                               else Max(SHORTEST_WINDOW, Min(SNAPSHOT_TIMEOUT, receivedAt - previousTime.value));
      }
      lastSequenceNumber, lastSnapshotTime := number, Some(receivedAt);
      return true;
    }

    method GetVisualState(now: real) returns (drawn: Option<Player>)
      requires Sound(State())
      ensures drawn == Visual(State(), now)
    {
      if target.None? { return None; }
      var elapsed := Max(0.0, now - lastSnapshotTime.value);
      if elapsed <= SNAPSHOT_TIMEOUT {
        drawn := Some(Interpolated(Shadow(lastConfirmed, target, lastSequenceNumber, lastSnapshotTime,
            interpolationWindow),
                                   elapsed / interpolationWindow));
      } else {
        drawn := Some(Extrapolated(target.value, elapsed - SNAPSHOT_TIMEOUT));
      }
    }
  }

  // ---- Any stream of snapshots ------------------------------------------------------------

  datatype Arrival = Arrival(snapshot: Player, number: int, at: real)

  function Streamed(arrivals: seq<Arrival>): (s: Shadow)
    ensures Sound(s)
  {
    if arrivals == [] then NOTHING_SEEN
    else
      var last := arrivals[|arrivals| - 1];
      Updated(Streamed(arrivals[..|arrivals| - 1]), last.snapshot, last.number, last.at)
  }

  /** After any stream the copy shows the first arrival with the highest number, if there is one
      above the initial -1. */
  lemma {:induction false} NewestArrivalWins(arrivals: seq<Arrival>)
    ensures var s := Streamed(arrivals);
            && (forall i :: 0 <= i < |arrivals| ==> arrivals[i].number <= s.lastNumber)
            && (s.target.None? ==> s.lastNumber == -1)
            && (s.target.Some? ==>
                  exists k :: 0 <= k < |arrivals| && s.target == Some(arrivals[k].snapshot) &&
                      s.lastNumber == arrivals[k].number > -1
                              && s.lastTime == Some(arrivals[k].at)
                              && forall i :: 0 <= i < k ==> arrivals[i].number < arrivals[k].number)
  {
    if arrivals != [] {
      var before := arrivals[..|arrivals| - 1];
      NewestArrivalWins(before);
      var s, t := Streamed(before), Streamed(arrivals);
      var n := |arrivals| - 1;
      if arrivals[n].number > s.lastNumber {
        forall i | 0 <= i < n ensures arrivals[i].number < arrivals[n].number {
          assert arrivals[i] == before[i];
        }
        assert t.target == Some(arrivals[n].snapshot);
      } else {
        forall i | 0 <= i < |arrivals| ensures arrivals[i].number <= t.lastNumber {
          if i < n { assert arrivals[i] == before[i]; }
        }
        if t.target.Some? {
          var k :| 0 <= k < n && s.target == Some(before[k].snapshot) && s.lastNumber == before[k].number > -1
                   && s.lastTime == Some(before[k].at) && forall i :: 0 <= i < k ==>
                        before[i].number < before[k].number;
          assert before[k] == arrivals[k];
          assert forall i :: 0 <= i < k ==> before[i] == arrivals[i];
        }
      }
    }
  }

  /** The time from one snapshot to the next, the timeout at most. */
  function Gap(lastTime: real, at: real): real { Max(SHORTEST_WINDOW, Min(SNAPSHOT_TIMEOUT, at - lastTime)) }

  /** A newer snapshot starts a segment: drawn at first where the last target was, then on the straight
      line, and at its own position once as much time has passed as between the two snapshots, or the
      timeout. The first one is drawn where it is. */
  lemma SegmentLeadsFromTheLastTarget(arrivals: seq<Arrival>, a: Arrival, t: real)
    requires a.number > Streamed(arrivals).lastNumber && 0.0 <= t <= SNAPSHOT_TIMEOUT
    ensures var s, after := Streamed(arrivals), Streamed(arrivals + [a]);
      && Visual(after, a.at + t).Some?
      && var v, w := Visual(after, a.at + t).value, if s.lastTime.Some? then Gap(s.lastTime.value, a.at)
           else SNAPSHOT_TIMEOUT;
         if s.target.None? then v.x == a.snapshot.x && v.y == a.snapshot.y
         else
           && (t <= w ==>
                && OnTheLine(s.target.value.x, a.snapshot.x, v.x, t, w)
                && OnTheLine(s.target.value.y, a.snapshot.y, v.y, t, w))
           && (t >= w ==> v.x == a.snapshot.x && v.y == a.snapshot.y)
  {
    var s, more := Streamed(arrivals), arrivals + [a];
    assert more[..|more| - 1] == arrivals;
    var after := Streamed(more);
    assert after == Updated(s, a.snapshot, a.number, a.at);
    VisualByCoordinates(after, a.at + t);
    hide Visual;
    if s.target.Some? {
      CoordinateOnLine(s.target.value.x, a.snapshot.x, a.snapshot.vx, after.window, t);
      CoordinateOnLine(s.target.value.y, a.snapshot.y, a.snapshot.vy, after.window, t);
    } else {
      CoordinateStands(a.snapshot.x, a.snapshot.vx, after.window, t);
      CoordinateStands(a.snapshot.y, a.snapshot.vy, after.window, t);
    }
  }

  /** After t of w seconds the same part of the way is covered. */
  predicate OnTheLine(start: real, end: real, x: real, t: real, w: real) { (x - start) * w == (end - start) * t }

  lemma CoordinateOnLine(start: real, end: real, speed: real, window: real, t: real)
    requires 0.0 < window && 0.0 <= t <= SNAPSHOT_TIMEOUT
    ensures t <= window ==> OnTheLine(start, end, Coordinate(start, end, speed, window, t), t, window)
    ensures t >= window ==> Coordinate(start, end, speed, window, t) == end
  {
    if t <= window {
      var alpha := t / window;
      assert 0.0 <= alpha <= 1.0;
      assert Clamp(alpha, 0.0, 1.0) == alpha;
      Covered(end - start, alpha, window, t);
    }
    if t >= window { assert t / window >= 1.0; }
  }

  lemma Covered(way: real, alpha: real, window: real, t: real)
    requires alpha * window == t
    ensures (way * alpha) * window == way * t
  {
  }

  lemma CoordinateStands(end: real, speed: real, window: real, t: real)
    requires 0.0 < window && 0.0 <= t <= SNAPSHOT_TIMEOUT
    ensures Coordinate(end, end, speed, window, t) == end
  {
  }

  // ---- Continuity -------------------------------------------------------------------------

  /** One coordinate of the drawn position, `t` seconds after the last snapshot. */
  function Coordinate(start: real, end: real, speed: real, window: real, t: real): real
    requires window != 0.0
  {
    if t <= SNAPSHOT_TIMEOUT then Lerp(start, end, Clamp(t / window, 0.0, 1.0))
    else end + speed * Min(t - SNAPSHOT_TIMEOUT, MAX_EXTRAPOLATION_TIME)
  }

  lemma VisualByCoordinates(s: Shadow, now: real)
    requires Sound(s) && s.target.Some?
    ensures var v, start, end := Visual(s, now).value, s.lastConfirmed.value, s.target.value;
            v.x == Coordinate(start.x, end.x, end.vx, s.window, Elapsed(s, now))
            && v.y == Coordinate(start.y, end.y, end.vy, s.window, Elapsed(s, now))
  {
  }

  lemma ClampedRatioIsSteady(window: real, t: real, u: real)
    requires window > 0.0 && 0.0 <= t <= u
    ensures var a, b := Clamp(t / window, 0.0, 1.0), Clamp(u / window, 0.0, 1.0);
            0.0 <= b - a <= (u - t) / window
  {
    assert u / window - t / window == (u - t) / window;
    assert (u - t) / window >= 0.0;
    assert t / window >= 0.0;
  }

  // Small facts about products, kept apart from the functions they are applied to.

  lemma Monotone(a: real, b: real, k: real)
    requires a <= b && k >= 0.0
    ensures a * k <= b * k
  {
  }

  lemma ScaledDistance(d: real, k: real, limit: real)
    requires 0.0 <= k <= limit
    ensures Abs(d * k) <= Abs(d) * limit
  {
    assert Abs(d * k) == Abs(d) * k;
    Monotone(k, limit, Abs(d));
  }

  lemma Splits(k: real, a: real, b: real, c: real)
    ensures k * (c - a) == k * (c - b) + k * (b - a)
  {
  }

  lemma LerpGap(start: real, end: real, a: real, b: real)
    ensures Lerp(start, end, b) - Lerp(start, end, a) == (end - start) * (b - a)
  {
  }

  /** `top` is a speed neither the interpolation nor the extrapolation of a coordinate exceeds. */
  predicate Limits(top: real, start: real, end: real, speed: real, window: real) {
    Abs(end - start) <= top * window && Abs(speed) <= top
  }

  lemma WindowedRatio(window: real, a: real, b: real, t: real, u: real)
    requires window > 0.0 && b - a <= (u - t) / window
    ensures window * (b - a) <= u - t
  {
    Monotone(b - a, (u - t) / window, window);
  }

  lemma Regroups(top: real, window: real, d: real, gap: real)
    requires top >= 0.0 && window * d <= gap
    ensures (top * window) * d <= top * gap
  {
    Monotone(window * d, gap, top);
    assert (top * window) * d == top * (window * d);
  }

  lemma LerpIsSteady(start: real, end: real, window: real, top: real, a: real, b: real, gap: real)
    requires a <= b && window * (b - a) <= gap && top >= 0.0 && Abs(end - start) <= top * window
    ensures Abs(Lerp(start, end, b) - Lerp(start, end, a)) <= top * gap
  {
    LerpGap(start, end, a, b);
    ScaledDistance(end - start, b - a, b - a);
    Monotone(Abs(end - start), top * window, b - a);
    Regroups(top, window, b - a, gap);
  }

  lemma InterpolationIsSteady(start: real, end: real, window: real, top: real, t: real, u: real)
    requires window > 0.0 && 0.0 <= t <= u && top >= 0.0 && Abs(end - start) <= top * window
    ensures Abs(Lerp(start, end, Clamp(u / window, 0.0, 1.0)) - Lerp(start, end, Clamp(t / window, 0.0, 1.0)))
         <= top * (u - t)
  {
    var a, b := Clamp(t / window, 0.0, 1.0), Clamp(u / window, 0.0, 1.0);
    assert a <= b && window * (b - a) <= u - t by {
      ClampedRatioIsSteady(window, t, u);
      WindowedRatio(window, a, b, t, u);
    }
    LerpIsSteady(start, end, window, top, a, b, u - t);
  }

  /** At the seam the interpolation has reached the target. */
  lemma SeamIsTheTarget(start: real, end: real, speed: real, window: real)
    requires SHORTEST_WINDOW <= window <= SNAPSHOT_TIMEOUT
    ensures Coordinate(start, end, speed, window, SNAPSHOT_TIMEOUT) == end
  {
    assert SNAPSHOT_TIMEOUT / window >= 1.0;
  }

  /** x and y are at most `top` times `gap` apart. */
  predicate Near(x: real, y: real, top: real, gap: real) { Abs(y - x) <= top * gap }

  /** How far past the target the picture has been carried. */
  function Carried(end: real, speed: real, beyond: real): real { end + speed * Min(beyond, MAX_EXTRAPOLATION_TIME) }

  lemma ExtrapolationIsSteady(end: real, speed: real, top: real, a: real, b: real)
    requires 0.0 <= a <= b && Abs(speed) <= top
    ensures Near(Carried(end, speed, a), Carried(end, speed, b), top, b - a)
  {
    var p, q := Min(a, MAX_EXTRAPOLATION_TIME), Min(b, MAX_EXTRAPOLATION_TIME);
    Splits(speed, 0.0, p, q);
    ScaledDistance(speed, q - p, b - a);
    Monotone(Abs(speed), top, b - a);
  }

  lemma FromTheSeam(start: real, end: real, speed: real, window: real, t: real)
    requires SHORTEST_WINDOW <= window <= SNAPSHOT_TIMEOUT <= t
    ensures Coordinate(start, end, speed, window, t) == Carried(end, speed, t - SNAPSHOT_TIMEOUT)
  {
    SeamIsTheTarget(start, end, speed, window);
  }

  lemma NearAcross(x: real, y: real, z: real, top: real, g: real, h: real)
    requires Near(x, y, top, g) && Near(y, z, top, h)
    ensures Near(x, z, top, g + h)
  {
  }

  lemma SteadyBeforeTheSeam(start: real, end: real, speed: real, window: real, top: real, t: real, u: real)
    requires SHORTEST_WINDOW <= window && 0.0 <= t <= u <= SNAPSHOT_TIMEOUT
    requires Limits(top, start, end, speed, window)
    ensures Near(Coordinate(start, end, speed, window, t), Coordinate(start, end, speed, window, u), top, u - t)
  {
    InterpolationIsSteady(start, end, window, top, t, u);
  }

  lemma SteadyAfterTheSeam(start: real, end: real, speed: real, window: real, top: real, t: real, u: real)
    requires SHORTEST_WINDOW <= window <= SNAPSHOT_TIMEOUT <= t <= u
    requires Limits(top, start, end, speed, window)
    ensures Near(Coordinate(start, end, speed, window, t), Coordinate(start, end, speed, window, u), top, u - t)
  {
    FromTheSeam(start, end, speed, window, t);
    FromTheSeam(start, end, speed, window, u);
    var a, b := t - SNAPSHOT_TIMEOUT, u - SNAPSHOT_TIMEOUT;
    assert b - a == u - t;
    ExtrapolationIsSteady(end, speed, top, a, b);
  }

  lemma SteadyAcrossTheSeam(start: real, end: real, speed: real, window: real, top: real, t: real, u: real)
    requires SHORTEST_WINDOW <= window <= SNAPSHOT_TIMEOUT && 0.0 <= t <= SNAPSHOT_TIMEOUT <= u
    requires Limits(top, start, end, speed, window)
    ensures Near(Coordinate(start, end, speed, window, t), Coordinate(start, end, speed, window, u), top, u - t)
  {
    SteadyBeforeTheSeam(start, end, speed, window, top, t, SNAPSHOT_TIMEOUT);
    SteadyAfterTheSeam(start, end, speed, window, top, SNAPSHOT_TIMEOUT, u);
    var g, h := SNAPSHOT_TIMEOUT - t, u - SNAPSHOT_TIMEOUT;
    NearAcross(Coordinate(start, end, speed, window, t), Coordinate(start, end, speed, window, SNAPSHOT_TIMEOUT),
               Coordinate(start, end, speed, window, u), top, g, h);
    assert g + h == u - t;
  }

  lemma CoordinateIsSteady(start: real, end: real, speed: real, window: real, top: real, t: real, u: real)
    requires SHORTEST_WINDOW <= window <= SNAPSHOT_TIMEOUT && 0.0 <= t <= u
    requires Limits(top, start, end, speed, window)
    ensures Near(Coordinate(start, end, speed, window, t), Coordinate(start, end, speed, window, u), top, u - t)
  {
    if u <= SNAPSHOT_TIMEOUT {
      SteadyBeforeTheSeam(start, end, speed, window, top, t, u);
    } else if t >= SNAPSHOT_TIMEOUT {
      SteadyAfterTheSeam(start, end, speed, window, top, t, u);
    } else {
      SteadyAcrossTheSeam(start, end, speed, window, top, t, u);
    }
  }

  /** Between two snapshots the drawn position moves no faster than any speed that covers both the
      interpolated segment and the target's own velocity: it never jumps, not even where
      interpolation hands over to extrapolation. */
  lemma DrawnPositionIsContinuous(s: Shadow, top: real, t: real, u: real)
    requires Sound(s) && s.target.Some? && s.lastTime.value <= t <= u
    requires Limits(top, s.lastConfirmed.value.x, s.target.value.x, s.target.value.vx, s.window)
    requires Limits(top, s.lastConfirmed.value.y, s.target.value.y, s.target.value.vy, s.window)
    ensures Near(Visual(s, t).value.x, Visual(s, u).value.x, top, u - t)
    ensures Near(Visual(s, t).value.y, Visual(s, u).value.y, top, u - t)
  {
    var before, after := Elapsed(s, t), Elapsed(s, u);
    assert after - before == u - t;
    var start, end := s.lastConfirmed.value, s.target.value;
    assert Near(Visual(s, t).value.x, Visual(s, u).value.x, top, after - before) by {
      VisualByCoordinates(s, t);
      VisualByCoordinates(s, u);
      CoordinateIsSteady(start.x, end.x, end.vx, s.window, top, before, after);
    }
    assert Near(Visual(s, t).value.y, Visual(s, u).value.y, top, after - before) by {
      VisualByCoordinates(s, t);
      VisualByCoordinates(s, u);
      CoordinateIsSteady(start.y, end.y, end.vy, s.window, top, before, after);
    }
  }

  /** The least such speed of one coordinate. */
  function SpeedLimit(start: real, end: real, speed: real, window: real): real
    requires window > 0.0
  {
    Max(Abs(end - start) / window, Abs(speed))
  }

  lemma FasterLimits(top: real, start: real, end: real, speed: real, window: real)
    requires window > 0.0 && top >= SpeedLimit(start, end, speed, window)
    ensures Limits(top, start, end, speed, window)
  {
    Monotone(Abs(end - start) / window, top, window);
  }

  /** Between two snapshots the drawn position never jumps: it moves no faster than the larger of the
      speed of the interpolated segment and the target's own, over both coordinates. */
  lemma DrawnPositionNeverJumps(s: Shadow, t: real, u: real)
    requires Sound(s) && s.target.Some? && s.lastTime.value <= t <= u
    ensures var start, end := s.lastConfirmed.value, s.target.value;
      var top := Max(SpeedLimit(start.x, end.x, end.vx, s.window), SpeedLimit(start.y, end.y, end.vy, s.window));
      && Near(Visual(s, t).value.x, Visual(s, u).value.x, top, u - t)
      && Near(Visual(s, t).value.y, Visual(s, u).value.y, top, u - t)
  {
    var start, end := s.lastConfirmed.value, s.target.value;
    var top := Max(SpeedLimit(start.x, end.x, end.vx, s.window), SpeedLimit(start.y, end.y, end.vy, s.window));
    FasterLimits(top, start.x, end.x, end.vx, s.window);
    FasterLimits(top, start.y, end.y, end.vy, s.window);
    DrawnPositionIsContinuous(s, top, t, u);
  }

  predicate Between(a: real, v: real, b: real) { Min(a, b) <= v <= Max(a, b) }

  lemma Fraction(d: real, alpha: real)
    requires d >= 0.0 && 0.0 <= alpha <= 1.0
    ensures 0.0 <= d * alpha <= d
  {
    Monotone(alpha, 1.0, d);
  }

  lemma LerpUp(start: real, end: real, alpha: real)
    requires start <= end && 0.0 <= alpha <= 1.0
    ensures start <= Lerp(start, end, alpha) <= end
  {
    var d := end - start;
    Fraction(d, alpha);
    assert Lerp(start, end, alpha) == start + d * alpha;
  }

  lemma LerpDown(start: real, end: real, alpha: real)
    requires end <= start && 0.0 <= alpha <= 1.0
    ensures end <= Lerp(start, end, alpha) <= start
  {
    var d := start - end;
    Fraction(d, alpha);
    Negates(start, end, alpha);
    assert Lerp(start, end, alpha) == start - d * alpha;
  }

  lemma Negates(start: real, end: real, alpha: real)
    ensures (end - start) * alpha == -((start - end) * alpha)
  {
  }

  lemma LerpStaysBetween(start: real, end: real, alpha: real)
    requires 0.0 <= alpha <= 1.0
    ensures Between(start, Lerp(start, end, alpha), end)
  {
    if start <= end { LerpUp(start, end, alpha); } else { LerpDown(start, end, alpha); }
  }

  /** Until the timeout the picture is on the way from the last confirmed position to the target;
      afterwards it is within the target's speed times the longest extrapolation of it; and once that
      is used up it stands still. */
  lemma DrawnPositionIsBounded(s: Shadow, now: real)
    requires Sound(s) && s.target.Some?
    ensures var v, start, end := Visual(s, now).value, s.lastConfirmed.value, s.target.value;
            && (Elapsed(s, now) <= SNAPSHOT_TIMEOUT ==> Between(start.x, v.x, end.x) && Between(start.y, v.y, end.y))
            && (Elapsed(s, now) > SNAPSHOT_TIMEOUT ==>
                  && Abs(v.x - end.x) <= Abs(end.vx) * MAX_EXTRAPOLATION_TIME
                  && Abs(v.y - end.y) <= Abs(end.vy) * MAX_EXTRAPOLATION_TIME)
  {
    var start, end, elapsed := s.lastConfirmed.value, s.target.value, Elapsed(s, now);
    if elapsed <= SNAPSHOT_TIMEOUT {
      var a := Clamp(elapsed / s.window, 0.0, 1.0);
      LerpStaysBetween(start.x, end.x, a);
      LerpStaysBetween(start.y, end.y, a);
    } else {
      var e := Min(elapsed - SNAPSHOT_TIMEOUT, MAX_EXTRAPOLATION_TIME);
      ScaledDistance(end.vx, e, MAX_EXTRAPOLATION_TIME);
      ScaledDistance(end.vy, e, MAX_EXTRAPOLATION_TIME);
    }
  }

  lemma FrozenPictureStands(s: Shadow, t: real, u: real)
    requires Sound(s) && s.target.Some?
    requires Elapsed(s, t) >= SNAPSHOT_TIMEOUT + MAX_EXTRAPOLATION_TIME && t <= u
    ensures Visual(s, t) == Visual(s, u)
    ensures Visual(s, t).value.vx == 0.0 && Visual(s, t).value.vy == 0.0
  {
  }

  /** After the timeout the picture goes on with the target's own velocity until the longest
      extrapolation is used up. */
  lemma PictureGoesOn(s: Shadow, t: real, u: real)
    requires Sound(s) && s.target.Some?
    requires s.lastTime.value + SNAPSHOT_TIMEOUT <= t <= u <= s.lastTime.value + SNAPSHOT_TIMEOUT
        + MAX_EXTRAPOLATION_TIME
    ensures var v, w, target := Visual(s, t).value, Visual(s, u).value, s.target.value;
      && w.x - v.x == target.vx * (u - t) && w.y - v.y == target.vy * (u - t)
      && (t == s.lastTime.value + SNAPSHOT_TIMEOUT ==> v.x == target.x && v.y == target.y)
  {
    VisualByCoordinates(s, t);
    VisualByCoordinates(s, u);
    var target, start := s.target.value, s.lastConfirmed.value;
    var a, b := Elapsed(s, t), Elapsed(s, u);
    FromTheSeam(start.x, target.x, target.vx, s.window, a);
    FromTheSeam(start.x, target.x, target.vx, s.window, b);
    FromTheSeam(start.y, target.y, target.vy, s.window, a);
    FromTheSeam(start.y, target.y, target.vy, s.window, b);
    hide Visual, Coordinate;
    CarriedApart(target.x, target.vx, a - SNAPSHOT_TIMEOUT, b - SNAPSHOT_TIMEOUT);
    CarriedApart(target.y, target.vy, a - SNAPSHOT_TIMEOUT, b - SNAPSHOT_TIMEOUT);
  }

  lemma CarriedApart(end: real, speed: real, a: real, b: real)
    requires 0.0 <= a <= b <= MAX_EXTRAPOLATION_TIME
    ensures Carried(end, speed, b) - Carried(end, speed, a) == speed * (b - a)
    ensures Carried(end, speed, 0.0) == end
  {
  }
}
