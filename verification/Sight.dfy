/** application/agent_integration.py: whether an enemy has a clear line to a target. */
module Sight {
  import opened Prelude
  import opened Entities

  datatype Point = Point(x: real, y: real)

  /** One coordinate of the segment start + t * (end - start) against one pair of sides. */
  datatype Axis = Axis(origin: real, delta: real, minimum: real, maximum: real)

  datatype Span = Span(entry: real, exit: real)

  /** The part of [entry, exit] in which the coordinate stays within its two sides. */
  function ClipAxis(a: Axis, s: Span): Option<Span> {
    if a.delta == 0.0 then
      if a.origin < a.minimum || a.origin > a.maximum then None else Some(s)
    else
      var p, q := (a.minimum - a.origin) / a.delta, (a.maximum - a.origin) / a.delta;
      var first, second := if p > q then q else p, if p > q then p else q;
      var clipped := Span(Max(s.entry, first), Min(s.exit, second));
      if clipped.entry > clipped.exit then None else Some(clipped)
  }

  function ClipFrom(axes: seq<Axis>, i: nat, s: Span): Option<Span>
    decreases |axes| - i
  {
    if i >= |axes| then Some(s)
    else
      var c := ClipAxis(axes[i], s);
      if c.None? then None else ClipFrom(axes, i + 1, c.value)
  }

  function Axes(start: Point, end: Point, b: Box): seq<Axis> {
    [Axis(start.x, end.x - start.x, b.x, b.x + b.width), Axis(start.y, end.y - start.y, b.y, b.y + b.height)]
  }

  const WHOLE := Span(0.0, 1.0)

  function Intersection(start: Point, end: Point, b: Box): Option<Span> { ClipFrom(Axes(start, end, b), 0, WHOLE) }

  /** The segment parameters inside an axis-aligned rectangle, or nothing. */
  method SegmentRectangleIntersection(start: Point, end: Point, b: Box) returns (r: Option<Span>)
    ensures r == Intersection(start, end, b)
  {
    var axes := Axes(start, end, b);
    var entry, exit := 0.0, 1.0;
    var i := 0;
    while i < |axes|
      invariant 0 <= i <= |axes|
      invariant ClipFrom(axes, i, Span(entry, exit)) == Intersection(start, end, b)
    {
      var a := axes[i];
      i := i + 1;
      if a.delta == 0.0 {
        if a.origin < a.minimum || a.origin > a.maximum { return None; }
        continue;
      }
      var first, second := (a.minimum - a.origin) / a.delta, (a.maximum - a.origin) / a.delta;
      if first > second {
        first, second := second, first;
      }
      entry, exit := Max(entry, first), Min(exit, second);
      if entry > exit { return None; }
    }
    return Some(Span(entry, exit));
  }

  // ---- What the clip means ----------------------------------------------------------------

  predicate Within(a: Axis, t: real) { a.minimum <= a.origin + a.delta * t <= a.maximum }

  predicate InSpan(t: real, s: Span) { s.entry <= t <= s.exit }

  predicate InOption(t: real, s: Option<Span>) { s.Some? && InSpan(t, s.value) }

  lemma QuotientBound(t: real, n: real, d: real)
    requires d != 0.0
    ensures d > 0.0 ==> (t >= n / d <==> d * t >= n) && (t <= n / d <==> d * t <= n)
    ensures d < 0.0 ==> (t >= n / d <==> d * t <= n) && (t <= n / d <==> d * t >= n)
  {
    var q := n / d;
    assert d * q == n;
    if d > 0.0 {
      if t >= q { assert d * (t - q) >= 0.0; } else { assert d * (q - t) > 0.0; }
      if t <= q { assert d * (q - t) >= 0.0; } else { assert d * (t - q) > 0.0; }
    } else {
      if t >= q { assert (-d) * (t - q) >= 0.0; } else { assert (-d) * (q - t) > 0.0; }
      if t <= q { assert (-d) * (q - t) >= 0.0; } else { assert (-d) * (t - q) > 0.0; }
    }
  }

  /** Between the two quotients, in whichever order they come. */
  lemma QuotientsBracket(a: Axis, t: real)
    requires a.minimum <= a.maximum && a.delta != 0.0
    ensures var p, q := (a.minimum - a.origin) / a.delta, (a.maximum - a.origin) / a.delta;
            Within(a, t) <==> (if p > q then q else p) <= t <= (if p > q then p else q)
  {
    var n, m, d := a.minimum - a.origin, a.maximum - a.origin, a.delta;
    QuotientBound(t, n, d);
    QuotientBound(t, m, d);
    assert d > 0.0 ==> n / d <= m / d by { QuotientBound(m / d, n, d); }
    assert d < 0.0 ==> m / d <= n / d by { QuotientBound(n / d, m, d); }
  }

  lemma AxisClippedExactly(a: Axis, s: Span, t: real)
    requires a.minimum <= a.maximum
    ensures InOption(t, ClipAxis(a, s)) <==> InSpan(t, s) && Within(a, t)
  {
    if a.delta == 0.0 {
      assert a.delta * t == 0.0;
    } else {
      QuotientsBracket(a, t);
    }
  }

  lemma TwoAxes(start: Point, end: Point, b: Box)
    ensures var axes := Axes(start, end, b);
            var first := ClipAxis(axes[0], WHOLE);
            Intersection(start, end, b) == if first.None? then None else ClipAxis(axes[1], first.value)
  {
    var axes := Axes(start, end, b);
    var first := ClipAxis(axes[0], WHOLE);
    if first.Some? {
      assert ClipFrom(axes, 0, WHOLE) == ClipFrom(axes, 1, first.value);
      var second := ClipAxis(axes[1], first.value);
      if second.Some? { assert ClipFrom(axes, 1, first.value) == ClipFrom(axes, 2, second.value) == second; }
    }
  }

  /** The point of the segment at parameter t lies in the closed rectangle. */
  predicate Inside(start: Point, end: Point, b: Box, t: real) {
    && b.x <= start.x + (end.x - start.x) * t <= b.x + b.width
    && b.y <= start.y + (end.y - start.y) * t <= b.y + b.height
  }

  /** For a rectangle of non-negative size the clip describes exactly the parameters in [0, 1] whose
      point lies in it. */
  lemma ClipIsExact(start: Point, end: Point, b: Box, t: real)
    requires b.width >= 0.0 && b.height >= 0.0
    ensures InOption(t, Intersection(start, end, b)) <==> 0.0 <= t <= 1.0 && Inside(start, end, b, t)
  {
    var axes := Axes(start, end, b);
    var first := ClipAxis(axes[0], WHOLE);
    assert Inside(start, end, b, t) <==> Within(axes[0], t) && Within(axes[1], t);
    assert InOption(t, first) <==> InSpan(t, WHOLE) && Within(axes[0], t) by { AxisClippedExactly(axes[0], WHOLE, t); }
    if first.Some? {
      assert InOption(t, ClipAxis(axes[1], first.value)) <==> InSpan(t, first.value) && Within(axes[1], t) by {
        AxisClippedExactly(axes[1], first.value, t);
      }
    }
    TwoAxes(start, end, b);
  }

  /** A span that is returned is not empty and lies in [0, 1]; so nothing is returned exactly when
      no point of the segment is in the rectangle. */
  lemma ClipIsNonEmpty(start: Point, end: Point, b: Box)
    ensures var r := Intersection(start, end, b); r.Some? ==> 0.0 <= r.value.entry <= r.value.exit <= 1.0
  {
    var axes := Axes(start, end, b);
    TwoAxes(start, end, b);
    ClipNarrows(axes[0], WHOLE);
    var first := ClipAxis(axes[0], WHOLE);
    if first.Some? { ClipNarrows(axes[1], first.value); }
  }

  lemma ClipNarrows(a: Axis, s: Span)
    requires s.entry <= s.exit
    ensures var r := ClipAxis(a, s); r.Some? ==> s.entry <= r.value.entry <= r.value.exit <= s.exit
  {
  }

  lemma NothingExactlyOutside(start: Point, end: Point, b: Box)
    requires b.width >= 0.0 && b.height >= 0.0
    ensures Intersection(start, end, b).None? <==> forall t :: 0.0 <= t <= 1.0 ==> !Inside(start, end, b, t)
  {
    var r := Intersection(start, end, b);
    ClipIsNonEmpty(start, end, b);
    forall t ensures InOption(t, r) <==> 0.0 <= t <= 1.0 && Inside(start, end, b, t) {
      ClipIsExact(start, end, b, t);
    }
    if r.Some? { assert InOption(r.value.entry, r); }
  }

  // ---- Line of sight ----------------------------------------------------------------------

  const MARGIN: real := 0.000000001

  predicate Blocks(span: Option<Span>) { span.Some? && span.value.entry < 1.0 - MARGIN && span.value.exit > MARGIN }

  predicate ClearFrom(origin: Point, target: Point, obstacles: seq<Box>, ignored: Option<nat>, i: nat)
    decreases |obstacles| - i
  {
    if i >= |obstacles| then true
    else if ignored != Some(i) && Blocks(Intersection(origin, target, obstacles[i])) then false
    else ClearFrom(origin, target, obstacles, ignored, i + 1)
  }

  method HasClearLine(origin: Point, target: Point, obstacles: seq<Box>, ignored: Option<nat>) returns (clear: bool)
    ensures clear == ClearFrom(origin, target, obstacles, ignored, 0)
  {
    var i := 0;
    while i < |obstacles|
      invariant 0 <= i <= |obstacles|
      invariant ClearFrom(origin, target, obstacles, ignored, i) == ClearFrom(origin, target, obstacles, ignored, 0)
    {
      if ignored != Some(i) {
        var span := SegmentRectangleIntersection(origin, target, obstacles[i]);
        if span.Some? && span.value.entry < 1.0 - MARGIN && span.value.exit > MARGIN { return false; }
      }
      i := i + 1;
    }
    return true;
  }

  lemma {:induction false} ClearExactly(origin: Point, target: Point, obstacles: seq<Box>, ignored: Option<nat>, i: nat)
    ensures ClearFrom(origin, target, obstacles, ignored, i)
       <==> forall k :: i <= k < |obstacles| && ignored != Some(k) ==>
           !Blocks(Intersection(origin, target, obstacles[k]))
    decreases |obstacles| - i
  {
    if i < |obstacles| { ClearExactly(origin, target, obstacles, ignored, i + 1); }
  }

  function Mirrored(s: Span): Span { Span(1.0 - s.exit, 1.0 - s.entry) }

  function Reversed(a: Axis): Axis { Axis(a.origin + a.delta, -a.delta, a.minimum, a.maximum) }

  lemma QuotientMirrored(m: real, o: real, d: real)
    requires d != 0.0
    ensures (m - (o + d)) / (-d) == 1.0 - (m - o) / d
  {
    var q := (m - o) / d;
    assert d * q == m - o;
    assert m - (o + d) == (1.0 - q) * (-d);
    QuotientUnique(1.0 - q, m - (o + d), -d);
  }

  lemma QuotientUnique(x: real, y: real, z: real)
    requires z != 0.0 && y == x * z
    ensures y / z == x
  {
  }

  lemma AxisMirrored(a: Axis, s: Span)
    ensures ClipAxis(Reversed(a), Mirrored(s))
         == var c := ClipAxis(a, s); if c.None? then None else Some(Mirrored(c.value))
  {
    if a.delta != 0.0 {
      QuotientMirrored(a.minimum, a.origin, a.delta);
      QuotientMirrored(a.maximum, a.origin, a.delta);
    }
  }

  lemma IntersectionMirrored(start: Point, end: Point, b: Box)
    ensures Intersection(end, start, b)
         == var r := Intersection(start, end, b); if r.None? then None else Some(Mirrored(r.value))
  {
    var axes, back := Axes(start, end, b), Axes(end, start, b);
    assert back[0] == Reversed(axes[0]) && back[1] == Reversed(axes[1]);
    TwoAxes(start, end, b);
    TwoAxes(end, start, b);
    AxisMirrored(axes[0], WHOLE);
    var first := ClipAxis(axes[0], WHOLE);
    if first.Some? { AxisMirrored(axes[1], first.value); }
  }

  /** Who can see whom is mutual: swapping the two endpoints never changes the answer. */
  lemma SightIsSymmetric(origin: Point, target: Point, obstacles: seq<Box>, ignored: Option<nat>)
    ensures ClearFrom(origin, target, obstacles, ignored, 0) == ClearFrom(target, origin, obstacles, ignored, 0)
  {
    ClearExactly(origin, target, obstacles, ignored, 0);
    ClearExactly(target, origin, obstacles, ignored, 0);
    forall k | 0 <= k < |obstacles|
      ensures Blocks(Intersection(origin, target, obstacles[k])) == Blocks(Intersection(target, origin, obstacles[k]))
    {
      IntersectionMirrored(origin, target, obstacles[k]);
    }
  }

  /** An obstacle of non-negative size blocks exactly when the segment meets it somewhere beyond the
      first margin and somewhere before the last. */
  lemma BlockingExactly(origin: Point, target: Point, b: Box)
    requires b.width >= 0.0 && b.height >= 0.0
    ensures Blocks(Intersection(origin, target, b)) <==>
              (exists t :: 0.0 <= t < 1.0 - MARGIN && Inside(origin, target, b, t))
              && (exists t :: MARGIN < t <= 1.0 && Inside(origin, target, b, t))
  {
    var r := Intersection(origin, target, b);
    ClipIsNonEmpty(origin, target, b);
    forall t ensures InOption(t, r) <==> 0.0 <= t <= 1.0 && Inside(origin, target, b, t) {
      ClipIsExact(origin, target, b, t);
    }
    if Blocks(r) {
      assert InOption(r.value.entry, r) && InOption(r.value.exit, r);
    }
  }
}
