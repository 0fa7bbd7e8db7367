/**
 The angular part of drawing an arc (`ArcItem::arcToPath`): an arc whose start
 angle is past its end angle wraps through 360 degrees, so the end is moved one
 full turn forward. For angles within one turn the sweep handed to the path is
 then never negative; a start more than one turn past the end still gives a
 negative sweep, which `NormalizeSweepWrapped` corrects. Angles are in degrees.
 */
module ArcPath {
  import opened Geometry
  import opened Drawing

  datatype Sweep = Sweep(start: real, end: real) {
    function Length(): real { end - start }
  }

  /** The start and end angles after the wrap-around adjustment as the viewer
      writes it: a single turn is added to an end angle that lies before the start. */
  function NormalizeSweep(startDeg: real, endDeg: real): (s: Sweep)
    ensures s.start == startDeg
    ensures s.end == endDeg || s.end == endDeg + 360.0
    ensures startDeg <= endDeg ==> s.end == endDeg
    ensures startDeg > endDeg ==> s.end == endDeg + 360.0
    ensures startDeg <= endDeg + 360.0 ==> s.start <= s.end
    ensures startDeg > endDeg + 360.0 ==> s.end < s.start
  {
    if startDeg > endDeg then Sweep(startDeg, endDeg + 360.0)
    else Sweep(startDeg, endDeg)
  }

  /** A start angle more than one turn past the end angle leaves the sweep negative. */
  lemma NegativeSweepWitness()
    ensures NormalizeSweep(720.0, 10.0).Length() == -350.0
  {
  }

  /** The number of whole turns that carries `endDeg` to or past `startDeg`. */
  function TurnsToReach(startDeg: real, endDeg: real): (n: int)
    requires startDeg > endDeg
    ensures n >= 1
    ensures startDeg <= endDeg + (n as real) * 360.0 < startDeg + 360.0
  {
    var q := (endDeg - startDeg) / 360.0;
    var f := q.Floor;
    assert (f as real) <= q < (f as real) + 1.0;
    assert (f as real) * 360.0 <= q * 360.0 < (f as real) * 360.0 + 360.0;
    assert q * 360.0 == endDeg - startDeg;
    -f
  }

  /** The adjustment with as many turns as it takes: the end angle is moved
      forward by whole turns until it is no longer before the start angle. */
  function NormalizeSweepWrapped(startDeg: real, endDeg: real): (s: Sweep)
    ensures s.start == startDeg
    ensures s.start <= s.end
    ensures startDeg <= endDeg ==> s.end == endDeg
    ensures startDeg > endDeg ==> s.Length() < 360.0
  {
    if startDeg > endDeg then Sweep(startDeg, endDeg + (TurnsToReach(startDeg, endDeg) as real) * 360.0)
    else Sweep(startDeg, endDeg)
  }

  /** The two adjustments agree exactly when the start angle is at most one
      turn past the end angle, which covers all angles within one turn. */
  lemma WrappedAgreesIff(startDeg: real, endDeg: real)
    ensures NormalizeSweepWrapped(startDeg, endDeg) == NormalizeSweep(startDeg, endDeg) <==>
              startDeg <= endDeg + 360.0
  {
    if endDeg < startDeg <= endDeg + 360.0 {
      SweepEndUnique(startDeg, endDeg, 1);
    }
  }

  /** Under the corrected adjustment, an end angle before the start angle is
      moved to the only angle that names the same direction and lies in the
      turn beginning at the start angle. */
  lemma SweepEndUnique(startDeg: real, endDeg: real, k: int)
    requires startDeg > endDeg
    requires startDeg <= endDeg + (k as real) * 360.0 < startDeg + 360.0
    ensures NormalizeSweepWrapped(startDeg, endDeg).end == endDeg + (k as real) * 360.0
  {
    var n := TurnsToReach(startDeg, endDeg);
    var d := k - n;
    assert (d as real) * 360.0 == (k as real) * 360.0 - (n as real) * 360.0;
    assert -360.0 < (d as real) * 360.0 < 360.0;
    assert -1.0 < d as real < 1.0;
  }

  /** Angles of one turn give a sweep of less than one turn. */
  lemma SweepWithinTurn(startDeg: real, endDeg: real)
    requires 0.0 <= startDeg < 360.0 && 0.0 <= endDeg < 360.0
    ensures 0.0 <= NormalizeSweepWrapped(startDeg, endDeg).Length() < 360.0
  {
  }

  /** Applying the corrected adjustment twice changes nothing. */
  lemma NormalizeIdempotent(startDeg: real, endDeg: real)
    ensures var s := NormalizeSweepWrapped(startDeg, endDeg); NormalizeSweepWrapped(s.start, s.end) == s
  {
  }

  /** Applying the as-written adjustment twice changes nothing exactly when the
      start is at most one turn past the end; otherwise a second turn is added. */
  lemma NormalizeTwiceIff(startDeg: real, endDeg: real)
    ensures var s := NormalizeSweep(startDeg, endDeg);
            NormalizeSweep(s.start, s.end) == s <==> startDeg <= endDeg + 360.0
  {
  }

  /** The path parameters: the bounding square of the full circle, the angle the
      arc starts at and the angle it sweeps through. */
  datatype ArcSegment = ArcSegment(bounds: RectF, startAngle: real, sweepLength: real)

  /** The square of side twice the radius centred on the arc's centre. */
  function ArcBounds(centerX: real, centerY: real, radius: real): (r: RectF)
    ensures r.x + r.w / 2.0 == centerX && r.y + r.h / 2.0 == centerY
    ensures r.w == 2.0 * radius && r.h == 2.0 * radius
  {
    RectF(centerX - radius, centerY - radius, 2.0 * radius, 2.0 * radius)
  }

  /** The arc segment drawn for a centre, radius and start and end angle, as written. */
  function ArcToPath(centerX: real, centerY: real, radius: real, startDeg: real, endDeg: real): (p: ArcSegment)
    ensures p.bounds.x + p.bounds.w / 2.0 == centerX && p.bounds.y + p.bounds.h / 2.0 == centerY
    ensures p.bounds.w == 2.0 * radius && p.bounds.h == 2.0 * radius
    ensures p.startAngle == startDeg
    ensures startDeg <= endDeg ==> p.sweepLength == endDeg - startDeg
    ensures startDeg > endDeg ==> p.sweepLength == endDeg + 360.0 - startDeg
    ensures startDeg <= endDeg + 360.0 ==> p.sweepLength >= 0.0
    ensures startDeg > endDeg + 360.0 ==> p.sweepLength < 0.0
    ensures 0.0 <= startDeg < 360.0 && 0.0 <= endDeg < 360.0 ==> 0.0 <= p.sweepLength < 360.0
  {
    var s := NormalizeSweep(startDeg, endDeg);
    ArcSegment(ArcBounds(centerX, centerY, radius), s.start, s.Length())
  }

  /** The arc segment with the corrected adjustment: the sweep is never negative. */
  function ArcToPathWrapped(centerX: real, centerY: real, radius: real, startDeg: real, endDeg: real): (p: ArcSegment)
    ensures p.bounds == ArcBounds(centerX, centerY, radius)
    ensures p.startAngle == startDeg
    ensures 0.0 <= p.sweepLength
    ensures startDeg <= endDeg ==> p.sweepLength == endDeg - startDeg
    ensures startDeg > endDeg ==> p.sweepLength < 360.0
  {
    var s := NormalizeSweepWrapped(startDeg, endDeg);
    ArcSegment(ArcBounds(centerX, centerY, radius), s.start, s.Length())
  }

  /** The two paths coincide exactly when the start is at most one turn past the end. */
  lemma ArcToPathAgreesIff(centerX: real, centerY: real, radius: real, startDeg: real, endDeg: real)
    ensures (ArcToPathWrapped(centerX, centerY, radius, startDeg, endDeg) ==
             ArcToPath(centerX, centerY, radius, startDeg, endDeg)) <==> startDeg <= endDeg + 360.0
  {
    WrappedAgreesIff(startDeg, endDeg);
    var s := NormalizeSweep(startDeg, endDeg);
    var w := NormalizeSweepWrapped(startDeg, endDeg);
    if w != s {
      assert w.Length() != s.Length();
    }
  }

  /** The arc item the scene builder adds for a primitive: arcs only, with the
      centre mirrored vertically (the scene's y axis points down). */
  function SceneArc(obj: Primitive): (r: Option<ArcSegment>)
    ensures r.Some? <==> obj.shape.Arc?
    ensures obj.shape.Arc? ==>
              var a := obj.shape;
              && r.value.bounds.x + r.value.bounds.w / 2.0 == a.center.x
              && r.value.bounds.y + r.value.bounds.h / 2.0 == -a.center.y
              && r.value.bounds.w == 2.0 * a.radius
              && r.value.startAngle == a.startAngle
              && r.value == ArcToPath(a.center.x, -a.center.y, a.radius, a.startAngle, a.endAngle)
  {
    match obj.shape
    case Arc(center, radius, startAngle, endAngle) =>
      Some(ArcToPath(center.x, -center.y, radius, startAngle, endAngle))
    case _ => None
  }
}
