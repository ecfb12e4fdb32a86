// Geometry of the falling chimney: rod and top-piece endpoints, and the
// ground clipper that keeps the part of a segment at or above y = 0.

module Geometry {

  datatype Option<T> = None | Some(value: T)

  /** A line segment from (x1, y1) to (x2, y2); y is the height above ground. */
  datatype Segment = Segment(x1: real, y1: real, x2: real, y2: real)

  /** Sine and cosine are left uninterpreted: the model is generic in them. */
  datatype Trig = Trig(sin: real -> real, cos: real -> real)

  /** The only facts about sine and cosine the model relies on. */
  ghost predicate ValidTrig(tr: Trig) {
    forall a :: -1.0 <= tr.sin(a) <= 1.0 && -1.0 <= tr.cos(a) <= 1.0
             && tr.sin(a) * tr.sin(a) + tr.cos(a) * tr.cos(a) == 1.0
  }

  function SquaredLength(s: Segment): real {
    (s.x2 - s.x1) * (s.x2 - s.x1) + (s.y2 - s.y1) * (s.y2 - s.y1)
  }

  /** Both endpoints at or above the ground line. */
  predicate AboveGround(s: Segment) {
    s.y1 >= 0.0 && s.y2 >= 0.0
  }

  /** Both endpoints strictly above the ground line. */
  predicate Airborne(s: Segment) {
    s.y1 > 0.0 && s.y2 > 0.0
  }

  /** At least one endpoint on or below the ground line. */
  predicate TouchesGround(s: Segment) {
    s.y1 <= 0.0 || s.y2 <= 0.0
  }

  /** One endpoint strictly below ground and the other strictly above. */
  predicate Straddles(s: Segment) {
    (s.y1 < 0.0 && 0.0 < s.y2) || (s.y2 < 0.0 && 0.0 < s.y1)
  }

  /** A rod of the given length pivoted at (baseX, baseY), `angle` radians from vertical. */
  function RodEndpoints(tr: Trig, length: real, angle: real, baseX: real, baseY: real): (r: Segment)
    ensures r.x1 == baseX && r.y1 == baseY
  {
    Segment(baseX, baseY, baseX + length * tr.sin(angle), baseY + length * tr.cos(angle))
  }

  /** A rod of the given length centred on (centerX, centerY), `angle` radians from vertical. */
  function TopPieceEndpoints(tr: Trig, centerX: real, centerY: real, angle: real, length: real): (r: Segment)
    ensures r.x1 + r.x2 == 2.0 * centerX && r.y1 + r.y2 == 2.0 * centerY
  {
    var dx := (length / 2.0) * tr.sin(angle);
    var dy := (length / 2.0) * tr.cos(angle);
    Segment(centerX - dx, centerY - dy, centerX + dx, centerY + dy)
  }

  lemma RodEndpointsLength(tr: Trig, length: real, angle: real, baseX: real, baseY: real)
    requires ValidTrig(tr)
    ensures SquaredLength(RodEndpoints(tr, length, angle, baseX, baseY)) == length * length
  {
    var s, c := tr.sin(angle), tr.cos(angle);
    var r := RodEndpoints(tr, length, angle, baseX, baseY);
    assert s * s + c * c == 1.0;
    calc {
      SquaredLength(r);
      (length * s) * (length * s) + (length * c) * (length * c);
      length * length * (s * s + c * c);
      length * length;
    }
  }

  lemma TopPieceEndpointsLength(tr: Trig, centerX: real, centerY: real, angle: real, length: real)
    requires ValidTrig(tr)
    ensures SquaredLength(TopPieceEndpoints(tr, centerX, centerY, angle, length)) == length * length
  {
    var s, c := tr.sin(angle), tr.cos(angle);
    var r := TopPieceEndpoints(tr, centerX, centerY, angle, length);
    assert s * s + c * c == 1.0;
    assert r.x2 - r.x1 == length * s;
    assert r.y2 - r.y1 == length * c;
    calc {
      SquaredLength(r);
      (length * s) * (length * s) + (length * c) * (length * c);
      length * length * (s * s + c * c);
      length * length;
    }
  }

  /** Parameter u at which the line through the segment meets y = 0. */
  function GroundCrossing(s: Segment): real
    requires s.y1 != s.y2
  {
    (0.0 - s.y1) / (s.y2 - s.y1)
  }

  /** The x coordinate of the point at parameter u along the segment. */
  function XAt(s: Segment, u: real): real {
    s.x1 + u * (s.x2 - s.x1)
  }

  /** The y coordinate of the point at parameter u along the segment. */
  function YAt(s: Segment, u: real): real {
    s.y1 + u * (s.y2 - s.y1)
  }

  /**
   * The part of the segment at or above ground: the segment itself when both
   * ends are at or above ground, nothing when both are at or below (and not
   * both on it), otherwise the segment with its underground end moved to the
   * crossing with y = 0.
   */
  function ClipToGround(s: Segment): (r: Option<Segment>)
    ensures r.Some? ==> AboveGround(r.value)
    ensures r == Some(s) <==> AboveGround(s)
    ensures r.None? <==> s.y1 <= 0.0 && s.y2 <= 0.0 && !AboveGround(s)
    ensures r.Some? && !AboveGround(s) ==> Straddles(s)
  {
    if s.y1 >= 0.0 && s.y2 >= 0.0 then
      Some(s)
    else if s.y1 <= 0.0 && s.y2 <= 0.0 then
      None
    else if s.y2 != s.y1 then
      var t := GroundCrossing(s);
      var xi := XAt(s, t);
      if s.y1 < 0.0 then Some(Segment(xi, 0.0, s.x2, s.y2))
      else Some(Segment(s.x1, s.y1, xi, 0.0))
    else
      None
  }

  /**
   * In the straddling case the two heights differ (the defensive `None` branch
   * cannot be taken), the crossing lies strictly inside the segment, and
   * exactly the underground endpoint is replaced by the crossing point.
   */
  lemma ClipStraddling(s: Segment)
    requires Straddles(s)
    ensures s.y1 != s.y2
    ensures 0.0 < GroundCrossing(s) < 1.0
    ensures YAt(s, GroundCrossing(s)) == 0.0
    ensures s.x1 <= s.x2 ==> s.x1 <= XAt(s, GroundCrossing(s)) <= s.x2
    ensures s.x2 <= s.x1 ==> s.x2 <= XAt(s, GroundCrossing(s)) <= s.x1
    ensures s.y1 < 0.0 ==> ClipToGround(s) == Some(Segment(XAt(s, GroundCrossing(s)), 0.0, s.x2, s.y2))
    ensures s.y2 < 0.0 ==> ClipToGround(s) == Some(Segment(s.x1, s.y1, XAt(s, GroundCrossing(s)), 0.0))
  {
    var d := s.y2 - s.y1;
    var t := GroundCrossing(s);
    assert t * d == 0.0 - s.y1;
    if s.y1 < 0.0 {
      assert d > 0.0 && 0.0 - s.y1 < d;
    } else {
      assert d < 0.0 && s.y1 - 0.0 < 0.0 - d;
    }
    assert 0.0 < t < 1.0;
    var k := s.x2 - s.x1;
    if k >= 0.0 {
      assert 0.0 <= t * k <= k;
    } else {
      assert k <= t * k <= 0.0;
    }
  }

  /**
   * When the segment straddles the ground, a point of it is at or above ground
   * exactly when it lies between the crossing and the end kept above ground:
   * the clipped segment is the whole visible part, no more and no less.
   */
  lemma ClipKeepsVisiblePart(s: Segment, u: real)
    requires Straddles(s)
    requires 0.0 <= u <= 1.0
    ensures s.y1 < 0.0 ==> (YAt(s, u) >= 0.0 <==> GroundCrossing(s) <= u)
    ensures s.y2 < 0.0 ==> (YAt(s, u) >= 0.0 <==> u <= GroundCrossing(s))
  {
    var d := s.y2 - s.y1;
    var t := GroundCrossing(s);
    assert t * d == 0.0 - s.y1;
    assert YAt(s, u) == (u - t) * d;
  }

  /** A segment from height -1 to height +1 is cut halfway, at the ground. */
  lemma ClipSymmetricExample()
    ensures GroundCrossing(Segment(0.0, -1.0, 2.0, 1.0)) == 0.5
    ensures ClipToGround(Segment(0.0, -1.0, 2.0, 1.0)) == Some(Segment(1.0, 0.0, 2.0, 1.0))
  {
  }

  /** Clipping a clipped segment leaves it unchanged. */
  lemma ClipIdempotent(s: Segment)
    ensures ClipToGround(s).Some? ==> ClipToGround(ClipToGround(s).value) == ClipToGround(s)
  {
  }
}
