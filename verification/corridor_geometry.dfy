/**
 * CorridorScanner.InsideCorridor: is a point within `halfWidth` of the
 * segment from A to B?
 *
 * The point is projected onto the line AB, the projection parameter is
 * clamped to [0, 1], and the squared distance to that clamped point is
 * compared (closed, `<=`) with halfWidth squared. When A == B the C# code
 * divides 0 by 0; the NaN that results makes the comparison false, so a
 * degenerate corridor contains nothing.
 *
 * Because the parameter is clamped, the clamped point is the point of the
 * segment nearest to p, and the region is a capsule: beyond either end it is
 * bounded by a half-ball around that end point, not by a flat cap.
 */
module CorridorGeometry {
  import opened Basics

  /** A + s (B - A): the point at parameter s along the segment. */
  function PointAt(a: Vec3, b: Vec3, s: real): Vec3
  {
    Add(a, Scale(s, Sub(b, a)))
  }

  /** `Mathf.Clamp01(Vector3.Dot(p - A, AB) / AB.sqrMagnitude)`, for a non-degenerate segment. */
  function ClampedParam(p: Vec3, a: Vec3, b: Vec3): (t: real)
    requires SqrMagnitude(Sub(b, a)) != 0.0
    ensures 0.0 <= t <= 1.0
  {
    Clamp01(Dot(Sub(p, a), Sub(b, a)) / SqrMagnitude(Sub(b, a)))
  }

  /** CorridorScanner.InsideCorridor, with the corridor's end points passed in. */
  predicate InsideCorridor(p: Vec3, a: Vec3, b: Vec3, halfWidth: real)
    ensures InsideCorridor(p, a, b, halfWidth) ==> a != b
  {
    var ab := Sub(b, a);
    if SqrMagnitude(ab) == 0.0 then false
    else
      var proj := PointAt(a, b, ClampedParam(p, a, b));
      SqrMagnitude(Sub(p, proj)) <= Square(halfWidth)
  }

  /** The segment is degenerate exactly when its end points coincide. */
  lemma DegenerateIffSamePoint(a: Vec3, b: Vec3)
    ensures SqrMagnitude(Sub(b, a)) == 0.0 <==> a == b
  {
    SqrMagnitudeSign(Sub(b, a));
    if Sub(b, a) == Zero {
      assert b.x == a.x && b.y == a.y && b.z == a.z;
    }
  }

  /** A corridor whose end points coincide contains no point at all. */
  lemma DegenerateCorridorIsEmpty(p: Vec3, a: Vec3, halfWidth: real)
    ensures !InsideCorridor(p, a, a, halfWidth)
  {
    DegenerateIffSamePoint(a, a);
  }

  lemma PointsDiffer(a: Vec3, b: Vec3, t: real, s: real)
    ensures Sub(PointAt(a, b, t), PointAt(a, b, s)) == Scale(t - s, Sub(b, a))
  {
  }

  /** The scalar heart of the nearest-point argument: clamping moves toward every s in [0, 1]. */
  lemma ClampedGap(dp: real, len2: real, s: real)
    requires len2 > 0.0 && 0.0 <= s <= 1.0
    ensures (Clamp01(dp / len2) - s) * (dp - Clamp01(dp / len2) * len2) >= 0.0
  {
    var tStar := dp / len2;
    assert dp == tStar * len2;
    if tStar < 0.0 {
      assert dp < 0.0;
    } else if tStar > 1.0 {
      assert dp > len2;
    }
  }

  /** The clamped projection is the point of the segment nearest to p. */
  lemma NearestPoint(p: Vec3, a: Vec3, b: Vec3, s: real)
    requires SqrMagnitude(Sub(b, a)) != 0.0 && 0.0 <= s <= 1.0
    ensures SqrMagnitude(Sub(p, PointAt(a, b, ClampedParam(p, a, b)))) <= SqrMagnitude(Sub(p, PointAt(a, b, s)))
  {
    var u := Sub(b, a);
    var d := Sub(p, a);
    var len2 := SqrMagnitude(u);
    SqrMagnitudeSign(u);
    var t := ClampedParam(p, a, b);
    var q := PointAt(a, b, t);
    var r := PointAt(a, b, s);
    var g := Sub(p, q);
    var h := Sub(q, r);
    assert Sub(p, r) == Add(g, h);
    SqrMagnitudeOfSum(g, h);
    SqrMagnitudeSign(h);
    PointsDiffer(a, b, t, s);
    DotScaleRight(g, t - s, u);
    assert g == Sub(d, Scale(t, u));
    DotSubLeft(d, Scale(t, u), u);
    DotScaleLeft(t, u, u);
    assert Dot(g, u) == Dot(d, u) - t * len2;
    ClampedGap(Dot(d, u), len2, s);
    assert Dot(g, h) >= 0.0;
  }

  /**
   * The corridor is the capsule around the segment: p is inside exactly when
   * the segment is proper and some point of it lies within halfWidth of p.
   */
  lemma InsideIsCapsule(p: Vec3, a: Vec3, b: Vec3, halfWidth: real)
    ensures InsideCorridor(p, a, b, halfWidth) <==>
      a != b && exists s :: 0.0 <= s <= 1.0 && SqrMagnitude(Sub(p, PointAt(a, b, s))) <= Square(halfWidth)
  {
    DegenerateIffSamePoint(a, b);
    if a != b {
      if InsideCorridor(p, a, b, halfWidth) {
        var t := ClampedParam(p, a, b);
        assert 0.0 <= t <= 1.0 && SqrMagnitude(Sub(p, PointAt(a, b, t))) <= Square(halfWidth);
      }
      if s :| 0.0 <= s <= 1.0 && SqrMagnitude(Sub(p, PointAt(a, b, s))) <= Square(halfWidth) {
        NearestPoint(p, a, b, s);
      }
    }
  }

  /** Every point of a proper segment is inside its corridor, whatever the width. */
  lemma SegmentIsInside(a: Vec3, b: Vec3, s: real, halfWidth: real)
    requires a != b && 0.0 <= s <= 1.0
    ensures InsideCorridor(PointAt(a, b, s), a, b, halfWidth)
  {
    var p := PointAt(a, b, s);
    assert Sub(p, p) == Zero;
    SqrMagnitudeSign(Zero);
    SquareSign(halfWidth);
    InsideIsCapsule(p, a, b, halfWidth);
  }

  /**
   * Beside the segment the test is the closed lateral one: a point at
   * parameter s in [0, 1] moved by an offset n perpendicular to AB is inside
   * exactly when |n|^2 <= halfWidth^2 (so an offset of exactly halfWidth is inside).
   */
  lemma LateralOffset(a: Vec3, b: Vec3, s: real, n: Vec3, halfWidth: real)
    requires a != b && 0.0 <= s <= 1.0 && Dot(n, Sub(b, a)) == 0.0
    ensures InsideCorridor(Add(PointAt(a, b, s), n), a, b, halfWidth) <==> SqrMagnitude(n) <= Square(halfWidth)
  {
    var u := Sub(b, a);
    var p := Add(PointAt(a, b, s), n);
    DegenerateIffSamePoint(a, b);
    var len2 := SqrMagnitude(u);
    assert Sub(p, a) == Add(Scale(s, u), n);
    assert Dot(Add(Scale(s, u), n), u) == Dot(Scale(s, u), u) + Dot(n, u);
    DotScaleLeft(s, u, u);
    assert Dot(Sub(p, a), u) / len2 == s;
    assert ClampedParam(p, a, b) == s;
    assert Sub(p, PointAt(a, b, s)) == n;
  }

  /** A negative half-width is squared like its absolute value. */
  lemma HalfWidthSign(p: Vec3, a: Vec3, b: Vec3, halfWidth: real)
    ensures InsideCorridor(p, a, b, -halfWidth) == InsideCorridor(p, a, b, halfWidth)
  {
    SquareOfNegation(halfWidth);
    assert Square(-halfWidth) == Mul(halfWidth, halfWidth);
  }

  /** Past the end B the clamped projection is B itself. */
  lemma PastEnd(p: Vec3, a: Vec3, b: Vec3)
    requires SqrMagnitude(Sub(b, a)) != 0.0
    requires Dot(Sub(p, a), Sub(b, a)) > SqrMagnitude(Sub(b, a))
    ensures PointAt(a, b, ClampedParam(p, a, b)) == b
  {
    SqrMagnitudeSign(Sub(b, a));
    assert Dot(Sub(p, a), Sub(b, a)) / SqrMagnitude(Sub(b, a)) > 1.0;
  }

  /**
   * The ends are rounded: past B, (2.3,0,0) is still inside (a flat end cap
   * would exclude it), while (2.3,0.45,0), whose distance from the axis is
   * below 0.5, is outside because it is more than 0.5 from B itself.
   */
  lemma RoundedEndCap()
    ensures InsideCorridor(Vec3(2.3, 0.0, 0.0), Zero, Vec3(2.0, 0.0, 0.0), 0.5)
    ensures !InsideCorridor(Vec3(2.3, 0.45, 0.0), Zero, Vec3(2.0, 0.0, 0.0), 0.5)
  {
    var b := Vec3(2.0, 0.0, 0.0);
    var p := Vec3(2.3, 0.0, 0.0);
    var q := Vec3(2.3, 0.45, 0.0);
    calc {
      SqrMagnitude(Sub(b, Zero));
      SqrMagnitude(b);
      4.0;
    }
    calc {
      Dot(Sub(p, Zero), Sub(b, Zero));
      Dot(p, b);
      4.6;
    }
    calc {
      Dot(Sub(q, Zero), Sub(b, Zero));
      Dot(q, b);
      4.6;
    }
    PastEnd(p, Zero, b);
    PastEnd(q, Zero, b);
    calc {
      SqrMagnitude(Sub(p, b));
      SqrMagnitude(Vec3(0.3, 0.0, 0.0));
      0.09;
    }
    calc {
      SqrMagnitude(Sub(q, b));
      SqrMagnitude(Vec3(0.3, 0.45, 0.0));
      0.2925;
    }
    calc {
      Square(0.5);
      0.25;
    }
  }
}
