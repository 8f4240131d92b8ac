/**
 * Values shared by the scanner, the bakers and the ruler: an Option type,
 * Unity's Vector3 and Color as exact real-valued records, Mathf.Clamp01 and
 * the near-parallel test both slope analysers use before building a frame.
 * Float rounding is not modelled: every coordinate is a `real`.
 */
module Basics {

  datatype Option<T> = None | Some(value: T)

  /** Unity's Vector3, over the reals. */
  datatype Vec3 = Vec3(x: real, y: real, z: real)

  /** Unity's Color (r, g, b, a). */
  datatype Color = Color(r: real, g: real, b: real, a: real)

  const White := Color(1.0, 1.0, 1.0, 1.0)
  const Zero := Vec3(0.0, 0.0, 0.0)

  function Add(u: Vec3, v: Vec3): Vec3 { Vec3(u.x + v.x, u.y + v.y, u.z + v.z) }

  function Sub(u: Vec3, v: Vec3): Vec3 { Vec3(u.x - v.x, u.y - v.y, u.z - v.z) }

  function Scale(k: real, v: Vec3): Vec3 { Vec3(k * v.x, k * v.y, k * v.z) }

  function Dot(u: Vec3, v: Vec3): real { u.x * v.x + u.y * v.y + u.z * v.z }

  /** Vector3.sqrMagnitude. */
  function SqrMagnitude(v: Vec3): real { Dot(v, v) }

  // Squares are kept behind functions: Z3 treats a product written out in a
  // formula and the same product obtained by unfolding a function as
  // different terms, so facts about squares are stated on these functions.

  function Square(r: real): real { r * r }

  function Mul(a: real, b: real): real { a * b }

  lemma MulPositive(a: real, b: real)
    requires a > 0.0 && b > 0.0
    ensures Mul(a, b) > 0.0
  {
  }

  lemma SquareOfNegation(r: real)
    ensures Square(r) == Mul(-r, -r)
  {
  }

  lemma SquareSign(r: real)
    ensures Square(r) >= 0.0
    ensures r != 0.0 ==> Square(r) > 0.0
  {
    if r > 0.0 {
      MulPositive(r, r);
      assert Square(r) == Mul(r, r);
    } else if r < 0.0 {
      MulPositive(-r, -r);
      SquareOfNegation(r);
    } else {
      assert Square(r) == Mul(0.0, 0.0);
    }
  }

  lemma SqrMagnitudeAsSquares(v: Vec3)
    ensures SqrMagnitude(v) == Square(v.x) + Square(v.y) + Square(v.z)
  {
  }

  /** A squared length is never negative, and is zero only for the zero vector. */
  lemma SqrMagnitudeSign(v: Vec3)
    ensures SqrMagnitude(v) >= 0.0
    ensures v != Zero ==> SqrMagnitude(v) > 0.0
  {
    SqrMagnitudeAsSquares(v);
    SquareSign(v.x);
    SquareSign(v.y);
    SquareSign(v.z);
    if v != Zero {
      assert v.x != 0.0 || v.y != 0.0 || v.z != 0.0;
    }
  }

  /** Concatenation is associative (stated for named values, so the solver need not search for it). */
  lemma ConcatAssociative<T>(a: seq<T>, b: seq<T>, c: seq<T>)
    ensures (a + b) + c == a + (b + c)
  {
  }

  lemma DotSubLeft(a: Vec3, b: Vec3, c: Vec3)
    ensures Dot(Sub(a, b), c) == Dot(a, c) - Dot(b, c)
  {
  }

  lemma DotScaleLeft(k: real, a: Vec3, c: Vec3)
    ensures Dot(Scale(k, a), c) == k * Dot(a, c)
  {
  }

  lemma DotScaleRight(a: Vec3, k: real, c: Vec3)
    ensures Dot(a, Scale(k, c)) == k * Dot(a, c)
  {
  }

  /** |a + b|^2 = |a|^2 + 2 a.b + |b|^2. */
  lemma SqrMagnitudeOfSum(a: Vec3, b: Vec3)
    ensures SqrMagnitude(Add(a, b)) == SqrMagnitude(a) + 2.0 * Dot(a, b) + SqrMagnitude(b)
  {
  }

  function Abs(r: real): (a: real)
    ensures a >= 0.0 && (a == r || a == -r)
  {
    if r < 0.0 then -r else r
  }

  /** Mathf.Clamp01 on a number (the NaN case is handled by callers). */
  function Clamp01(v: real): (c: real)
    ensures 0.0 <= c <= 1.0
    ensures 0.0 <= v <= 1.0 ==> c == v
    ensures v < 0.0 ==> c == 0.0
    ensures v > 1.0 ==> c == 1.0
  {
    if v < 0.0 then 0.0 else if v > 1.0 then 1.0 else v
  }

  /** The forward and up directions a slope analyser works in. */
  datatype Frame = Frame(forward: Vec3, up: Vec3)

  /**
   * `Mathf.Abs(Vector3.Dot(forward, up)) > 0.99`: the test both slope
   * analysers use to detect a corridor direction almost parallel to "up".
   */
  predicate NearParallel(forward: Vec3, up: Vec3)
  {
    Abs(Dot(forward, up)) > 0.99
  }
}
