/** The linear algebra of the position filter: 4x4 covariance matrices over the state
    [lat, lng, v_lat, v_lng], and one predict-update cycle written as the matrix equations it
    is meant to compute. `float64` is modelled by `real`. */
module KalmanMatrix {
  import opened Reals

  datatype Vec4 = Vec4(v0: real, v1: real, v2: real, v3: real)

  // A matrix is its four rows.
  datatype Mat4 = Mat4(r0: Vec4, r1: Vec4, r2: Vec4, r3: Vec4)

  datatype Mat2 = Mat2(s00: real, s01: real, s10: real, s11: real)

  const ZERO := Vec4(0.0, 0.0, 0.0, 0.0)

  const IDENTITY := Mat4(
    Vec4(1.0, 0.0, 0.0, 0.0),
    Vec4(0.0, 1.0, 0.0, 0.0),
    Vec4(0.0, 0.0, 1.0, 0.0),
    Vec4(0.0, 0.0, 0.0, 1.0))

  // The covariance a new or reset filter starts from.
  const INITIAL_COVARIANCE := Mat4(
    Vec4(10.0, 0.0, 0.0, 0.0),
    Vec4(0.0, 10.0, 0.0, 0.0),
    Vec4(0.0, 0.0, 100.0, 0.0),
    Vec4(0.0, 0.0, 0.0, 100.0))

  // Below this absolute value the determinant is replaced before it is inverted.
  const MIN_DETERMINANT: real := 0.000000000001

  function Plus(u: Vec4, w: Vec4): Vec4 {
    Vec4(u.v0 + w.v0, u.v1 + w.v1, u.v2 + w.v2, u.v3 + w.v3)
  }

  function Minus(u: Vec4, w: Vec4): Vec4 {
    Vec4(u.v0 - w.v0, u.v1 - w.v1, u.v2 - w.v2, u.v3 - w.v3)
  }

  function Dot(u: Vec4, w: Vec4): real {
    u.v0 * w.v0 + u.v1 * w.v1 + u.v2 * w.v2 + u.v3 * w.v3
  }

  function Scale(k: real, v: Vec4): Vec4 {
    Vec4(k * v.v0, k * v.v1, k * v.v2, k * v.v3)
  }

  // The row vector u times the matrix m: the combination of the rows of m with weights u.
  function Combine(u: Vec4, m: Mat4): Vec4 {
    Plus(Plus(Scale(u.v0, m.r0), Scale(u.v1, m.r1)), Plus(Scale(u.v2, m.r2), Scale(u.v3, m.r3)))
  }

  function Mul(a: Mat4, b: Mat4): Mat4 {
    Mat4(Combine(a.r0, b), Combine(a.r1, b), Combine(a.r2, b), Combine(a.r3, b))
  }

  function Add(a: Mat4, b: Mat4): Mat4 {
    Mat4(Plus(a.r0, b.r0), Plus(a.r1, b.r1), Plus(a.r2, b.r2), Plus(a.r3, b.r3))
  }

  function Sub(a: Mat4, b: Mat4): Mat4 {
    Mat4(Minus(a.r0, b.r0), Minus(a.r1, b.r1), Minus(a.r2, b.r2), Minus(a.r3, b.r3))
  }

  function Transpose(a: Mat4): Mat4 {
    Mat4(
      Vec4(a.r0.v0, a.r1.v0, a.r2.v0, a.r3.v0),
      Vec4(a.r0.v1, a.r1.v1, a.r2.v1, a.r3.v1),
      Vec4(a.r0.v2, a.r1.v2, a.r2.v2, a.r3.v2),
      Vec4(a.r0.v3, a.r1.v3, a.r2.v3, a.r3.v3))
  }

  function Apply(a: Mat4, v: Vec4): Vec4 {
    Vec4(Dot(a.r0, v), Dot(a.r1, v), Dot(a.r2, v), Dot(a.r3, v))
  }

  predicate Symmetric(a: Mat4) {
    a == Transpose(a)
  }

  ghost predicate PositiveDefinite(a: Mat4) {
    forall v: Vec4 :: v != ZERO ==> Dot(v, Apply(a, v)) > 0.0
  }

  // ---- One predict-update cycle ----

  // The constant-velocity transition matrix.
  function Transition(dt: real): Mat4 {
    Mat4(
      Vec4(1.0, 0.0, dt, 0.0),
      Vec4(0.0, 1.0, 0.0, dt),
      Vec4(0.0, 0.0, 1.0, 0.0),
      Vec4(0.0, 0.0, 0.0, 1.0))
  }

  // Discrete white-noise acceleration.
  function ProcessNoise(q: real, dt: real): Mat4 {
    var d1 := q * dt;
    var d2 := q * (dt * dt) / 2.0;
    var d3 := q * (dt * dt) * dt / 3.0;
    Mat4(
      Vec4(d3, 0.0, d2, 0.0),
      Vec4(0.0, d3, 0.0, d2),
      Vec4(d2, 0.0, d1, 0.0),
      Vec4(0.0, d2, 0.0, d1))
  }

  function PredictCovariance(p: Mat4, q: real, dt: real): Mat4 {
    Add(Mul(Mul(Transition(dt), p), Transpose(Transition(dt))), ProcessNoise(q, dt))
  }

  // S = H P H^T + R I
  function InnovationCovariance(p: Mat4, r: real): Mat2 {
    Mat2(p.r0.v0 + r, p.r0.v1, p.r1.v0, p.r1.v1 + r)
  }

  function Determinant(s: Mat2): real {
    s.s00 * s.s11 - s.s01 * s.s10
  }

  function GuardedDeterminant(s: Mat2): (d: real)
    ensures d != 0.0
  {
    if Abs(Determinant(s)) < MIN_DETERMINANT then MIN_DETERMINANT else Determinant(s)
  }

  // The inverse of S by its adjugate, with the determinant kept away from 0.
  function Inverse(s: Mat2): Mat2 {
    var d := GuardedDeterminant(s);
    Mat2(s.s11 / d, -s.s01 / d, -s.s10 / d, s.s00 / d)
  }

  // H^T S H: a 2x2 matrix in the position corner, 0 elsewhere.
  function PositionBlock(s: Mat2): Mat4 {
    Mat4(Vec4(s.s00, s.s01, 0.0, 0.0), Vec4(s.s10, s.s11, 0.0, 0.0), ZERO, ZERO)
  }

  // K H, where K = P H^T S^-1 is the gain.
  function GainMatrix(p: Mat4, r: real): Mat4 {
    Mul(p, PositionBlock(Inverse(InnovationCovariance(p, r))))
  }

  // (I - K H) P
  function UpdateCovariance(p: Mat4, r: real): Mat4 {
    Mul(Sub(IDENTITY, GainMatrix(p, r)), p)
  }

  // x + K (z - H x)
  function UpdateEstimate(x: Vec4, p: Mat4, r: real, lat: real, lng: real): Vec4 {
    Plus(x, Apply(GainMatrix(p, r), Vec4(lat - x.v0, lng - x.v1, 0.0, 0.0)))
  }

  /** The guarded inverse is the inverse whenever the determinant is not replaced. */
  lemma InverseIsInverse(s: Mat2)
    requires Abs(Determinant(s)) >= MIN_DETERMINANT
    ensures var i := Inverse(s);
            && s.s00 * i.s00 + s.s01 * i.s10 == 1.0
            && s.s00 * i.s01 + s.s01 * i.s11 == 0.0
            && s.s10 * i.s00 + s.s11 * i.s10 == 0.0
            && s.s10 * i.s01 + s.s11 * i.s11 == 1.0
  {
  }

}
