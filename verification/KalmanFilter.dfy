/** The filter object: its fields are overwritten in place, entry by entry, and each method is
    shown to compute the matrix equation of `KalmanMatrix` it stands for. */
module KalmanFilters {
  import opened KalmanMatrix
  import opened Reals

  datatype Observation = Observation(lat: real, lng: real, accuracy: real, t: real)

  datatype FilterState = FilterState(x: Vec4, p: Mat4, q: real, lastTime: real, initialised: bool)

  // The noise factor 0 stands for "use the default".
  function NoiseFactor(q: real): real {
    if q == 0.0 then 1.0 else q
  }

  function InitialState(q: real, t: real): FilterState {
    FilterState(ZERO, INITIAL_COVARIANCE, NoiseFactor(q), t, false)
  }

  function Seed(s: FilterState, lat: real, lng: real, t: real): FilterState {
    s.(x := Vec4(lat, lng, 0.0, 0.0), lastTime := t, initialised := true)
  }

  // Seconds since the last measurement; a clock that stands still or runs back counts as 0.1 s.
  function TimeStep(last: real, now: real): (dt: real)
    ensures dt > 0.0
  {
    if now - last <= 0.0 then 0.1 else now - last
  }

  // Measurement noise: 5 m^2, scaled up when the reported accuracy is worse than 10 m.
  function MeasurementNoise(accuracy: real): (r: real)
    ensures r >= 5.0
  {
    (if accuracy / 10.0 < 1.0 then 1.0 else accuracy / 10.0) * 5.0
  }

  // The state a measurement is compared with: seeded if need be, and moved forward in time.
  function Prior(s: FilterState, o: Observation): FilterState {
    var s0 := if s.initialised then s else Seed(s, o.lat, o.lng, o.t);
    var dt := TimeStep(s0.lastTime, o.t);
    s0.(x := Apply(Transition(dt), s0.x), p := PredictCovariance(s0.p, s0.q, dt), lastTime := o.t)
  }

  function Measure(s: FilterState, r: real, lat: real, lng: real): FilterState {
    s.(x := UpdateEstimate(s.x, s.p, r, lat, lng), p := UpdateCovariance(s.p, r))
  }

  /** One whole cycle, in matrix form. */
  function Cycle(s: FilterState, o: Observation): FilterState {
    Measure(Prior(s, o), MeasurementNoise(o.accuracy), o.lat, o.lng)
  }

  // ---- The matrix equations, entry by entry ----

  function Inner(a: real, b: real, c: real, d: real): real {
    a * c + b * d
  }

  lemma ScaleMinus(d: real, a: real, b: real, v: Vec4)
    requires d == a - b
    ensures Scale(d, v) == Minus(Scale(a, v), Scale(b, v))
  {
  }

  lemma ScaleUnits(v: Vec4)
    ensures Scale(0.0, v) == ZERO && Scale(1.0, v) == v
  {
  }

  lemma CombineMinus(u: Vec4, w: Vec4, m: Mat4)
    ensures Combine(Minus(u, w), m) == Minus(Combine(u, m), Combine(w, m))
  {
    ScaleMinus(u.v0 - w.v0, u.v0, w.v0, m.r0);
    ScaleMinus(u.v1 - w.v1, u.v1, w.v1, m.r1);
    ScaleMinus(u.v2 - w.v2, u.v2, w.v2, m.r2);
    ScaleMinus(u.v3 - w.v3, u.v3, w.v3, m.r3);
  }

  lemma IdentityRows(p: Mat4)
    ensures Combine(IDENTITY.r0, p) == p.r0 && Combine(IDENTITY.r1, p) == p.r1
    ensures Combine(IDENTITY.r2, p) == p.r2 && Combine(IDENTITY.r3, p) == p.r3
  {
    ScaleUnits(p.r0);
    ScaleUnits(p.r1);
    ScaleUnits(p.r2);
    ScaleUnits(p.r3);
  }

  // A row of (I - K H) P is that row of P less a combination of the two position rows of P.
  function UpdatedRow(row: Vec4, k: Vec4, p: Mat4): Vec4 {
    Vec4(
      row.v0 - Inner(k.v0, k.v1, p.r0.v0, p.r1.v0),
      row.v1 - Inner(k.v0, k.v1, p.r0.v1, p.r1.v1),
      row.v2 - Inner(k.v0, k.v1, p.r0.v2, p.r1.v2),
      row.v3 - Inner(k.v0, k.v1, p.r0.v3, p.r1.v3))
  }

  lemma UpdateRow(d: Vec4, k: Vec4, p: Mat4)
    requires k.v2 == k.v3 == 0.0
    ensures Combine(Minus(d, k), p) == UpdatedRow(Combine(d, p), k, p)
  {
    hide Combine, Inner;
    CombineMinus(d, k, p);
    PositionCombination(k, p);
  }

  lemma PositionCombination(k: Vec4, p: Mat4)
    requires k.v2 == k.v3 == 0.0
    ensures Combine(k, p) == Vec4(
              Inner(k.v0, k.v1, p.r0.v0, p.r1.v0), Inner(k.v0, k.v1, p.r0.v1, p.r1.v1),
              Inner(k.v0, k.v1, p.r0.v2, p.r1.v2), Inner(k.v0, k.v1, p.r0.v3, p.r1.v3))
  {
    ScaleUnits(p.r2);
    ScaleUnits(p.r3);
  }

  ghost predicate OnlyPositionColumns(k: Mat4) {
    && k.r0.v2 == k.r0.v3 == k.r1.v2 == k.r1.v3 == 0.0
    && k.r2.v2 == k.r2.v3 == k.r3.v2 == k.r3.v3 == 0.0
  }

  lemma UpdateRows(k: Mat4, p: Mat4)
    requires OnlyPositionColumns(k)
    ensures Mul(Sub(IDENTITY, k), p) == Mat4(
              UpdatedRow(p.r0, k.r0, p), UpdatedRow(p.r1, k.r1, p),
              UpdatedRow(p.r2, k.r2, p), UpdatedRow(p.r3, k.r3, p))
  {
    IdentityRows(p);
    UpdateRow(IDENTITY.r0, k.r0, p);
    UpdateRow(IDENTITY.r1, k.r1, p);
    UpdateRow(IDENTITY.r2, k.r2, p);
    UpdateRow(IDENTITY.r3, k.r3, p);
  }

  function GainOfRow(u: Vec4, i: Mat2): Vec4 {
    Vec4(Inner(u.v0, u.v1, i.s00, i.s10), Inner(u.v0, u.v1, i.s01, i.s11), 0.0, 0.0)
  }

  lemma GainRow(u: Vec4, i: Mat2)
    ensures Combine(u, PositionBlock(i)) == GainOfRow(u, i)
  {
  }

  lemma GainEntries(p: Mat4, i: Mat2)
    ensures Mul(p, PositionBlock(i))
         == Mat4(GainOfRow(p.r0, i), GainOfRow(p.r1, i), GainOfRow(p.r2, i), GainOfRow(p.r3, i))
  {
    GainRow(p.r0, i);
    GainRow(p.r1, i);
    GainRow(p.r2, i);
    GainRow(p.r3, i);
  }

  function Shear(x: real, y: real, dt: real): real {
    x + dt * y
  }

  function ShearTwice(a: real, b: real, c: real, d: real, dt: real, dt2: real): real {
    a + dt * c + dt * b + dt2 * d
  }

  // F P F^T for a symmetric P, in terms of the upper triangle of P.
  function SpreadEntries(p00: real, p01: real, p02: real, p03: real, p11: real, p12: real, p13: real,
                         p22: real, p23: real, p33: real, dt: real, dt2: real): Mat4 {
    var n00 := ShearTwice(p00, p02, p02, p22, dt, dt2);
    var n01 := ShearTwice(p01, p12, p03, p23, dt, dt2);
    var n11 := ShearTwice(p11, p13, p13, p33, dt, dt2);
    var n02, n03, n12, n13 := Shear(p02, p22, dt), Shear(p03, p23, dt), Shear(p12, p23, dt), Shear(p13, p33, dt);
    Mat4(
      Vec4(n00, n01, n02, n03),
      Vec4(n01, n11, n12, n13),
      Vec4(n02, n12, p22, p23),
      Vec4(n03, n13, p23, p33))
  }

  lemma Spread(p: Mat4, dt: real)
    requires Symmetric(p)
    ensures Mul(Mul(Transition(dt), p), Transpose(Transition(dt)))
         == SpreadEntries(p.r0.v0, p.r0.v1, p.r0.v2, p.r0.v3, p.r1.v1, p.r1.v2, p.r1.v3,
                          p.r2.v2, p.r2.v3, p.r3.v3, dt, dt * dt)
  {
    hide Mul, Shear, ShearTwice, Transition;
    TransitionTimes(p, dt);
    TimesTransition(Mul(Transition(dt), p), dt);
    ShearsCompose(p.r0.v0, p.r0.v2, p.r0.v2, p.r2.v2, dt);
    ShearsCompose(p.r0.v1, p.r1.v2, p.r0.v3, p.r2.v3, dt);
    ShearsCompose(p.r0.v1, p.r0.v3, p.r1.v2, p.r2.v3, dt);
    ShearsCompose(p.r1.v1, p.r1.v3, p.r1.v3, p.r3.v3, dt);
  }

  lemma ShearsCompose(a: real, b: real, c: real, d: real, dt: real)
    ensures Shear(Shear(a, b, dt), Shear(c, d, dt), dt) == ShearTwice(a, b, c, d, dt, dt * dt)
         == ShearTwice(a, c, b, d, dt, dt * dt)
  {
  }

  lemma TransitionTimes(p: Mat4, dt: real)
    ensures Mul(Transition(dt), p) == Mat4(ShearRow(p.r0, p.r2, dt), ShearRow(p.r1, p.r3, dt), p.r2, p.r3)
  {
    hide Scale, ShearRow;
    ScaleUnits(p.r0);
    ScaleUnits(p.r1);
    ScaleUnits(p.r2);
    ScaleUnits(p.r3);
    ShearIsScale(p.r0, p.r2, dt);
    ShearIsScale(p.r1, p.r3, dt);
  }

  lemma ShearIsScale(u: Vec4, w: Vec4, dt: real)
    ensures Plus(u, Scale(dt, w)) == ShearRow(u, w, dt)
  {
  }

  function ShearRow(u: Vec4, w: Vec4, dt: real): Vec4 {
    Vec4(Shear(u.v0, w.v0, dt), Shear(u.v1, w.v1, dt), Shear(u.v2, w.v2, dt), Shear(u.v3, w.v3, dt))
  }

  function ShearColumns(u: Vec4, dt: real): Vec4 {
    Vec4(Shear(u.v0, u.v2, dt), Shear(u.v1, u.v3, dt), u.v2, u.v3)
  }

  lemma TimesTransition(m: Mat4, dt: real)
    ensures Mul(m, Transpose(Transition(dt)))
         == Mat4(ShearColumns(m.r0, dt), ShearColumns(m.r1, dt), ShearColumns(m.r2, dt), ShearColumns(m.r3, dt))
  {
    hide Combine, ShearColumns;
    RowTimesTransition(m.r0, dt);
    RowTimesTransition(m.r1, dt);
    RowTimesTransition(m.r2, dt);
    RowTimesTransition(m.r3, dt);
  }

  lemma RowTimesTransition(u: Vec4, dt: real)
    ensures Combine(u, Transpose(Transition(dt))) == ShearColumns(u, dt)
  {
  }

  /** A symmetric covariance stays symmetric, whatever the noise factor, and even if the
      determinant is replaced. */
  lemma PredictionSymmetric(p: Mat4, q: real, dt: real)
    requires Symmetric(p)
    ensures Symmetric(PredictCovariance(p, q, dt))
  {
    Spread(p, dt);
    hide Mul, Shear, ShearTwice;
  }

  lemma UpdateSymmetric(p: Mat4, r: real)
    requires Symmetric(p)
    ensures Symmetric(UpdateCovariance(p, r))
  {
    var i := Inverse(InnovationCovariance(p, r));
    var k := GainMatrix(p, r);
    GainEntries(p, i);
    UpdateRows(k, p);
    MirroredEntries(p.r0, p.r1, i);
    MirroredEntries(p.r0, p.r2, i);
    MirroredEntries(p.r0, p.r3, i);
    MirroredEntries(p.r1, p.r2, i);
    MirroredEntries(p.r1, p.r3, i);
    MirroredEntries(p.r2, p.r3, i);
  }

  lemma MirroredEntries(u: Vec4, w: Vec4, i: Mat2)
    requires i.s01 == i.s10
    ensures Inner(GainOfRow(u, i).v0, GainOfRow(u, i).v1, w.v0, w.v1)
         == Inner(GainOfRow(w, i).v0, GainOfRow(w, i).v1, u.v0, u.v1)
  {
  }

  lemma DotTwo(u: Vec4, a: real, b: real)
    ensures Dot(u, Vec4(a, b, 0.0, 0.0)) == u.v0 * a + u.v1 * b
  {
  }

  // ---- The object ----

  datatype SmoothedPosition = SmoothedPosition(lat: real, lng: real, speed: real, bearing: real)

  // Length and angle of a vector, the angle in degrees.
  datatype Trigonometry = Trigonometry(hypot: (real, real) -> real, atan2Degrees: (real, real) -> real)

  // An angle between -180 and 180 degrees as a compass bearing: the same direction, from 0 up to 360.
  function Compass(degrees: real): (r: real)
    ensures r == degrees || r == degrees + 360.0
    ensures -180.0 < degrees <= 180.0 ==> 0.0 <= r < 360.0
  {
    if degrees < 0.0 then degrees + 360.0 else degrees
  }

  class KalmanFilter {
    const x: array<real>
    const P: array2<real>
    var q: real
    var lastTime: real
    var initialised: bool

    ghost predicate Shape() {
      x.Length == 4 && P.Length0 == 4 && P.Length1 == 4
    }

    ghost function Estimate(): Vec4
      requires Shape()
      reads x
    {
      Vec4(x[0], x[1], x[2], x[3])
    }

    ghost function Covariance(): Mat4
      requires Shape()
      reads P
    {
      Mat4(
        Vec4(P[0, 0], P[0, 1], P[0, 2], P[0, 3]),
        Vec4(P[1, 0], P[1, 1], P[1, 2], P[1, 3]),
        Vec4(P[2, 0], P[2, 1], P[2, 2], P[2, 3]),
        Vec4(P[3, 0], P[3, 1], P[3, 2], P[3, 3]))
    }

    ghost function State(): FilterState
      requires Shape()
      reads this, x, P
    {
      FilterState(Estimate(), Covariance(), q, lastTime, initialised)
    }

    ghost predicate Valid()
      reads this, x, P
    {
      Shape() && Symmetric(Covariance())
    }

    constructor (q: real, zeroTime: real)
      ensures Valid() && fresh(x) && fresh(P)
      ensures State() == InitialState(q, zeroTime)
    {
      this.q := if q == 0.0 then 1.0 else q;
      x := new real[4](_ => 0.0);
      P := new real[4, 4];
      lastTime := zeroTime;
      initialised := false;
      new;
      SetCovariance(INITIAL_COVARIANCE);
    }

    // Overwrites all sixteen entries.
    method SetCovariance(m: Mat4)
      requires Shape()
      modifies P
      ensures Covariance() == m
    {
      P[0, 0], P[0, 1], P[0, 2], P[0, 3] := m.r0.v0, m.r0.v1, m.r0.v2, m.r0.v3;
      P[1, 0], P[1, 1], P[1, 2], P[1, 3] := m.r1.v0, m.r1.v1, m.r1.v2, m.r1.v3;
      P[2, 0], P[2, 1], P[2, 2], P[2, 3] := m.r2.v0, m.r2.v1, m.r2.v2, m.r2.v3;
      P[3, 0], P[3, 1], P[3, 2], P[3, 3] := m.r3.v0, m.r3.v1, m.r3.v2, m.r3.v3;
    }

    method Initialise(lat: real, lng: real, t: real)
      requires Valid()
      modifies this, x
      ensures Valid() && State() == Seed(old(State()), lat, lng, t)
    {
      x[0], x[1], x[2], x[3] := lat, lng, 0.0, 0.0;
      lastTime := t;
      initialised := true;
    }

    method Reset()
      requires Valid()
      modifies this, x, P
      ensures Valid()
      ensures State() == FilterState(ZERO, INITIAL_COVARIANCE, old(q), old(lastTime), false)
    {
      initialised := false;
      x[0], x[1], x[2], x[3] := 0.0, 0.0, 0.0, 0.0;
      SetCovariance(INITIAL_COVARIANCE);
    }

    method Predict(dt: real)
      requires Valid()
      modifies x, P
      ensures Valid()
      ensures Estimate() == Apply(Transition(dt), old(Estimate()))
      ensures Covariance() == PredictCovariance(old(Covariance()), q, dt)
    {
      hide Mul, SpreadEntries, ProcessNoise, Apply, Add;
      Spread(Covariance(), dt);
      PredictionSymmetric(Covariance(), q, dt);
      PredictEstimate(dt);
      PredictSpread(dt);
    }

    method PredictEstimate(dt: real)
      requires Shape()
      modifies x
      ensures Estimate() == Apply(Transition(dt), old(Estimate()))
    {
      ghost var v := Estimate();
      x[0] := x[0] + x[2] * dt;
      x[1] := x[1] + x[3] * dt;
    }

    method PredictSpread(dt: real)
      requires Shape()
      modifies P
      ensures Covariance() == Add(old(SpreadEntries(P[0, 0], P[0, 1], P[0, 2], P[0, 3], P[1, 1], P[1, 2], P[1, 3],
                                                    P[2, 2], P[2, 3], P[3, 3], dt, dt * dt)), ProcessNoise(q, dt))
    {
      var dt2 := dt * dt;

      var p00 := P[0, 0] + 2.0 * dt * P[0, 2] + dt2 * P[2, 2];
      var p01 := P[0, 1] + dt * P[0, 3] + dt * P[1, 2] + dt2 * P[2, 3];
      var p02 := P[0, 2] + dt * P[2, 2];
      var p03 := P[0, 3] + dt * P[2, 3];
      var p11 := P[1, 1] + 2.0 * dt * P[1, 3] + dt2 * P[3, 3];
      var p12 := P[1, 2] + dt * P[2, 3];
      var p13 := P[1, 3] + dt * P[3, 3];
      var p22 := P[2, 2];
      var p23 := P[2, 3];
      var p33 := P[3, 3];

      var qD := q * dt;
      var qD2 := q * dt2 / 2.0;
      var qD3 := q * dt2 * dt / 3.0;

      SetCovariance(Mat4(
                      Vec4(p00 + qD3, p01, p02 + qD2, p03),
                      Vec4(p01, p11 + qD3, p12, p13 + qD2),
                      Vec4(p02 + qD2, p12, p22 + qD, p23),
                      Vec4(p03, p13 + qD2, p23, p33 + qD)));
    }

    // One row of (I - K H) P; its gain entries are k0 and k1.
    method UpdatedCovarianceRow(i: nat, k0: real, k1: real) returns (row: Vec4)
      requires Shape() && i < 4
      ensures row == UpdatedRow(Vec4(P[i, 0], P[i, 1], P[i, 2], P[i, 3]), Vec4(k0, k1, 0.0, 0.0), Covariance())
    {
      var p0 := P[i, 0] - (k0 * P[0, 0] + k1 * P[1, 0]);
      var p1 := P[i, 1] - (k0 * P[0, 1] + k1 * P[1, 1]);
      var p2 := P[i, 2] - (k0 * P[0, 2] + k1 * P[1, 2]);
      var p3 := P[i, 3] - (k0 * P[0, 3] + k1 * P[1, 3]);
      row := Vec4(p0, p1, p2, p3);
    }

    method CovarianceUpdate(k: Mat4)
      requires Shape() && OnlyPositionColumns(k)
      modifies P
      ensures Covariance() == Mul(Sub(IDENTITY, k), old(Covariance()))
    {
      UpdateRows(k, Covariance());
      var r0 := UpdatedCovarianceRow(0, k.r0.v0, k.r0.v1);
      var r1 := UpdatedCovarianceRow(1, k.r1.v0, k.r1.v1);
      var r2 := UpdatedCovarianceRow(2, k.r2.v0, k.r2.v1);
      var r3 := UpdatedCovarianceRow(3, k.r3.v0, k.r3.v1);
      SetCovariance(Mat4(r0, r1, r2, r3));
    }

    // K = P H^T S^-1, the determinant of S guarded.
    method Gain(r: real) returns (k: Mat4)
      requires Valid()
      ensures k == GainMatrix(Covariance(), r) && OnlyPositionColumns(k)
    {
      var s00 := P[0, 0] + r;
      var s01 := P[0, 1];
      var s11 := P[1, 1] + r;

      var det := s00 * s11 - s01 * s01;
      if Abs(det) < MIN_DETERMINANT {
        det := MIN_DETERMINANT;
      }
      var invS00 := s11 / det;
      var invS01 := -s01 / det;
      var invS11 := s00 / det;

      ghost var s := InnovationCovariance(Covariance(), r);
      assert s == Mat2(s00, s01, s01, s11);
      assert det == GuardedDeterminant(Mat2(s00, s01, s01, s11));
      assert Inverse(Mat2(s00, s01, s01, s11)) == Mat2(invS00, invS01, invS01, invS11);
      GainEntries(Covariance(), Inverse(s));
      k := Mat4(
        Vec4(Inner(P[0, 0], P[0, 1], invS00, invS01), Inner(P[0, 0], P[0, 1], invS01, invS11), 0.0, 0.0),
        Vec4(Inner(P[1, 0], P[1, 1], invS00, invS01), Inner(P[1, 0], P[1, 1], invS01, invS11), 0.0, 0.0),
        Vec4(Inner(P[2, 0], P[2, 1], invS00, invS01), Inner(P[2, 0], P[2, 1], invS01, invS11), 0.0, 0.0),
        Vec4(Inner(P[3, 0], P[3, 1], invS00, invS01), Inner(P[3, 0], P[3, 1], invS01, invS11), 0.0, 0.0));
    }

    method MoveEstimate(k: Mat4, lat: real, lng: real)
      requires Shape() && OnlyPositionColumns(k)
      modifies x
      ensures Estimate() == old(Plus(Estimate(), Apply(k, Vec4(lat - x[0], lng - x[1], 0.0, 0.0))))
    {
      var y0 := lat - x[0];
      var y1 := lng - x[1];
      DotTwo(k.r0, y0, y1);
      DotTwo(k.r1, y0, y1);
      DotTwo(k.r2, y0, y1);
      DotTwo(k.r3, y0, y1);
      x[0] := x[0] + (k.r0.v0 * y0 + k.r0.v1 * y1);
      x[1] := x[1] + (k.r1.v0 * y0 + k.r1.v1 * y1);
      x[2] := x[2] + (k.r2.v0 * y0 + k.r2.v1 * y1);
      x[3] := x[3] + (k.r3.v0 * y0 + k.r3.v1 * y1);
    }

    method Update(lat: real, lng: real, accuracy: real, t: real, trig: Trigonometry) returns (p: SmoothedPosition)
      requires Valid()
      modifies this, x, P
      ensures Valid()
      ensures State() == Cycle(old(State()), Observation(lat, lng, accuracy, t))
      ensures var x := State().x;
              p == SmoothedPosition(x.v0, x.v1, trig.hypot(x.v2, x.v3), Compass(trig.atan2Degrees(x.v3, x.v2)))
    {
      hide PredictCovariance, GainMatrix, Apply, Plus, Mul, Sub;
      if !initialised {
        Initialise(lat, lng, t);
      }
      var dt := t - lastTime;
      if dt <= 0.0 {
        dt := 0.1;
      }
      lastTime := t;
      Predict(dt);

      var rScale := accuracy / 10.0;
      if rScale < 1.0 {
        rScale := 1.0;
      }
      var r := rScale * 5.0;
      UpdateSymmetric(Covariance(), r);

      var k := Gain(r);
      MoveEstimate(k, lat, lng);
      CovarianceUpdate(k);

      var speed := trig.hypot(x[2], x[3]);
      var bearing := trig.atan2Degrees(x[3], x[2]);
      if bearing < 0.0 {
        bearing := bearing + 360.0;
      }
      p := SmoothedPosition(x[0], x[1], speed, bearing);
    }
  }
}
