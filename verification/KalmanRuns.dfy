/** What every run of the filter keeps. The reachable covariances are exactly those of two
    identical, independent 2-state filters, one per axis, and they are positive definite. */
module KalmanRuns {
  import opened KalmanFilters
  import opened KalmanMatrix
  import opened Reals

  // ---- The reference: a 2-state filter [position, velocity] for one axis ----

  datatype Axis = Axis(pos: real, vel: real, a: real, b: real, c: real)

  // The entries of [1 dt; 0 1] [a b; b c] [1 0; dt 1] plus white-noise acceleration.
  function NextA(a: real, b: real, c: real, q: real, dt: real): real {
    a + 2.0 * dt * b + dt * dt * c + q * (dt * dt) * dt / 3.0
  }

  function NextB(b: real, c: real, q: real, dt: real): real {
    b + dt * c + q * (dt * dt) / 2.0
  }

  function NextC(c: real, q: real, dt: real): real {
    c + q * dt
  }

  // x less the gain y/s times z.
  function Reduced(x: real, y: real, z: real, s: real): real
    requires s != 0.0
  {
    x - (y / s) * z
  }

  // x moved towards a residual by the gain y/s.
  function Corrected(x: real, y: real, residual: real, s: real): real
    requires s != 0.0
  {
    x + (y / s) * residual
  }

  function AxisPredict(x: Axis, q: real, dt: real): Axis {
    Axis(x.pos + x.vel * dt, x.vel, NextA(x.a, x.b, x.c, q, dt), NextB(x.b, x.c, q, dt), NextC(x.c, q, dt))
  }

  function AxisUpdate(x: Axis, r: real, z: real): Axis
    requires x.a + r != 0.0
  {
    var s := x.a + r;
    Axis(Corrected(x.pos, x.a, z - x.pos, s), Corrected(x.vel, x.b, z - x.pos, s),
         Reduced(x.a, x.a, x.a, s), Reduced(x.b, x.a, x.b, s), Reduced(x.c, x.b, x.b, s))
  }

  ghost predicate AxisPositiveDefinite(a: real, b: real, c: real) {
    a > 0.0 && c > 0.0 && AxisDeterminant(a, b, c) > 0.0
  }

  function AxisDeterminant(a: real, b: real, c: real): real {
    a * c - b * b
  }

  // ---- Decoupled covariances ----

  function Block(a: real, b: real, c: real): Mat4 {
    Mat4(Vec4(a, 0.0, b, 0.0), Vec4(0.0, a, 0.0, b), Vec4(b, 0.0, c, 0.0), Vec4(0.0, b, 0.0, c))
  }

  ghost predicate Decoupled(p: Mat4) {
    && p == Block(p.r0.v0, p.r0.v2, p.r2.v2)
    && AxisPositiveDefinite(p.r0.v0, p.r0.v2, p.r2.v2)
  }

  function LatAxis(s: FilterState): Axis {
    Axis(s.x.v0, s.x.v2, s.p.r0.v0, s.p.r0.v2, s.p.r2.v2)
  }

  function LngAxis(s: FilterState): Axis {
    Axis(s.x.v1, s.x.v3, s.p.r1.v1, s.p.r1.v3, s.p.r3.v3)
  }

  lemma SquareNonNegative(x: real)
    ensures x * x >= 0.0
  {
  }

  lemma SpreadBlock(a: real, b: real, c: real, dt: real)
    ensures SpreadEntries(a, 0.0, b, 0.0, a, 0.0, b, c, 0.0, c, dt, dt * dt)
         == Block(a + 2.0 * dt * b + dt * dt * c, b + dt * c, c)
  {
  }

  lemma PredictBlock(a: real, b: real, c: real, q: real, dt: real)
    ensures PredictCovariance(Block(a, b, c), q, dt)
         == Block(NextA(a, b, c, q, dt), NextB(b, c, q, dt), NextC(c, q, dt))
  {
    Spread(Block(a, b, c), dt);
    SpreadBlock(a, b, c, dt);
    hide Mul, SpreadEntries;
  }

  lemma InverseDiagonal(s: real)
    requires s >= 1.0
    ensures Inverse(Mat2(s, 0.0, 0.0, s)) == Mat2(1.0 / s, 0.0, 0.0, 1.0 / s)
    ensures Determinant(Mat2(s, 0.0, 0.0, s)) == s * s >= 1.0
  {
  }

  // The gain of a decoupled covariance whose S is s I, with j = 1/s.
  lemma GainOfBlock(a: real, b: real, c: real, j: real)
    ensures Mul(Block(a, b, c), PositionBlock(Mat2(j, 0.0, 0.0, j)))
         == Mat4(Vec4(a * j, 0.0, 0.0, 0.0), Vec4(0.0, a * j, 0.0, 0.0),
                 Vec4(b * j, 0.0, 0.0, 0.0), Vec4(0.0, b * j, 0.0, 0.0))
  {
  }

  lemma GainBlock(a: real, b: real, c: real, r: real)
    requires a + r >= 1.0
    ensures var k, l := a / (a + r), b / (a + r);
            GainMatrix(Block(a, b, c), r) ==
            Mat4(Vec4(k, 0.0, 0.0, 0.0), Vec4(0.0, k, 0.0, 0.0), Vec4(l, 0.0, 0.0, 0.0), Vec4(0.0, l, 0.0, 0.0))
  {
    hide Inverse, Mul, Determinant;
    InverseDiagonal(a + r);
    GainOfBlock(a, b, c, 1.0 / (a + r));
    Reciprocal(a, a + r);
    Reciprocal(b, a + r);
  }

  lemma Reciprocal(x: real, s: real)
    requires s != 0.0
    ensures x * (1.0 / s) == x / s
  {
  }

  lemma InnerUnit(x: real, y: real)
    ensures Inner(x, 0.0, y, 0.0) == x * y && Inner(x, 0.0, 0.0, y) == 0.0
    ensures Inner(0.0, x, y, 0.0) == 0.0 && Inner(0.0, x, 0.0, y) == x * y
  {
  }

  lemma SubtractGain(a: real, b: real, c: real, k: real, l: real)
    requires l * a == k * b
    ensures Mul(Sub(IDENTITY, Mat4(Vec4(k, 0.0, 0.0, 0.0), Vec4(0.0, k, 0.0, 0.0),
                                   Vec4(l, 0.0, 0.0, 0.0), Vec4(0.0, l, 0.0, 0.0))), Block(a, b, c))
         == Block(a - k * a, b - k * b, c - l * b)
  {
    hide Mul, Sub, Inner;
    UpdateRows(Mat4(Vec4(k, 0.0, 0.0, 0.0), Vec4(0.0, k, 0.0, 0.0),
                    Vec4(l, 0.0, 0.0, 0.0), Vec4(0.0, l, 0.0, 0.0)), Block(a, b, c));
    InnerUnit(k, a);
    InnerUnit(k, b);
    InnerUnit(l, a);
    InnerUnit(l, b);
  }

  lemma UpdateBlock(a: real, b: real, c: real, r: real)
    requires a + r >= 1.0
    ensures var s := a + r;
            UpdateCovariance(Block(a, b, c), r) ==
            Block(Reduced(a, a, a, s), Reduced(b, a, b, s), Reduced(c, b, b, s))
  {
    hide GainMatrix, Mul, Sub;
    GainBlock(a, b, c, r);
    SwappedQuotient(a, b, a + r);
    SubtractGain(a, b, c, a / (a + r), b / (a + r));
  }

  lemma SwappedQuotient(a: real, b: real, s: real)
    requires s != 0.0
    ensures (b / s) * a == (a / s) * b
  {
  }

  // ---- Positive definiteness of one axis ----

  lemma MediumPositive(a: real, b: real, c: real, dt: real)
    requires AxisPositiveDefinite(a, b, c)
    ensures a + dt * b + dt * dt * c / 3.0 > 0.0
  {
    var y, m := c * dt, a + dt * b + dt * dt * c / 3.0;
    SquareNonNegative(y + 1.5 * b);
    SquareNonNegative(b);
    assert (y + 1.5 * b) * (y + 1.5 * b) == y * y + 3.0 * (b * y) + 2.25 * (b * b);
    assert 3.0 * (c * m) == 3.0 * (a * c) + 3.0 * (b * y) + y * y by {
      assert c * m == c * a + c * (dt * b) + c * (dt * dt * c / 3.0);
      assert c * (dt * b) == b * y;
      assert c * (dt * dt * c / 3.0) == y * y / 3.0;
    }
    assert c * m > 0.0;
    if m <= 0.0 {
      ScaleNonNegative(c, -m);
    }
  }

  lemma ScaleNonNegative(x: real, y: real)
    requires x >= 0.0 && y >= 0.0
    ensures x * y >= 0.0 && x * -y <= 0.0
  {
  }

  // Shearing a covariance by the transition leaves its determinant alone.
  lemma ShearKeepsDeterminant(a: real, b: real, c: real, dt: real)
    ensures (a + 2.0 * dt * b + dt * dt * c) * c - (b + dt * c) * (b + dt * c) == a * c - b * b
  {
  }

  // det(P + N) = det P + det N + the mixed term.
  lemma DeterminantOfSum(a: real, b: real, c: real, x: real, y: real, z: real)
    ensures (a + x) * (c + z) - (b + y) * (b + y)
         == (a * c - b * b) + (x * z - y * y) + (a * z + c * x - 2.0 * (b * y))
  {
  }

  lemma NoiseTerms(a: real, b: real, c: real, q: real, dt: real)
    ensures var n1, n2, n3 := q * dt, q * (dt * dt) / 2.0, q * (dt * dt) * dt / 3.0;
            && n3 * n1 - n2 * n2 == (q * (dt * dt)) * (q * (dt * dt)) / 12.0
            && (a + 2.0 * dt * b + dt * dt * c) * n1 + c * n3 - 2.0 * ((b + dt * c) * n2)
            == (q * dt) * (a + dt * b + dt * dt * c / 3.0)
  {
  }

  /** The prediction keeps an axis positive definite, and the determinant can only grow. */
  lemma PredictKeepsDefinite(a: real, b: real, c: real, q: real, dt: real)
    requires AxisPositiveDefinite(a, b, c) && q > 0.0 && dt > 0.0
    ensures AxisPositiveDefinite(NextA(a, b, c, q, dt), NextB(b, c, q, dt), NextC(c, q, dt))
    ensures AxisDeterminant(NextA(a, b, c, q, dt), NextB(b, c, q, dt), NextC(c, q, dt)) >= AxisDeterminant(a, b, c)
  {
    var a1, b1 := a + 2.0 * dt * b + dt * dt * c, b + dt * c;
    var n1, n2, n3 := q * dt, q * (dt * dt) / 2.0, q * (dt * dt) * dt / 3.0;
    var m, d := dt * dt, a + dt * b + dt * dt * c / 3.0;
    ShearKeepsDeterminant(a, b, c, dt);
    SquareNonNegative(b1);
    assert a1 > 0.0 by {
      if a1 <= 0.0 {
        ScaleNonNegative(c, -a1);
      }
    }
    PositiveProduct(dt, dt, m);
    PositiveProduct(q, dt, n1);
    PositiveProduct(q, m, q * m);
    PositiveProduct(q * m, dt, q * m * dt);
    MediumPositive(a, b, c, dt);
    NoiseTerms(a, b, c, q, dt);
    SquareNonNegative(q * m);
    PositiveProduct(n1, d, n1 * d);
    DeterminantOfSum(a1, b1, c, n3, n2, n1);
  }

  lemma ReducedProduct(x: real, y: real, z: real, s: real)
    requires s != 0.0
    ensures Reduced(x, y, z, s) * s == x * s - y * z
  {
  }

  /** The update keeps an axis positive definite; the new position variance is a r/(a + r), below
      both a and r, and the determinant shrinks by exactly r/(a + r). */
  lemma UpdateKeepsDefinite(a: real, b: real, c: real, r: real)
    requires AxisPositiveDefinite(a, b, c) && r > 0.0
    ensures var s := a + r;
            var a', b', c' := Reduced(a, a, a, s), Reduced(b, a, b, s), Reduced(c, b, b, s);
            && AxisPositiveDefinite(a', b', c')
            && a' * s == a * r && a' < a && a' < r
            && AxisDeterminant(a', b', c') * s == r * AxisDeterminant(a, b, c)
  {
    var s := a + r;
    var a', b', c' := Reduced(a, a, a, s), Reduced(b, a, b, s), Reduced(c, b, b, s);
    ReducedProduct(a, a, a, s);
    ReducedProduct(b, a, b, s);
    ReducedProduct(c, b, b, s);
    PositiveProduct(a, r, a * r);
    PositiveProduct(a, a, a * a);
    PositiveProduct(r, r, r * r);
    PositiveProduct(c, r, c * r);
    assert a' * s == a * r && b' * s == b * r;
    assert c' * s == (a * c - b * b) + c * r;
    assert r * s == a * r + r * r && a * s == a * a + a * r;
    Smaller(a', a, s);
    Smaller(a', r, s);
    PositiveFactor(a', s);
    PositiveFactor(c', s);
    var d, d' := AxisDeterminant(a, b, c), AxisDeterminant(a', b', c');
    UpdatedDeterminant(a, b, c, r, s, a', b', c', d, d');
    PositiveProduct(r, d, r * d);
    PositiveFactor(d', s);
    assert AxisPositiveDefinite(a', b', c');
    assert a' * s == a * r && a' < a && a' < r;
  }

  lemma UpdatedDeterminant(a: real, b: real, c: real, r: real, s: real,
                           a': real, b': real, c': real, d: real, d': real)
    requires s == a + r && s != 0.0
    requires a' * s == a * r && b' * s == b * r && c' * s == d + c * r
    requires d == a * c - b * b && d' == a' * c' - b' * b'
    ensures d' * s == r * d
  {
  }

  lemma Cancelled(x: real, y: real, s: real)
    requires s != 0.0 && x * s == y * s
    ensures x == y
  {
  }

  lemma Smaller(x: real, y: real, s: real)
    requires s > 0.0 && x * s < y * s
    ensures x < y
  {
  }

  lemma PositiveFactor(x: real, s: real)
    requires s > 0.0 && x * s > 0.0
    ensures x > 0.0
  {
  }

  // ---- One cycle of the 4-state filter ----

  lemma MoveBlock(x: Vec4, k: real, l: real, y0: real, y1: real)
    ensures Plus(x, Apply(Mat4(Vec4(k, 0.0, 0.0, 0.0), Vec4(0.0, k, 0.0, 0.0),
                               Vec4(l, 0.0, 0.0, 0.0), Vec4(0.0, l, 0.0, 0.0)), Vec4(y0, y1, 0.0, 0.0)))
         == Vec4(x.v0 + k * y0, x.v1 + k * y1, x.v2 + l * y0, x.v3 + l * y1)
  {
  }

  lemma EstimateBlock(x: Vec4, a: real, b: real, c: real, r: real, lat: real, lng: real)
    requires a + r >= 1.0
    ensures var s := a + r;
            UpdateEstimate(x, Block(a, b, c), r, lat, lng) ==
            Vec4(Corrected(x.v0, a, lat - x.v0, s), Corrected(x.v1, a, lng - x.v1, s),
                 Corrected(x.v2, b, lat - x.v0, s), Corrected(x.v3, b, lng - x.v1, s))
  {
    hide GainMatrix, Apply, Plus;
    GainBlock(a, b, c, r);
    MoveBlock(x, a / (a + r), b / (a + r), lat - x.v0, lng - x.v1);
  }

  lemma MoveForward(x: Vec4, dt: real)
    ensures Apply(Transition(dt), x) == Vec4(x.v0 + x.v2 * dt, x.v1 + x.v3 * dt, x.v2, x.v3)
  {
  }

  /** The prediction: both axes move like the 2-state filter, and stay decoupled. */
  lemma PriorDecoupled(s: FilterState, o: Observation)
    requires Decoupled(s.p) && s.q > 0.0
    ensures var s0 := if s.initialised then s else Seed(s, o.lat, o.lng, o.t);
            var dt := TimeStep(s0.lastTime, o.t);
            && Decoupled(Prior(s, o).p) && Prior(s, o).q == s.q
            && LatAxis(Prior(s, o)) == AxisPredict(LatAxis(s0), s.q, dt)
            && LngAxis(Prior(s, o)) == AxisPredict(LngAxis(s0), s.q, dt)
  {
    var s0 := if s.initialised then s else Seed(s, o.lat, o.lng, o.t);
    var dt := TimeStep(s0.lastTime, o.t);
    var a, b, c := s.p.r0.v0, s.p.r0.v2, s.p.r2.v2;
    hide PredictCovariance, Apply, NextA, NextB, NextC, AxisPositiveDefinite;
    PredictBlock(a, b, c, s.q, dt);
    PredictKeepsDefinite(a, b, c, s.q, dt);
    MoveForward(s0.x, dt);
  }

  /** The determinant that is inverted is the square of one axis's S, and at least r^2 >= 25: its
      guard never acts. */
  lemma DeterminantNeverGuarded(p: Mat4, r: real)
    requires Decoupled(p) && r >= 5.0
    ensures var i, s := InnovationCovariance(p, r), p.r0.v0 + r;
            Determinant(i) == s * s && GuardedDeterminant(i) == Determinant(i) >= r * r >= 25.0
  {
  }

  /** The update, on any prior the filter can reach: both axes are corrected like the 2-state
      filter and stay decoupled, and both position variances fall below r and below the prediction. */
  lemma MeasuredDecoupled(s1: FilterState, r: real, lat: real, lng: real)
    requires Decoupled(s1.p) && r >= 5.0
    ensures var s' := Measure(s1, r, lat, lng);
            && Decoupled(s'.p)
            && LatAxis(s') == AxisUpdate(LatAxis(s1), r, lat)
            && LngAxis(s') == AxisUpdate(LngAxis(s1), r, lng)
            && s'.p.r0.v0 == s'.p.r1.v1 < s1.p.r0.v0 == s1.p.r1.v1
            && s'.p.r0.v0 < r
  {
    var a, b, c := s1.p.r0.v0, s1.p.r0.v2, s1.p.r2.v2;
    hide UpdateCovariance, UpdateEstimate, Reduced, Corrected, AxisDeterminant;
    UpdateBlock(a, b, c, r);
    EstimateBlock(s1.x, a, b, c, r, lat, lng);
    DefiniteAfterUpdate(a, b, c, r);
  }

  lemma DefiniteAfterUpdate(a: real, b: real, c: real, r: real)
    requires AxisPositiveDefinite(a, b, c) && r > 0.0
    ensures var s := a + r;
            && AxisPositiveDefinite(Reduced(a, a, a, s), Reduced(b, a, b, s), Reduced(c, b, b, s))
            && Reduced(a, a, a, s) < a && Reduced(a, a, a, s) < r
  {
    UpdateKeepsDefinite(a, b, c, r);
  }

  // ---- Runs ----

  function Run(s: FilterState, obs: seq<Observation>): FilterState {
    if obs == [] then s else Cycle(Run(s, obs[..|obs| - 1]), obs[|obs| - 1])
  }

  /** Every covariance a filter with a non-negative noise factor can reach is decoupled. */
  lemma {:induction false} RunsStayDecoupled(q: real, t0: real, obs: seq<Observation>)
    requires q >= 0.0
    ensures var s := Run(InitialState(q, t0), obs);
            Decoupled(s.p) && s.q == NoiseFactor(q) > 0.0
  {
    if obs != [] {
      var s, o := Run(InitialState(q, t0), obs[..|obs| - 1]), obs[|obs| - 1];
      RunsStayDecoupled(q, t0, obs[..|obs| - 1]);
      PriorDecoupled(s, o);
      MeasuredDecoupled(Prior(s, o), MeasurementNoise(o.accuracy), o.lat, o.lng);
    }
  }

  lemma BlockQuadraticForm(a: real, b: real, c: real, v: Vec4)
    ensures Dot(v, Apply(Block(a, b, c), v))
         == (a * (v.v0 * v.v0) + 2.0 * (b * (v.v0 * v.v2)) + c * (v.v2 * v.v2))
          + (a * (v.v1 * v.v1) + 2.0 * (b * (v.v1 * v.v3)) + c * (v.v3 * v.v3))
  {
  }

  lemma AxisQuadraticForm(a: real, b: real, c: real, x: real, y: real)
    requires AxisPositiveDefinite(a, b, c)
    ensures a * (x * x) + 2.0 * (b * (x * y)) + c * (y * y) >= 0.0
    ensures (x != 0.0 || y != 0.0) ==> a * (x * x) + 2.0 * (b * (x * y)) + c * (y * y) > 0.0
  {
    var f := a * (x * x) + 2.0 * (b * (x * y)) + c * (y * y);
    var w, d, y2 := a * x + b * y, AxisDeterminant(a, b, c), y * y;
    assert a * f == w * w + d * y2;
    SquareNonNegative(w);
    SquareNonNegative(y);
    ScaleNonNegative(d, y2);
    if f < 0.0 {
      PositiveProduct(a, -f, a * -f);
    }
    if y != 0.0 && f == 0.0 {
      NonZeroSquare(y, y2);
      PositiveProduct(d, y2, d * y2);
    } else if x != 0.0 && y == 0.0 {
      var x2 := x * x;
      NonZeroSquare(x, x2);
      PositiveProduct(a, x2, a * x2);
    }
  }

  lemma NonZeroSquare(x: real, p: real)
    requires x != 0.0 && p == x * x
    ensures p > 0.0
  {
    if x > 0.0 {
      PositiveProduct(x, x, p);
    } else {
      PositiveProduct(-x, -x, p);
    }
  }

  lemma DecoupledIsDefinite(p: Mat4)
    requires Decoupled(p)
    ensures Symmetric(p) && PositiveDefinite(p)
  {
    var a, b, c := p.r0.v0, p.r0.v2, p.r2.v2;
    forall v: Vec4 | v != ZERO
      ensures Dot(v, Apply(p, v)) > 0.0
    {
      BlockQuadraticForm(a, b, c, v);
      hide Dot, AxisDeterminant;
      AxisQuadraticForm(a, b, c, v.v0, v.v2);
      AxisQuadraticForm(a, b, c, v.v1, v.v3);
    }
  }

  /** Main invariant. In every state a filter with q >= 0 reaches, the covariance is symmetric and
      positive definite with all cross-axis entries 0 and equal axes; and whatever is measured next,
      the inverted determinant is at least r^2 >= 25, and the position variances strictly fall below
      both their predictions and r. */
  lemma CovarianceOnEveryRun(q: real, t0: real, obs: seq<Observation>, o: Observation)
    requires q >= 0.0
    ensures var s := Run(InitialState(q, t0), obs);
            var s1, s', r := Prior(s, o), Cycle(s, o), MeasurementNoise(o.accuracy);
            var i := InnovationCovariance(s1.p, r);
            && Symmetric(s.p) && PositiveDefinite(s.p)
            && s.p.r0.v1 == s.p.r0.v3 == s.p.r1.v0 == s.p.r1.v2 == 0.0
            && s.p.r2.v1 == s.p.r2.v3 == s.p.r3.v0 == s.p.r3.v2 == 0.0
            && s.p.r0.v0 == s.p.r1.v1 && s.p.r0.v2 == s.p.r1.v3 && s.p.r2.v2 == s.p.r3.v3
            && GuardedDeterminant(i) == Determinant(i) >= r * r >= 25.0
            && s'.p.r0.v0 < s1.p.r0.v0 && s'.p.r0.v0 < r
            && s'.p.r1.v1 < s1.p.r1.v1 && s'.p.r1.v1 < r
  {
    var s := Run(InitialState(q, t0), obs);
    RunsStayDecoupled(q, t0, obs);
    DecoupledIsDefinite(s.p);
    BlockEntries(s.p);
    hide PositiveDefinite, Symmetric, Block, Run;
    NextCycle(s, o);
  }

  lemma BlockEntries(p: Mat4)
    requires Decoupled(p)
    ensures p.r0.v1 == p.r0.v3 == p.r1.v0 == p.r1.v2 == p.r2.v1 == p.r2.v3 == p.r3.v0 == p.r3.v2 == 0.0
    ensures p.r0.v0 == p.r1.v1 && p.r0.v2 == p.r1.v3 && p.r2.v2 == p.r3.v3
  {
  }

  lemma NextCycle(s: FilterState, o: Observation)
    requires Decoupled(s.p) && s.q > 0.0
    ensures var s1, s', r := Prior(s, o), Cycle(s, o), MeasurementNoise(o.accuracy);
            var i := InnovationCovariance(s1.p, r);
            && GuardedDeterminant(i) == Determinant(i) >= r * r >= 25.0
            && s'.p.r0.v0 < s1.p.r0.v0 && s'.p.r0.v0 < r
            && s'.p.r1.v1 < s1.p.r1.v1 && s'.p.r1.v1 < r
  {
    hide Prior, Measure, MeasurementNoise, InnovationCovariance, Determinant, GuardedDeterminant;
    hide Decoupled, AxisUpdate, AxisPredict, LatAxis, LngAxis;
    var r := MeasurementNoise(o.accuracy);
    PriorDecoupled(s, o);
    DeterminantNeverGuarded(Prior(s, o).p, r);
    MeasuredDecoupled(Prior(s, o), r, o.lat, o.lng);
  }

  // ---- The 4-state filter is two 2-state filters ----

  datatype AxisState = AxisState(x: Axis, q: real, lastTime: real, initialised: bool)

  datatype AxisObservation = AxisObservation(z: real, accuracy: real, t: real)

  function AxisStart(q: real, t0: real): AxisState {
    AxisState(Axis(0.0, 0.0, 10.0, 0.0, 100.0), NoiseFactor(q), t0, false)
  }

  function AxisCycle(s: AxisState, o: AxisObservation): AxisState {
    var s0 := if s.initialised then s else s.(x := s.x.(pos := o.z, vel := 0.0), lastTime := o.t);
    var x1 := AxisPredict(s0.x, s.q, TimeStep(s0.lastTime, o.t));
    var r := MeasurementNoise(o.accuracy);
    AxisState(if x1.a + r == 0.0 then x1 else AxisUpdate(x1, r, o.z), s.q, o.t, true)
  }

  function AxisRun(s: AxisState, obs: seq<AxisObservation>): AxisState {
    if obs == [] then s else AxisCycle(AxisRun(s, obs[..|obs| - 1]), obs[|obs| - 1])
  }

  function Lats(obs: seq<Observation>): seq<AxisObservation> {
    seq(|obs|, i requires 0 <= i < |obs| => AxisObservation(obs[i].lat, obs[i].accuracy, obs[i].t))
  }

  function Lngs(obs: seq<Observation>): seq<AxisObservation> {
    seq(|obs|, i requires 0 <= i < |obs| => AxisObservation(obs[i].lng, obs[i].accuracy, obs[i].t))
  }

  ghost predicate AxesAgree(s: FilterState, lat: AxisState, lng: AxisState) {
    && lat == AxisState(LatAxis(s), s.q, s.lastTime, s.initialised)
    && lng == AxisState(LngAxis(s), s.q, s.lastTime, s.initialised)
  }

  lemma CycleSplits(s: FilterState, lat: AxisState, lng: AxisState, o: Observation)
    requires Decoupled(s.p) && s.q > 0.0 && AxesAgree(s, lat, lng)
    ensures AxesAgree(Cycle(s, o),
                      AxisCycle(lat, AxisObservation(o.lat, o.accuracy, o.t)),
                      AxisCycle(lng, AxisObservation(o.lng, o.accuracy, o.t)))
  {
    PriorDecoupled(s, o);
    MeasuredDecoupled(Prior(s, o), MeasurementNoise(o.accuracy), o.lat, o.lng);
    hide Measure, AxisUpdate, AxisPredict, PredictCovariance, Apply;
  }

  lemma LastObservation(obs: seq<Observation>)
    requires obs != []
    ensures var n := |obs| - 1;
            && Lats(obs)[..n] == Lats(obs[..n])
            && Lats(obs)[n] == AxisObservation(obs[n].lat, obs[n].accuracy, obs[n].t)
            && Lngs(obs)[..n] == Lngs(obs[..n])
            && Lngs(obs)[n] == AxisObservation(obs[n].lng, obs[n].accuracy, obs[n].t)
  {
  }

  /** On every run, the 4-state filter is two 2-state filters that never exchange information. */
  lemma {:induction false} TwoIndependentFilters(q: real, t0: real, obs: seq<Observation>)
    requires q >= 0.0
    ensures AxesAgree(Run(InitialState(q, t0), obs),
                      AxisRun(AxisStart(q, t0), Lats(obs)), AxisRun(AxisStart(q, t0), Lngs(obs)))
  {
    if obs == [] {
      assert AxesAgree(InitialState(q, t0), AxisStart(q, t0), AxisStart(q, t0));
    } else {
      hide Cycle, AxisCycle, AxesAgree, Decoupled, InitialState, AxisStart, NoiseFactor;
      var before, o := obs[..|obs| - 1], obs[|obs| - 1];
      TwoIndependentFilters(q, t0, before);
      RunsStayDecoupled(q, t0, before);
      LastObservation(obs);
      assert |Lats(obs)| == |Lngs(obs)| == |obs|;
      hide Lats, Lngs;
      CycleSplits(Run(InitialState(q, t0), before), AxisRun(AxisStart(q, t0), Lats(before)),
                  AxisRun(AxisStart(q, t0), Lngs(before)), o);
    }
  }

  // ---- Smoothing ----

  ghost predicate Between(x: real, a: real, b: real) {
    && (a < b ==> a < x < b)
    && (b < a ==> b < x < a)
    && (a == b ==> x == a)
  }

  lemma CorrectedBetween(pos: real, a: real, r: real, z: real)
    requires a > 0.0 && r > 0.0
    ensures Between(Corrected(pos, a, z - pos, a + r), pos, z)
  {
    var s, d := a + r, z - pos;
    var k := a / s;
    assert k * s == a;
    PositiveFactor(k, s);
    Smaller(k, 1.0, s);
    var kd, ld := k * d, (1.0 - k) * d;
    assert kd + ld == d;
    if d > 0.0 {
      PositiveProduct(k, d, kd);
      PositiveProduct(1.0 - k, d, ld);
    } else if d < 0.0 {
      PositiveProduct(k, -d, -kd);
      PositiveProduct(1.0 - k, -d, -ld);
    } else {
      assert kd == 0.0;
    }
  }

  /** Each smoothed coordinate lies strictly between the predicted and the measured one. */
  lemma SmoothedBetweenPredictedAndMeasured(q: real, t0: real, obs: seq<Observation>, o: Observation)
    requires q >= 0.0
    ensures var s := Run(InitialState(q, t0), obs);
            && Between(Cycle(s, o).x.v0, Prior(s, o).x.v0, o.lat)
            && Between(Cycle(s, o).x.v1, Prior(s, o).x.v1, o.lng)
  {
    var s := Run(InitialState(q, t0), obs);
    RunsStayDecoupled(q, t0, obs);
    hide Run;
    SmoothedBetween(s, o);
  }

  lemma SmoothedBetween(s: FilterState, o: Observation)
    requires Decoupled(s.p) && s.q > 0.0
    ensures Between(Cycle(s, o).x.v0, Prior(s, o).x.v0, o.lat)
    ensures Between(Cycle(s, o).x.v1, Prior(s, o).x.v1, o.lng)
  {
    PriorDecoupled(s, o);
    hide Prior, Measure, Corrected, Reduced, AxisPredict, AxisDeterminant, Between;
    var s1, r := Prior(s, o), MeasurementNoise(o.accuracy);
    BlockEntries(s1.p);
    MeasuredDecoupled(s1, r, o.lat, o.lng);
    CorrectedBetween(s1.x.v0, s1.p.r0.v0, r, o.lat);
    CorrectedBetween(s1.x.v1, s1.p.r0.v0, r, o.lng);
  }

  // ---- One cycle in plain numbers ----

  // A measurement z with noise r: position and velocity move by the fractions a/(a + r) and b/(a + r) of
  // the distance between z and the predicted position, and the variances shrink to match.
  ghost predicate Weighed(x: Axis, y: Axis, z: real, r: real) {
    && (y.pos - x.pos) * (x.a + r) == x.a * (z - x.pos)
    && (y.vel - x.vel) * (x.a + r) == x.b * (z - x.pos)
    && y.a * (x.a + r) == x.a * r
    && y.b * (x.a + r) == x.b * r
    && y.c * (x.a + r) == x.c * (x.a + r) - x.b * x.b
  }

  // dt seconds at constant velocity, under white-noise acceleration of factor q.
  ghost predicate Carried(x: Axis, y: Axis, q: real, dt: real) {
    && y.pos == x.pos + x.vel * dt && y.vel == x.vel
    && y.a == x.a + 2.0 * dt * x.b + dt * dt * x.c + q * (dt * dt) * dt / 3.0
    && y.b == x.b + dt * x.c + q * (dt * dt) / 2.0
    && y.c == x.c + q * dt
  }

  lemma CorrectedMoves(x: real, b: real, y: real, s: real)
    requires s != 0.0
    ensures (Corrected(x, b, y, s) - x) * s == b * y
  {
    var k := b / s;
    assert k * s == b;
    assert (k * y) * s == (k * s) * y;
  }

  lemma UpdateWeighs(x: Axis, r: real, z: real)
    requires x.a + r != 0.0
    ensures Weighed(x, AxisUpdate(x, r, z), z, r)
  {
    var s, y := x.a + r, z - x.pos;
    var a, b, c := x.a, x.b, x.c;
    hide Corrected, Reduced;
    CorrectedMoves(x.pos, a, y, s);
    CorrectedMoves(x.vel, b, y, s);
    ReducedProduct(a, a, a, s);
    ReducedProduct(b, a, b, s);
    ReducedProduct(c, b, b, s);
    assert a * s == a * a + a * r && b * s == b * a + b * r;
  }

  lemma PredictCarries(x: Axis, q: real, dt: real)
    ensures Carried(x, AxisPredict(x, q, dt), q, dt)
  {
  }

  /** On every run a measurement weighs in with the noise that its accuracy calls for: 5 up to 10 m, and
      half the accuracy beyond. */
  lemma MeasurementOnEveryRun(q: real, t0: real, obs: seq<Observation>, o: Observation)
    requires q >= 0.0
    ensures var s := Run(InitialState(q, t0), obs);
            var r := if o.accuracy <= 10.0 then 5.0 else o.accuracy / 2.0;
            && Weighed(LatAxis(Prior(s, o)), LatAxis(Cycle(s, o)), o.lat, r)
            && Weighed(LngAxis(Prior(s, o)), LngAxis(Cycle(s, o)), o.lng, r)
  {
    RunsStayDecoupled(q, t0, obs);
    hide Run, Weighed;
    MeasurementWeighs(Run(InitialState(q, t0), obs), o);
  }

  lemma MeasurementWeighs(s: FilterState, o: Observation)
    requires Decoupled(s.p) && s.q > 0.0
    ensures var r := if o.accuracy <= 10.0 then 5.0 else o.accuracy / 2.0;
            && Weighed(LatAxis(Prior(s, o)), LatAxis(Cycle(s, o)), o.lat, r)
            && Weighed(LngAxis(Prior(s, o)), LngAxis(Cycle(s, o)), o.lng, r)
  {
    hide Weighed, Prior, Measure, AxisUpdate, AxisPredict;
    var s1, r := Prior(s, o), MeasurementNoise(o.accuracy);
    PriorDecoupled(s, o);
    BlockEntries(s1.p);
    assert LatAxis(s1).a > 0.0 && LngAxis(s1).a > 0.0;
    MeasuredDecoupled(s1, r, o.lat, o.lng);
    UpdateWeighs(LatAxis(s1), r, o.lat);
    UpdateWeighs(LngAxis(s1), r, o.lng);
  }

  /** On every run the prediction carries both axes on by exactly the time since the last measurement, and
      by 0.1 s when there is none before or the clock has not moved on. The first measurement is compared
      with itself, at the initial variances 10 and 100; a noise factor of 0 counts as 1. */
  lemma PredictionOnEveryRun(q: real, t0: real, obs: seq<Observation>, o: Observation)
    requires q >= 0.0
    ensures var s, n := Run(InitialState(q, t0), obs), |obs|;
            var dt := if n > 0 && o.t > obs[n - 1].t then o.t - obs[n - 1].t else 0.1;
            var f := if q == 0.0 then 1.0 else q;
            && Carried(if n == 0 then Axis(o.lat, 0.0, 10.0, 0.0, 100.0) else LatAxis(s), LatAxis(Prior(s, o)), f, dt)
            && Carried(if n == 0 then Axis(o.lng, 0.0, 10.0, 0.0, 100.0) else LngAxis(s), LngAxis(Prior(s, o)), f, dt)
  {
    hide Carried, Prior, Cycle, NoiseFactor;
    var s := Run(InitialState(q, t0), obs);
    RunsStayDecoupled(q, t0, obs);
    LastMeasured(q, t0, obs);
    hide Run, Decoupled;
    PredictionCarries(s, o);
    DefaultFactor(q);
  }

  lemma DefaultFactor(q: real)
    ensures NoiseFactor(q) == if q == 0.0 then 1.0 else q
  {
  }

  lemma PredictionCarries(s: FilterState, o: Observation)
    requires Decoupled(s.p) && s.q > 0.0
    ensures var s0 := if s.initialised then s else Seed(s, o.lat, o.lng, o.t);
            && Carried(LatAxis(s0), LatAxis(Prior(s, o)), s.q, TimeStep(s0.lastTime, o.t))
            && Carried(LngAxis(s0), LngAxis(Prior(s, o)), s.q, TimeStep(s0.lastTime, o.t))
  {
    PriorDecoupled(s, o);
    hide Carried, Prior, AxisPredict, Decoupled;
    var s0 := if s.initialised then s else Seed(s, o.lat, o.lng, o.t);
    PredictCarries(LatAxis(s0), s.q, TimeStep(s0.lastTime, o.t));
    PredictCarries(LngAxis(s0), s.q, TimeStep(s0.lastTime, o.t));
  }

  lemma LastMeasured(q: real, t0: real, obs: seq<Observation>)
    ensures var s := Run(InitialState(q, t0), obs);
            if obs == [] then s == InitialState(q, t0) else s.initialised && s.lastTime == obs[|obs| - 1].t
  {
    hide PredictCovariance, UpdateCovariance, UpdateEstimate, Apply, MeasurementNoise, TimeStep;
  }

  // ---- Exactly which noise factors are safe ----

  lemma NotDefinite(a: real, b: real, c: real)
    requires c <= 0.0
    ensures !PositiveDefinite(Block(a, b, c))
  {
    var v := Vec4(0.0, 0.0, 1.0, 0.0);
    BlockQuadraticForm(a, b, c, v);
    hide Apply;
    assert Dot(v, Apply(Block(a, b, c), v)) == c;
    assert v != ZERO;
  }

  // An accuracy poor enough for any prior variance.
  function PoorAccuracy(a: real): (accuracy: real)
    ensures a + MeasurementNoise(accuracy) >= 1.0
  {
    if a >= 0.0 then 10.0 else 2.0 * (6.0 - a)
  }

  lemma CycleOfBlock(s: FilterState, dt: real, t: real) returns (o: Observation)
    requires s.p == Block(s.p.r0.v0, s.p.r0.v2, s.p.r2.v2)
    requires TimeStep(if s.initialised then s.lastTime else t, t) == dt
    ensures var a, b, c := s.p.r0.v0, s.p.r0.v2, s.p.r2.v2;
            var a1, b1, c1 := NextA(a, b, c, s.q, dt), NextB(b, c, s.q, dt), NextC(c, s.q, dt);
            var s' := a1 + MeasurementNoise(o.accuracy);
            && o.t == t && s' >= 1.0
            && Cycle(s, o).p == Block(Reduced(a1, a1, a1, s'), Reduced(b1, a1, b1, s'), Reduced(c1, b1, b1, s'))
            && Cycle(s, o).lastTime == t && Cycle(s, o).initialised && Cycle(s, o).q == s.q
  {
    var a, b, c := s.p.r0.v0, s.p.r0.v2, s.p.r2.v2;
    var a1, b1, c1 := NextA(a, b, c, s.q, dt), NextB(b, c, s.q, dt), NextC(c, s.q, dt);
    o := Observation(0.0, 0.0, PoorAccuracy(a1), t);
    hide PredictCovariance, UpdateCovariance, UpdateEstimate, Apply, NextA, NextB, NextC, Reduced;
    PredictBlock(a, b, c, s.q, dt);
    UpdateBlock(a1, b1, c1, MeasurementNoise(o.accuracy));
  }

  lemma NegativeNoiseBreaks(q: real, t0: real) returns (obs: seq<Observation>)
    requires q < 0.0
    ensures !PositiveDefinite(Run(InitialState(q, t0), obs).p)
  {
    hide Cycle, PositiveDefinite, Block, INITIAL_COVARIANCE;
    var s0 := InitialState(q, t0);
    var o1 := FirstCycle(q, t0);
    assert [o1][..0] == [];
    var s1 := Cycle(s0, o1);
    assert Run(s0, [o1]) == s1;
    if s1.p.r2.v2 <= 0.0 {
      NotDefinite(s1.p.r0.v0, s1.p.r0.v2, s1.p.r2.v2);
      obs := [o1];
    } else {
      var o2 := DrainVelocity(s1);
      obs := [o1, o2];
      assert obs[..1] == [o1];
    }
  }

  lemma FirstCycle(q: real, t0: real) returns (o: Observation)
    ensures var s := Cycle(InitialState(q, t0), o);
            && s.p == Block(s.p.r0.v0, s.p.r0.v2, s.p.r2.v2)
            && s.q == NoiseFactor(q) && s.initialised
  {
    hide Cycle, Reduced, NextA, NextB, NextC;
    assert INITIAL_COVARIANCE == Block(10.0, 0.0, 100.0);
    o := CycleOfBlock(InitialState(q, t0), 0.1, t0);
  }

  // After c/|q| seconds the predicted velocity variance is 0, and the update lowers it further.
  lemma DrainVelocity(s: FilterState) returns (o: Observation)
    requires s.p == Block(s.p.r0.v0, s.p.r0.v2, s.p.r2.v2) && s.p.r2.v2 > 0.0
    requires s.q < 0.0 && s.initialised
    ensures !PositiveDefinite(Cycle(s, o).p)
  {
    hide Cycle, Reduced, PositiveDefinite, NextA, NextB;
    var c := s.p.r2.v2;
    var dt := DrainTime(c, s.q);
    o := CycleOfBlock(s, dt, s.lastTime + dt);
    var p := Cycle(s, o).p;
    DropsToNegative(NextB(s.p.r0.v2, c, s.q, dt),
                    NextA(s.p.r0.v0, s.p.r0.v2, c, s.q, dt) + MeasurementNoise(o.accuracy));
    NotDefinite(p.r0.v0, p.r0.v2, p.r2.v2);
  }

  lemma DrainTime(c: real, q: real) returns (dt: real)
    requires c > 0.0 && q < 0.0
    ensures dt > 0.0 && NextC(c, q, dt) == 0.0
  {
    var p := -q;
    dt := c / p;
    assert dt * p == c;
    PositiveFactor(dt, p);
    assert q * dt == -(dt * p);
  }

  lemma DropsToNegative(b: real, s: real)
    requires s > 0.0
    ensures Reduced(0.0, b, b, s) <= 0.0
  {
  }

  /** The covariance stays positive definite on every run exactly when q is not negative. */
  lemma DefiniteOnEveryRunIff(q: real, t0: real)
    ensures (forall obs: seq<Observation> :: PositiveDefinite(Run(InitialState(q, t0), obs).p)) <==> q >= 0.0
  {
    if q >= 0.0 {
      forall obs: seq<Observation>
        ensures PositiveDefinite(Run(InitialState(q, t0), obs).p)
      {
        RunsStayDecoupled(q, t0, obs);
        DecoupledIsDefinite(Run(InitialState(q, t0), obs).p);
      }
    } else {
      var obs := NegativeNoiseBreaks(q, t0);
    }
  }
}
