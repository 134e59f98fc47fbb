/** Price elasticity per area: a log-log regression over the last observations, and the surge cap
    that follows from its slope. Logarithms are a given function. */
module Elasticity {
  import opened Collections
  import opened Reals

  datatype Point = Point(price: real, quantity: real)

  // A point on the logarithmic scale.
  datatype Obs = Obs(x: real, y: real)

  const MAX_POINTS: nat := 100

  // ---- The window ----

  datatype Observation = Observation(area: string, loadRatio: real, surgeMult: real)

  function ByArea(log: seq<Observation>, area: string): seq<Point> {
    if log == [] then []
    else
      var last := log[|log| - 1];
      var before := ByArea(log[..|log| - 1], area);
      if last.area == area then before + [Point(last.surgeMult, last.loadRatio)] else before
  }

  // ---- The regression ----

  datatype Sums = Sums(n: real, x: real, y: real, xy: real, xx: real)

  function Square(a: real): real {
    a * a
  }

  function Product(a: real, b: real): real {
    a * b
  }

  function Plus(t: Sums, o: Obs): Sums {
    Sums(t.n + 1.0, t.x + o.x, t.y + o.y, t.xy + Product(o.x, o.y), t.xx + Square(o.x))
  }

  function SumsOf(s: seq<Obs>): Sums {
    if s == [] then Sums(0.0, 0.0, 0.0, 0.0, 0.0) else Plus(SumsOf(s[..|s| - 1]), s[|s| - 1])
  }

  // Points with a positive price and a positive quantity, on the logarithmic scale.
  function Usable(pts: seq<Point>, ln: real -> real): seq<Obs> {
    if pts == [] then []
    else
      var p, before := pts[|pts| - 1], Usable(pts[..|pts| - 1], ln);
      if p.price <= 0.0 || p.quantity <= 0.0 then before else before + [Obs(ln(p.price), ln(p.quantity))]
  }

  function Denominator(t: Sums): real {
    Product(t.n, t.xx) - Square(t.x)
  }

  function Numerator(t: Sums): real {
    Product(t.n, t.xy) - Product(t.x, t.y)
  }

  function Slope(s: seq<Obs>): real {
    var t := SumsOf(s);
    if t.n < 2.0 || Denominator(t) == 0.0 then 0.0 else Numerator(t) / Denominator(t)
  }

  lemma {:induction false} CountIsLength(s: seq<Obs>)
    ensures SumsOf(s).n == |s| as real
  {
    if s != [] {
      CountIsLength(s[..|s| - 1]);
    }
  }

  // ---- The denominator ----

  // Sum of the squared distances of the x values from x.
  function Spread(s: seq<Obs>, x: real): real {
    if s == [] then 0.0 else Spread(s[..|s| - 1], x) + Square(s[|s| - 1].x - x)
  }

  // The same from the sums.
  function SpreadForm(t: Sums, x: real): real {
    t.xx - 2.0 * Product(t.x, x) + Product(t.n, Square(x))
  }

  predicate AllAt(s: seq<Obs>, x: real) {
    forall i :: 0 <= i < |s| ==> s[i].x == x
  }

  lemma SquareSign(a: real)
    ensures Square(a) >= 0.0 && (Square(a) == 0.0 <==> a == 0.0)
  {
    if a == 0.0 {
      assert Square(0.0) == 0.0;
    } else {
      var m := if a > 0.0 then a else -a;
      assert Square(a) == m * m;
      PositiveProduct(m, m, Square(a));
    }
  }

  lemma {:induction false} SpreadSign(s: seq<Obs>, x: real)
    ensures Spread(s, x) >= 0.0 && (Spread(s, x) == 0.0 <==> AllAt(s, x))
  {
    hide Square;
    if s != [] {
      var last := |s| - 1;
      SpreadSign(s[..last], x);
      SquareSign(s[last].x - x);
      assert AllAt(s, x) <==> AllAt(s[..last], x) && s[last].x == x;
    }
  }

  lemma Distribute(a: real, b: real, c: real)
    ensures Product(a + b, c) == Product(a, c) + Product(b, c)
    ensures Product(c, a + b) == Product(c, a) + Product(c, b)
  {
  }

  lemma SpreadStep(t: Sums, o: Obs, x: real)
    ensures SpreadForm(Plus(t, o), x) == SpreadForm(t, x) + Square(o.x - x)
  {
  }

  lemma {:induction false} SpreadIs(s: seq<Obs>, x: real)
    ensures Spread(s, x) == SpreadForm(SumsOf(s), x)
  {
    if s == [] {
      assert Product(0.0, x) == 0.0 && Product(0.0, Square(x)) == 0.0;
    } else {
      SpreadIs(s[..|s| - 1], x);
      SpreadStep(SumsOf(s[..|s| - 1]), s[|s| - 1], x);
      hide Square, Product, SpreadForm, Plus;
    }
  }

  lemma DenominatorStep(t: Sums, o: Obs)
    ensures Denominator(Plus(t, o)) == Denominator(t) + SpreadForm(t, o.x)
  {
  }

  /** The denominator is never negative, and it is zero exactly when all usable log-prices are
      equal. */
  lemma {:induction false} DenominatorSign(s: seq<Obs>)
    ensures Denominator(SumsOf(s)) >= 0.0
    ensures Denominator(SumsOf(s)) == 0.0 <==> forall i, j :: 0 <= i < j < |s| ==> s[i].x == s[j].x
  {
    if s == [] {
      assert Product(0.0, 0.0) == 0.0;
    } else {
      var before, o := s[..|s| - 1], s[|s| - 1];
      DenominatorSign(before);
      SpreadSign(before, o.x);
      SpreadIs(before, o.x);
      DenominatorStep(SumsOf(before), o);
      hide Denominator, Spread, SpreadForm, Plus;
      AllEqualStep(s);
    }
  }

  lemma AllEqualStep(s: seq<Obs>)
    requires s != []
    ensures var before, o := s[..|s| - 1], s[|s| - 1];
            (forall i, j :: 0 <= i < j < |s| ==> s[i].x == s[j].x) <==>
            (forall i, j :: 0 <= i < j < |before| ==> before[i].x == before[j].x) && AllAt(before, o.x)
  {
  }

  // ---- The slope ----

  predicate OnLine(t: Sums, a: real, b: real) {
    t.y == Product(t.n, a) + Product(b, t.x) && t.xy == Product(a, t.x) + Product(b, t.xx)
  }

  lemma LineStep(t: Sums, o: Obs, a: real, b: real)
    requires OnLine(t, a, b) && o.y == a + Product(b, o.x)
    ensures OnLine(Plus(t, o), a, b)
  {
    Distribute(t.n, 1.0, a);
    Distribute(t.x, o.x, b);
    Distribute(t.x, o.x, a);
    Distribute(t.xx, Square(o.x), b);
    Distribute(a, Product(b, o.x), o.x);
    assert Product(1.0, a) == a;
    assert Product(o.x, Product(b, o.x)) == Product(b, Square(o.x));
    hide Square, Product;
  }

  lemma {:induction false} LineSums(s: seq<Obs>, a: real, b: real)
    requires forall i :: 0 <= i < |s| ==> s[i].y == a + Product(b, s[i].x)
    ensures OnLine(SumsOf(s), a, b)
  {
    if s == [] {
      assert Product(0.0, a) == Product(b, 0.0) == Product(a, 0.0) == 0.0;
    } else {
      hide OnLine, Plus, Product;
      var last := |s| - 1;
      assert forall i :: 0 <= i < last ==> s[..last][i] == s[i];
      LineSums(s[..last], a, b);
      LineStep(SumsOf(s[..last]), s[last], a, b);
    }
  }

  lemma Commute(a: real, b: real, c: real)
    ensures Product(a, b) == Product(b, a) && Product(a, Product(b, c)) == Product(b, Product(a, c))
  {
  }

  lemma LineNumerator(t: Sums, a: real, b: real)
    requires OnLine(t, a, b)
    ensures Numerator(t) == Product(b, Denominator(t))
  {
  }

  lemma Quotient(p: real, b: real, d: real)
    requires d != 0.0 && p == Product(b, d)
    ensures p / d == b
  {
  }

  /** Observations on a line, at two prices at least, give the slope of that line: demand that
      follows q = A * p^b is measured with elasticity b. */
  lemma ExactLine(s: seq<Obs>, a: real, b: real, i: nat, j: nat)
    requires forall k :: 0 <= k < |s| ==> s[k].y == a + Product(b, s[k].x)
    requires i < j < |s| && s[i].x != s[j].x
    ensures Slope(s) == b
  {
    CountIsLength(s);
    DenominatorSign(s);
    LineSums(s, a, b);
    var t := SumsOf(s);
    LineNumerator(t, a, b);
    Quotient(Numerator(t), b, Denominator(t));
    hide Denominator, Numerator, SumsOf, Product;
  }

  // ---- Least squares ----

  // Sum of the squared distances of the observations from the line a + b * x.
  function Residual(s: seq<Obs>, a: real, b: real): real {
    if s == [] then 0.0
    else Residual(s[..|s| - 1], a, b) + Square(s[|s| - 1].y - a - Product(b, s[|s| - 1].x))
  }

  // Sum of the squared distances between two lines at the observations.
  function Gap(s: seq<Obs>, da: real, db: real): real {
    if s == [] then 0.0 else Gap(s[..|s| - 1], da, db) + Square(da + Product(db, s[|s| - 1].x))
  }

  lemma {:induction false} GapSign(s: seq<Obs>, da: real, db: real)
    ensures Gap(s, da, db) >= 0.0
  {
    if s != [] {
      GapSign(s[..|s| - 1], da, db);
      SquareSign(da + Product(db, s[|s| - 1].x));
    }
  }

  // The errors of the line a + b * x, added up, and weighted with x.
  function Errors(t: Sums, a: real, b: real): real {
    t.y - Product(t.n, a) - Product(b, t.x)
  }

  function WeightedErrors(t: Sums, a: real, b: real): real {
    t.xy - Product(a, t.x) - Product(b, t.xx)
  }

  lemma ErrorsStep(t: Sums, o: Obs, a: real, b: real)
    ensures var e := o.y - a - Product(b, o.x);
            && Errors(Plus(t, o), a, b) == Errors(t, a, b) + e
            && WeightedErrors(Plus(t, o), a, b) == WeightedErrors(t, a, b) + Product(e, o.x)
  {
    var bx := Product(b, o.x);
    Distribute(t.n, 1.0, a);
    Distribute(t.x, o.x, b);
    Distribute(t.x, o.x, a);
    Distribute(t.xx, Square(o.x), b);
    assert Product(1.0, a) == a;
    Distribute(o.y - a - bx, a + bx, o.x);
    Distribute(a, bx, o.x);
    Commute(o.x, o.y, 0.0);
    assert Product(bx, o.x) == Product(b, Square(o.x));
    hide Square, Product;
  }

  lemma ErrorSquare(e: real, da: real, dbx: real, db: real, x: real)
    requires dbx == Product(db, x)
    ensures Square(e + (da + dbx)) ==
            Square(e) + 2.0 * Product(da, e) + 2.0 * Product(db, Product(e, x)) + Square(da + dbx)
  {
  }

  // How the residual changes from one line to another.
  lemma {:induction false} ResidualMoves(s: seq<Obs>, a: real, b: real, a': real, b': real)
    ensures var t := SumsOf(s);
            Residual(s, a', b') == Residual(s, a, b) + 2.0 * Product(a - a', Errors(t, a, b)) +
                                   2.0 * Product(b - b', WeightedErrors(t, a, b)) + Gap(s, a - a', b - b')
  {
    if s == [] {
      NoErrors(a, b);
      assert Product(a - a', 0.0) == Product(b - b', 0.0) == 0.0;
    } else {
      var before, o := s[..|s| - 1], s[|s| - 1];
      var t, da, db := SumsOf(before), a - a', b - b';
      ResidualMoves(before, a, b, a', b');
      ErrorsStep(t, o, a, b);
      var e := o.y - a - Product(b, o.x);
      ErrorSquare(e, da, Product(db, o.x), db, o.x);
      assert o.y - a' - Product(b', o.x) == e + (da + Product(db, o.x)) by {
        Distribute(b', db, o.x);
        hide Product;
      }
      Distribute(Errors(t, a, b), e, da);
      Distribute(WeightedErrors(t, a, b), Product(e, o.x), db);
      hide Square, Product, Errors, WeightedErrors, Plus;
    }
  }

  lemma NoErrors(a: real, b: real)
    ensures Errors(SumsOf([]), a, b) == 0.0 && WeightedErrors(SumsOf([]), a, b) == 0.0
  {
  }

  // The line through the centre of the observations with the measured slope.
  function Intercept(s: seq<Obs>): real
    requires SumsOf(s).n != 0.0
  {
    var t := SumsOf(s);
    (t.y - Product(Slope(s), t.x)) / t.n
  }

  // The fitted line's errors cancel out, both plain and weighted with x.
  lemma FitCancels(t: Sums, a: real, b: real)
    requires t.n != 0.0 && Product(a, t.n) == t.y - Product(b, t.x) && Product(b, Denominator(t)) == Numerator(t)
    ensures Errors(t, a, b) == 0.0 && WeightedErrors(t, a, b) == 0.0
  {
  }

  lemma QuotientBack(p: real, d: real)
    requires d != 0.0
    ensures Product(p / d, d) == p
  {
  }

  /** The slope is the least-squares slope: with observations at two prices at least, no line comes
      closer to them than the one through their centre with that slope. */
  lemma LeastSquares(s: seq<Obs>, i: nat, j: nat, a: real, b: real)
    requires i < j < |s| && s[i].x != s[j].x
    ensures SumsOf(s).n != 0.0 && Residual(s, Intercept(s), Slope(s)) <= Residual(s, a, b)
  {
    CountIsLength(s);
    DenominatorSign(s);
    var t := SumsOf(s);
    QuotientBack(Numerator(t), Denominator(t));
    QuotientBack(t.y - Product(Slope(s), t.x), t.n);
    FitCancels(t, Intercept(s), Slope(s));
    ResidualMoves(s, Intercept(s), Slope(s), a, b);
    GapSign(s, Intercept(s) - a, Slope(s) - b);
    assert Product(Intercept(s) - a, 0.0) == 0.0 && Product(Slope(s) - b, 0.0) == 0.0;
    hide *;
  }

  // ---- The surge cap ----

  function CapFor(slope: real): real {
    if Abs(slope) > 1.5 then 1.5
    else if Abs(slope) > 1.0 then 2.0
    else if Abs(slope) > 0.5 then 3.0
    else 5.0
  }

  /** The more elastic the demand, the lower the cap; it is always one of four values. */
  lemma CapFalls(slope: real, slope': real)
    requires Abs(slope) <= Abs(slope')
    ensures CapFor(slope') <= CapFor(slope) && CapFor(slope) in {1.5, 2.0, 3.0, 5.0}
    ensures CapFor(slope) == 1.5 <==> Abs(slope) > 1.5
    ensures CapFor(slope) <= 2.0 <==> Abs(slope) > 1.0
    ensures CapFor(slope) == 5.0 <==> Abs(slope) <= 0.5
  {
  }

  predicate IsUsable(p: Point) {
    p.price > 0.0 && p.quantity > 0.0
  }

  // Demand follows quantity = e^a * price^b at every usable point.
  ghost predicate Follows(pts: seq<Point>, ln: real -> real, a: real, b: real) {
    forall i :: 0 <= i < |pts| && IsUsable(pts[i]) ==> ln(pts[i].quantity) == a + Product(b, ln(pts[i].price))
  }

  lemma {:induction false} UsableFollows(pts: seq<Point>, ln: real -> real, a: real, b: real)
    requires Follows(pts, ln, a, b)
    ensures forall k :: 0 <= k < |Usable(pts, ln)| ==> Usable(pts, ln)[k].y == a + Product(b, Usable(pts, ln)[k].x)
  {
    hide Product;
    if pts != [] {
      UsableFollows(pts[..|pts| - 1], ln, a, b);
    }
  }

  lemma {:induction false} UsablePoint(pts: seq<Point>, ln: real -> real, i: nat) returns (k: nat)
    requires i < |pts| && IsUsable(pts[i])
    ensures k < |Usable(pts, ln)| && Usable(pts, ln)[k].x == ln(pts[i].price)
  {
    var last := |pts| - 1;
    if i == last {
      k := |Usable(pts, ln)| - 1;
    } else {
      k := UsablePoint(pts[..last], ln, i);
    }
  }

  // ---- The cap in terms of what was recorded ----

  // The later observations of the same area.
  function Later(log: seq<Observation>, area: string, i: nat): set<nat> {
    set j: nat | i < j < |log| && log[j].area == area
  }

  // Observation i counts for the cap: it is one of the last 100 of its area, and usable.
  ghost predicate Counts(log: seq<Observation>, area: string, i: nat) {
    && i < |log| && log[i].area == area && |Later(log, area, i)| < 100
    && log[i].surgeMult > 0.0 && log[i].loadRatio > 0.0
  }

  lemma LaterStep(log: seq<Observation>, area: string, i: nat)
    requires i < |log|
    ensures var n := |log| - 1;
            && (i == n ==> Later(log, area, i) == {})
            && (i < n ==> |Later(log, area, i)| ==
                          |Later(log[..n], area, i)| + if log[n].area == area then 1 else 0)
  {
    var n := |log| - 1;
    if i < n {
      assert Later(log, area, i) == Later(log[..n], area, i) + if log[n].area == area then {n} else {};
    }
  }

  lemma {:induction false} PointAt(log: seq<Observation>, area: string, i: nat)
    requires i < |log| && log[i].area == area
    ensures var s := ByArea(log, area);
            var k := |s| - 1 - |Later(log, area, i)|;
            0 <= k < |s| && s[k] == Point(log[i].surgeMult, log[i].loadRatio)
  {
    LaterStep(log, area, i);
    if i < |log| - 1 {
      PointAt(log[..|log| - 1], area, i);
    }
  }

  lemma {:induction false} FromLog(log: seq<Observation>, area: string, k: nat) returns (i: nat)
    requires k < |ByArea(log, area)|
    ensures i < |log| && log[i].area == area && |Later(log, area, i)| == |ByArea(log, area)| - 1 - k
  {
    var n := |log| - 1;
    if log[n].area == area && k == |ByArea(log, area)| - 1 {
      i := n;
    } else {
      i := FromLog(log[..n], area, k);
    }
    LaterStep(log, area, i);
  }

  // The points kept are those of the observations that count, and unusable ones.
  lemma KeptCounts(log: seq<Observation>, area: string, k: nat) returns (i: nat)
    requires k < |LastOf(ByArea(log, area), 100)| && IsUsable(LastOf(ByArea(log, area), 100)[k])
    ensures Counts(log, area, i)
    ensures LastOf(ByArea(log, area), 100)[k] == Point(log[i].surgeMult, log[i].loadRatio)
  {
    var all := ByArea(log, area);
    i := FromLog(log, area, if |all| > 100 then |all| - 100 + k else k);
    PointAt(log, area, i);
  }

  lemma CountsKept(log: seq<Observation>, area: string, i: nat) returns (k: nat)
    requires Counts(log, area, i)
    ensures k < |LastOf(ByArea(log, area), 100)| && IsUsable(LastOf(ByArea(log, area), 100)[k])
    ensures LastOf(ByArea(log, area), 100)[k] == Point(log[i].surgeMult, log[i].loadRatio)
  {
    PointAt(log, area, i);
    var all, later := ByArea(log, area), |Later(log, area, i)|;
    k := if |all| > 100 then 99 - later else |all| - 1 - later;
  }

  /** Whatever was recorded before: when the last 100 observations of an area follow a demand of constant
      elasticity b, loadRatio = e^a * surgeMult^b, at two prices at least, the cap is the one for b. */
  lemma ConstantElasticity(log: seq<Observation>, area: string, ln: real -> real, a: real, b: real, i: nat, j: nat)
    requires forall k: nat :: Counts(log, area, k) ==> ln(log[k].loadRatio) == a + b * ln(log[k].surgeMult)
    requires Counts(log, area, i) && Counts(log, area, j) && ln(log[i].surgeMult) != ln(log[j].surgeMult)
    ensures CapFor(Slope(Usable(LastOf(ByArea(log, area), MAX_POINTS), ln))) ==
            if b > 1.5 || b < -1.5 then 1.5
            else if b > 1.0 || b < -1.0 then 2.0
            else if b > 0.5 || b < -0.5 then 3.0
            else 5.0
  {
    var pts := LastOf(ByArea(log, area), MAX_POINTS);
    hide ByArea, Later, Slope, Usable;
    assert Follows(pts, ln, a, b) by {
      forall k | 0 <= k < |pts| && IsUsable(pts[k])
        ensures ln(pts[k].quantity) == a + Product(b, ln(pts[k].price))
      {
        var n := KeptCounts(log, area, k);
      }
    }
    var k := CountsKept(log, area, i);
    var l := CountsKept(log, area, j);
    CapFalls(b, b);
    hide Product, CapFor;
    SlopeFollows(pts, ln, a, b, k, l);
  }

  lemma {:induction false} SlopeFollows(pts: seq<Point>, ln: real -> real, a: real, b: real, i: nat, j: nat)
    requires Follows(pts, ln, a, b) && i < |pts| && j < |pts| && IsUsable(pts[i]) && IsUsable(pts[j])
    requires ln(pts[i].price) != ln(pts[j].price)
    ensures Slope(Usable(pts, ln)) == b
  {
    UsableFollows(pts, ln, a, b);
    var k := UsablePoint(pts, ln, i);
    var l := UsablePoint(pts, ln, j);
    hide Slope, Product;
    ExactLine(Usable(pts, ln), a, b, if k < l then k else l, if k < l then l else k);
  }

  /** With all the counting observations of an area at one price the cap is 5, as it is with fewer than two
      of them. */
  lemma OnePriceNoCap(log: seq<Observation>, area: string, ln: real -> real)
    requires forall i: nat, j: nat :: Counts(log, area, i) && Counts(log, area, j) ==>
                                            ln(log[i].surgeMult) == ln(log[j].surgeMult)
    ensures CapFor(Slope(Usable(LastOf(ByArea(log, area), MAX_POINTS), ln))) == 5.0
  {
    var pts := LastOf(ByArea(log, area), MAX_POINTS);
    hide ByArea, Later, Counts;
    var s := Usable(pts, ln);
    forall k, l | 0 <= k < l < |s|
      ensures s[k].x == s[l].x
    {
      var i := UsableFrom(pts, ln, k);
      var j := UsableFrom(pts, ln, l);
      var m := KeptCounts(log, area, i);
      var n := KeptCounts(log, area, j);
    }
    DenominatorSign(s);
    hide SumsOf, Denominator, Numerator, Usable;
  }

  lemma {:induction false} UsableFrom(pts: seq<Point>, ln: real -> real, k: nat) returns (i: nat)
    requires k < |Usable(pts, ln)|
    ensures i < |pts| && IsUsable(pts[i]) && Usable(pts, ln)[k].x == ln(pts[i].price)
  {
    var last := |pts| - 1;
    if IsUsable(pts[last]) && k == |Usable(pts, ln)| - 1 {
      i := last;
    } else {
      i := UsableFrom(pts[..last], ln, k);
    }
  }

  // ---- The tracker ----

  class ElasticityTracker {
    var data: map<string, seq<Point>>
    const maxPoints: nat
    ghost var log: seq<Observation>

    // The points kept for an area are the last ones recorded for it.
    ghost predicate Valid()
      reads this
    {
      && maxPoints == MAX_POINTS
      && forall area :: Kept(area) == LastOf(ByArea(log, area), maxPoints)
    }

    function Kept(area: string): seq<Point>
      reads this
    {
      if area in data then data[area] else []
    }

    constructor ()
      ensures Valid() && log == []
    {
      data, maxPoints, log := map[], MAX_POINTS, [];
    }

    method Record(areaID: string, loadRatio: real, surgeMult: real)
      requires Valid()
      modifies this
      ensures Valid() && log == old(log) + [Observation(areaID, loadRatio, surgeMult)]
    {
      var pts := Kept(areaID);
      var p := Point(surgeMult, loadRatio);
      LastOfAppend(ByArea(log, areaID), maxPoints, p);
      pts := pts + [p];
      if |pts| > maxPoints {
        pts := pts[|pts| - maxPoints..];
      }
      data := data[areaID := pts];
      ghost var r := Observation(areaID, loadRatio, surgeMult);
      assert (log + [r])[..|log|] == log;
      log := log + [r];
    }

    method LogLogRegression(pts: seq<Point>, ln: real -> real) returns (slope: real)
      ensures slope == Slope(Usable(pts, ln))
    {
      var n, sumX, sumY, sumXY, sumX2 := 0.0, 0.0, 0.0, 0.0, 0.0;
      for i := 0 to |pts|
        invariant Sums(n, sumX, sumY, sumXY, sumX2) == SumsOf(Usable(pts[..i], ln))
      {
        var p := pts[i];
        assert pts[..i + 1][..i] == pts[..i];
        if p.price <= 0.0 || p.quantity <= 0.0 {
          continue;
        }
        var logX, logY := ln(p.price), ln(p.quantity);
        ghost var before := Usable(pts[..i], ln);
        assert (before + [Obs(logX, logY)])[..|before|] == before;
        sumX := sumX + logX;
        sumY := sumY + logY;
        sumXY := sumXY + Product(logX, logY);
        sumX2 := sumX2 + Square(logX);
        n := n + 1.0;
      }
      assert pts[..|pts|] == pts;
      if n < 2.0 {
        return 0.0;
      }
      var denom := Product(n, sumX2) - Square(sumX);
      if denom == 0.0 {
        return 0.0;
      }
      return (Product(n, sumXY) - Product(sumX, sumY)) / denom;
    }

    method SurgeCap(areaID: string, ln: real -> real) returns (cap: real)
      requires Valid()
      ensures cap == CapFor(Slope(Usable(LastOf(ByArea(log, areaID), MAX_POINTS), ln)))
    {
      var pts := Kept(areaID);
      assert pts == LastOf(ByArea(log, areaID), MAX_POINTS);
      if |pts| < 2 {
        TooFew(pts, ln);
        return 5.0;
      }
      var slope := LogLogRegression(pts, ln);
      hide *;
      return CapFor(slope);
    }

    lemma TooFew(pts: seq<Point>, ln: real -> real)
      requires |pts| < 2
      ensures CapFor(Slope(Usable(pts, ln))) == 5.0
    {
    }
  }

}
