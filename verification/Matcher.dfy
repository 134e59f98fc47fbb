/** Greedy driver-order matching with anti-starvation: the scores move between rounds, because
    every driver passed over in a round becomes more attractive in the next. */
module Dispatch {
  import opened Collections
  import opened Reals

  // ---- Scoring ----

  datatype Location = Location(lat: real, lng: real)

  datatype Weights = Weights(w1: real, w2: real, w3: real, w4: real, w5: real)

  datatype OrderStatus = OrderPending | OrderAssigned | OrderDispatched | OrderDelivered | OrderFailed

  datatype DriverStatus =
    DriverOffline | DriverIdle | DriverAssigned | DriverToHub | DriverPicking | DriverDelivering | DriverCompleted

  // The values of an order's and a driver's fields at one moment.
  datatype OrderState = OrderState(
    id: string, location: Location, priority: int, status: OrderStatus, assignedDriverID: string)

  datatype DriverState = DriverState(
    id: string, location: Location, maxLoad: int, status: DriverStatus, load: int, lastAssignedAt: int, skipped: int)

  // Great-circle distance in kilometres; any function of two locations.
  type Distance = (Location, Location) -> real

  const AVG_SPEED_MPS: real := 8.33

  function PowerOfTwo(n: nat): real {
    if n == 0 then 1.0 else 2.0 * PowerOfTwo(n - 1)
  }

  const EXPONENT_LIMIT: nat := 1024
  const SIGNIFICAND_BITS: nat := 53

  // The largest finite float64: 2^1024 - 2^971.
  const MAX_FLOAT64: real := PowerOfTwo(EXPONENT_LIMIT) - PowerOfTwo(EXPONENT_LIMIT - SIGNIFICAND_BITS)

  lemma {:induction false} PowersMultiply(m: nat, n: nat)
    ensures PowerOfTwo(m + n) == PowerOfTwo(m) * PowerOfTwo(n) && PowerOfTwo(1) == 2.0
  {
    if m > 0 {
      PowersMultiply(m - 1, n);
      assert 2.0 * (PowerOfTwo(m - 1) * PowerOfTwo(n)) == (2.0 * PowerOfTwo(m - 1)) * PowerOfTwo(n);
    }
  }

  /** The sentinel is the number with the largest exponent and all 53 bits set. */
  lemma LargestFloat()
    ensures MAX_FLOAT64 == (PowerOfTwo(53) - 1.0) * PowerOfTwo(971)
  {
    PowersMultiply(53, 971);
    var p, q := PowerOfTwo(53), PowerOfTwo(971);
    hide PowerOfTwo;
    assert (p - 1.0) * q == p * q - q;
  }

  function Max(x: int, y: int): int {
    if x > y then x else y
  }

  function Eta(distKm: real): real {
    distKm / AVG_SPEED_MPS * 1000.0
  }

  function StarvationPenalty(skipped: int): real {
    Min(skipped as real * 0.1, 0.5)
  }

  // Everything in the score that does not depend on how often the driver was passed over.
  function FixedScore(w: Weights, dist: Distance, o: OrderState, d: DriverState): real {
    var km := dist(o.location, d.location);
    var loadFactor := d.load as real / Max(d.maxLoad, 1) as real;
    var priorityBonus := -((Max(o.priority, 1) - 1) as real) * 0.125;
    w.w1 * Min(km / 10.0, 1.0) + w.w2 * Min(Eta(km) / 1200.0, 1.0) + w.w3 * loadFactor + w.w4 * priorityBonus
  }

  // Lower is better.
  function Score(w: Weights, dist: Distance, o: OrderState, d: DriverState): real {
    FixedScore(w, dist, o, d) + w.w5 * -StarvationPenalty(d.skipped)
  }

  /** One more round passed over lowers a score by exactly 0.1 w5 as long as there were fewer than five
      before, and by nothing from then on. */
  lemma SkippedOnce(w: Weights, dist: Distance, o: OrderState, d: DriverState)
    ensures Score(w, dist, o, d.(skipped := d.skipped + 1)) ==
            Score(w, dist, o, d) - if d.skipped < 5 then 0.1 * w.w5 else 0.0
  {
    var p, p' := StarvationPenalty(d.skipped), StarvationPenalty(d.skipped + 1);
    var more := if d.skipped < 5 then 0.1 else 0.0;
    assert p' == p + more;
    Negate(w.w5, p);
    Negate(w.w5, p');
    assert w.w5 * p' == w.w5 * p + w.w5 * more;
  }

  /** What being passed over is worth in all: 0.1 w5 for each of the first five times, and nothing for
      a driver who never was. */
  lemma CreditForSkips(w: Weights, dist: Distance, o: OrderState, d: DriverState)
    requires d.skipped >= 0
    ensures Score(w, dist, o, d) == Score(w.(w5 := 0.0), dist, o, d) -
                                    (if d.skipped < 5 then d.skipped as real * (0.1 * w.w5) else 0.5 * w.w5)
    decreases d.skipped
  {
    if d.skipped > 0 {
      var before := d.(skipped := d.skipped - 1);
      CreditForSkips(w, dist, o, before);
      SkippedOnce(w, dist, o, before);
      SkippedOnce(w.(w5 := 0.0), dist, o, before);
      assert before.(skipped := before.skipped + 1) == d;
      var step, n := 0.1 * w.w5, d.skipped as real;
      assert n * step == (n - 1.0) * step + step;
      hide Score;
    }
  }

  /** Of two drivers alike otherwise, the one passed over more often scores strictly lower, until both
      have been passed over five times. */
  lemma MoreSkippedFirst(w: Weights, dist: Distance, o: OrderState, d: DriverState, skipped: int)
    requires w.w5 > 0.0 && d.skipped < skipped && d.skipped < 5
    ensures Score(w, dist, o, d.(skipped := skipped)) < Score(w, dist, o, d)
    decreases skipped - d.skipped
  {
    var next := d.(skipped := d.skipped + 1);
    SkippedOnce(w, dist, o, d);
    hide Score;
    if next.skipped < skipped {
      if next.skipped < 5 {
        MoreSkippedFirst(w, dist, o, next, skipped);
      } else {
        FullyCredited(w, dist, o, next, skipped);
      }
      assert next.(skipped := skipped) == d.(skipped := skipped);
    }
  }

  lemma {:induction false} FullyCredited(w: Weights, dist: Distance, o: OrderState, d: DriverState, skipped: int)
    requires 5 <= d.skipped <= skipped
    ensures Score(w, dist, o, d.(skipped := skipped)) == Score(w, dist, o, d)
    decreases skipped
  {
    hide Score;
    if d.skipped < skipped {
      FullyCredited(w, dist, o, d, skipped - 1);
      SkippedOnce(w, dist, o, d.(skipped := skipped - 1));
      assert d.(skipped := skipped - 1).(skipped := skipped) == d.(skipped := skipped);
    } else {
      assert d.(skipped := skipped) == d;
    }
  }

  lemma Scaled(w: real, p: real, p': real, most: real)
    requires w >= 0.0 && p <= p' <= p + most
    ensures w * -p - most * w <= w * -p' <= w * -p
  {
    var x := p' - p;
    assert 0.0 <= w * x;
    assert w * (most - x) >= 0.0;
    assert w * -p' == w * -p - w * x;
  }

  function Term(weight: real, x: real): real {
    weight * x
  }

  // The score as a sum of weighted terms.
  lemma ScoreTerms(w: Weights, dist: Distance, o: OrderState, d: DriverState)
    ensures var km := dist(o.location, d.location);
            Score(w, dist, o, d) ==
            Term(w.w1, Min(km / 10.0, 1.0)) + Term(w.w2, Min(Eta(km) / 1200.0, 1.0))
            + Term(w.w3, d.load as real / Max(d.maxLoad, 1) as real)
            + Term(w.w4, -((Max(o.priority, 1) - 1) as real * 0.125)) + Term(w.w5, -StarvationPenalty(d.skipped))
  {
  }

  lemma ScaleMonotone(w: real, x: real, y: real)
    requires w >= 0.0 && x <= y
    ensures w * x <= w * y && Term(w, x) <= Term(w, y)
  {
    var d := y - x;
    assert w * d >= 0.0;
    assert w * d == w * y - w * x;
  }

  lemma LoadFraction(load: int, load': int, cap: int)
    requires load <= load' && cap >= 1
    ensures load as real / cap as real <= load' as real / cap as real
  {
    var share := 1.0 / cap as real;
    ScaleMonotone(share, load as real, load' as real);
    ShareOf(load as real, cap as real);
    ShareOf(load' as real, cap as real);
  }

  lemma ShareOf(x: real, c: real)
    requires c > 0.0
    ensures x / c == 1.0 / c * x
  {
  }

  /** With non-negative weights a driver who is no farther away and carries no more of the same
      capacity never scores worse. */
  lemma NearerAndEmptierNeverWorse(w: Weights, dist: Distance, o: OrderState, d: DriverState, d': DriverState)
    requires w.w1 >= 0.0 && w.w2 >= 0.0 && w.w3 >= 0.0
    requires dist(o.location, d.location) <= dist(o.location, d'.location)
    requires d.load <= d'.load && d.maxLoad == d'.maxLoad && d.skipped == d'.skipped
    ensures Score(w, dist, o, d) <= Score(w, dist, o, d')
  {
    var km, km' := dist(o.location, d.location), dist(o.location, d'.location);
    ScoreTerms(w, dist, o, d);
    ScoreTerms(w, dist, o, d');
    NormsRise(km, km');
    LoadFraction(d.load, d'.load, Max(d.maxLoad, 1));
    hide *;
    ScaleMonotone(w.w1, Min(km / 10.0, 1.0), Min(km' / 10.0, 1.0));
    ScaleMonotone(w.w2, Min(Eta(km) / 1200.0, 1.0), Min(Eta(km') / 1200.0, 1.0));
    ScaleMonotone(w.w3, d.load as real / Max(d.maxLoad, 1) as real, d'.load as real / Max(d.maxLoad, 1) as real);
  }

  lemma NormsRise(km: real, km': real)
    requires km <= km'
    ensures Min(km / 10.0, 1.0) <= Min(km' / 10.0, 1.0) && Min(Eta(km) / 1200.0, 1.0) <= Min(Eta(km') / 1200.0, 1.0)
  {
  }

  /** From ten kilometres on distance no longer matters: both normalised terms are at their caps. */
  lemma FarIsFar(w: Weights, dist: Distance, o: OrderState, d: DriverState, d': DriverState)
    requires dist(o.location, d.location) >= 10.0 && dist(o.location, d'.location) >= 10.0
    requires d.load == d'.load && d.maxLoad == d'.maxLoad && d.skipped == d'.skipped
    ensures Score(w, dist, o, d) == Score(w, dist, o, d')
  {
    var km, km' := dist(o.location, d.location), dist(o.location, d'.location);
    assert Min(km / 10.0, 1.0) == Min(km' / 10.0, 1.0) == 1.0;
    assert Min(Eta(km) / 1200.0, 1.0) == Min(Eta(km') / 1200.0, 1.0) == 1.0;
    ScoreTerms(w, dist, o, d);
    ScoreTerms(w, dist, o, d');
    hide Score, Min, Eta;
  }

  /** Up to 9.996 km, where the arrival time reaches its cap, every kilometre costs the same: a tenth of
      the distance weight and 1/9.996 of the arrival weight. */
  lemma KilometreCosts(w: Weights, dist: Distance, o: OrderState, d: DriverState, d': DriverState)
    requires 0.0 <= dist(o.location, d.location) <= 9.996 && 0.0 <= dist(o.location, d'.location) <= 9.996
    requires d.load == d'.load && d.maxLoad == d'.maxLoad && d.skipped == d'.skipped
    ensures Score(w, dist, o, d') - Score(w, dist, o, d) ==
            (dist(o.location, d'.location) - dist(o.location, d.location)) * (w.w1 / 10.0 + w.w2 / 9.996)
  {
    var km, km' := dist(o.location, d.location), dist(o.location, d'.location);
    assert Min(km / 10.0, 1.0) == km * 0.1 && Min(km' / 10.0, 1.0) == km' * 0.1;
    assert Min(Eta(km) / 1200.0, 1.0) == km / 9.996 && Min(Eta(km') / 1200.0, 1.0) == km' / 9.996;
    ScoreTerms(w, dist, o, d);
    ScoreTerms(w, dist, o, d');
    hide Score, Min, Eta, StarvationPenalty, Max;
    PerKilometre(w.w1, km, km', 0.1);
    PerKilometre(w.w2, km, km', 1.0 / 9.996);
    assert (km' - km) * (w.w1 / 10.0 + w.w2 / 9.996) == (km' - km) * (w.w1 / 10.0) + (km' - km) * (w.w2 / 9.996);
  }

  lemma PerKilometre(w: real, km: real, km': real, share: real)
    ensures w * (km' * share) - w * (km * share) == (km' - km) * (w * share)
  {
  }

  /** One more order on board costs the load weight's share of one place. */
  lemma OneMoreOnBoard(w: Weights, dist: Distance, o: OrderState, d: DriverState)
    ensures Score(w, dist, o, d.(load := d.load + 1)) ==
            Score(w, dist, o, d) + w.w3 / (if d.maxLoad > 1 then d.maxLoad else 1) as real
  {
    ScoreTerms(w, dist, o, d);
    ScoreTerms(w, dist, o, d.(load := d.load + 1));
    hide Score, Min, Eta, StarvationPenalty;
    var n, c := d.load as real, Max(d.maxLoad, 1) as real;
    ShareOf(n, c);
    ShareOf(n + 1.0, c);
    ShareOf(w.w3, c);
    assert w.w3 * (1.0 / c * (n + 1.0)) == w.w3 * (1.0 / c * n) + 1.0 / c * w.w3;
  }

  /** The scale starts at 0: for an idle, empty driver on the spot, never passed over, and an order of
      priority 1 or less. */
  lemma NothingToPay(w: Weights, dist: Distance, o: OrderState, d: DriverState)
    requires dist(o.location, d.location) == 0.0 && d.load == 0 && d.skipped == 0 && o.priority <= 1
    ensures Score(w, dist, o, d) == 0.0
  {
  }

  /** Priority 1, the most urgent, gets the largest bonus only if its weight is not positive: each
      level above 1 lowers the score by 0.125 w4. Anything below 1 counts as 1. */
  lemma MostUrgentFavouredIff(w: Weights, dist: Distance, o: OrderState, d: DriverState)
    ensures forall p: int :: p >= 1 ==>
              Score(w, dist, o.(priority := p), d) ==
                  Score(w, dist, o.(priority := 1), d) - w.w4 * ((p - 1) as real * 0.125)
    ensures forall p: int :: p < 1 ==> Score(w, dist, o.(priority := p), d) == Score(w, dist, o.(priority := 1), d)
    ensures (forall p: int :: p >= 1 ==>
             Score(w, dist, o.(priority := 1), d) <= Score(w, dist, o.(priority := p), d)) <==>
            w.w4 <= 0.0
  {
    hide Score;
    forall p: int | p >= 1
      ensures Score(w, dist, o.(priority := p), d) ==
              Score(w, dist, o.(priority := 1), d) - w.w4 * ((p - 1) as real * 0.125)
      ensures w.w4 <= 0.0 ==> w.w4 * ((p - 1) as real * 0.125) <= 0.0
    {
      PriorityLevel(w, dist, o, d, p);
      Sign(w.w4, (p - 1) as real * 0.125);
    }
    forall p: int | p < 1
      ensures Score(w, dist, o.(priority := p), d) == Score(w, dist, o.(priority := 1), d)
    {
      LowPriority(w, dist, o, d, p);
    }
    assert Score(w, dist, o.(priority := 2), d) == Score(w, dist, o.(priority := 1), d) - w.w4 * 0.125;
  }

  lemma Sign(w: real, x: real)
    requires x >= 0.0
    ensures w <= 0.0 ==> w * x <= 0.0
  {
  }

  lemma LowPriority(w: Weights, dist: Distance, o: OrderState, d: DriverState, p: int)
    requires p < 1
    ensures Score(w, dist, o.(priority := p), d) == Score(w, dist, o.(priority := 1), d)
  {
  }

  lemma PriorityLevel(w: Weights, dist: Distance, o: OrderState, d: DriverState, p: int)
    requires p >= 1
    ensures Score(w, dist, o.(priority := p), d) ==
            Score(w, dist, o.(priority := 1), d) - w.w4 * ((p - 1) as real * 0.125)
  {
    ScoreTerms(w, dist, o.(priority := 1), d);
    ScoreTerms(w, dist, o.(priority := p), d);
    assert Max(p, 1) == p && Max(1, 1) == 1;
    hide *;
    Negate(w.w4, (p - 1) as real * 0.125);
    Negate(w.w4, 0.0);
  }

  lemma Negate(w: real, x: real)
    ensures w * -x == -(w * x) == -w * x
  {
  }

  // ---- What greedy matching means ----

  // A batch as it is when matching starts.
  datatype Batch = Batch(w: Weights, dist: Distance, os: seq<OrderState>, ds: seq<DriverState>)

  // Order `order` goes to driver `driver`, both given by their position in the batch.
  datatype Pick = Pick(order: nat, driver: nat, score: real)

  // Being assigned does not change how an order scores.
  lemma StatusUnscored(w: Weights, dist: Distance, o: OrderState, o': OrderState, d: DriverState)
    requires o == o'.(status := o.status, assignedDriverID := o.assignedDriverID)
    ensures Score(w, dist, o, d) == Score(w, dist, o', d)
  {
  }

  function Passed(d: DriverState, rounds: nat): DriverState {
    d.(skipped := d.skipped + rounds)
  }

  // The score of a pair that has been in the pool for `round` rounds.
  function ScoreIn(b: Batch, i: nat, j: nat, round: nat): real
    requires i < |b.os| && j < |b.ds|
  {
    Score(b.w, b.dist, b.os[i], Passed(b.ds[j], round))
  }

  ghost predicate FreeOrder(b: Batch, taken: seq<Pick>, i: nat) {
    i < |b.os| && forall t :: 0 <= t < |taken| ==> taken[t].order != i
  }

  ghost predicate FreeDriver(b: Batch, taken: seq<Pick>, j: nat) {
    j < |b.ds| && forall t :: 0 <= t < |taken| ==> taken[t].driver != j
  }

  // p is what the next round picks after `taken`: the lowest score, the first such pair on a tie.
  ghost predicate IsNextPick(b: Batch, taken: seq<Pick>, p: Pick) {
    && FreeOrder(b, taken, p.order) && FreeDriver(b, taken, p.driver)
    && p.score == ScoreIn(b, p.order, p.driver, |taken|) < MAX_FLOAT64
    && forall i: nat, j: nat :: FreeOrder(b, taken, i) && FreeDriver(b, taken, j) ==>
                                  var s := ScoreIn(b, i, j, |taken|);
                                  p.score < s || (p.score == s && (p.order < i || (p.order == i && p.driver <= j)))
  }

  ghost predicate IsGreedyRun(b: Batch, picks: seq<Pick>) {
    forall t :: 0 <= t < |picks| ==> IsNextPick(b, picks[..t], picks[t])
  }

  // No pair is left that could still be picked.
  ghost predicate Exhausted(b: Batch, picks: seq<Pick>) {
    forall i: nat, j: nat :: FreeOrder(b, picks, i) && FreeDriver(b, picks, j) ==>
                               ScoreIn(b, i, j, |picks|) >= MAX_FLOAT64
  }

  ghost predicate IsGreedyMatching(b: Batch, picks: seq<Pick>) {
    IsGreedyRun(b, picks) && Exhausted(b, picks)
  }

  // ---- What greedy matching guarantees ----

  /** No order and no driver is used twice. */
  lemma OneToOne(b: Batch, picks: seq<Pick>, t: nat, u: nat)
    requires IsGreedyRun(b, picks) && t < u < |picks|
    ensures picks[t].order != picks[u].order && picks[t].driver != picks[u].driver
  {
  }

  /** Over any number of rounds passed over a score never rises, and it falls by at most 0.1 w5 a round
      and, for a driver with a skip count that is not negative, by at most 0.5 w5 in all. */
  lemma {:induction false} LaterScores(b: Batch, i: nat, j: nat, r: nat, r': nat)
    requires b.w.w5 >= 0.0 && i < |b.os| && j < |b.ds| && r <= r'
    ensures ScoreIn(b, i, j, r) - (r' - r) as real * (0.1 * b.w.w5) <= ScoreIn(b, i, j, r') <= ScoreIn(b, i, j, r)
    ensures b.ds[j].skipped >= 0 ==> ScoreIn(b, i, j, r') >= ScoreIn(b, i, j, r) - 0.5 * b.w.w5
    decreases r' - r
  {
    hide Score, MAX_FLOAT64;
    if r < r' {
      LaterScores(b, i, j, r, r' - 1);
      SkippedOnce(b.w, b.dist, b.os[i], Passed(b.ds[j], r' - 1));
      var step, n := 0.1 * b.w.w5, (r' - r) as real;
      assert n * step == (n - 1.0) * step + step;
    }
    if b.ds[j].skipped >= 0 {
      PenaltyCapped(b.w, b.dist, b.os[i], Passed(b.ds[j], r), r' - r);
    }
  }

  lemma PenaltyCapped(w: Weights, dist: Distance, o: OrderState, d: DriverState, rounds: nat)
    requires w.w5 >= 0.0 && d.skipped >= 0
    ensures Score(w, dist, o, d.(skipped := d.skipped + rounds)) >= Score(w, dist, o, d) - 0.5 * w.w5
  {
    var p, p' := StarvationPenalty(d.skipped), StarvationPenalty(d.skipped + rounds);
    assert 0.0 <= p <= p' <= 0.5;
    Scaled(w.w5, p, p', 0.5);
  }

  /** Every recorded score lies between the score its pair had when matching started and 0.5 w5 below
      it, however many rounds were played. */
  lemma RecordedScores(b: Batch, picks: seq<Pick>, t: nat)
    requires IsGreedyRun(b, picks) && b.w.w5 >= 0.0 && t < |picks|
    requires picks[t].order < |b.os| && picks[t].driver < |b.ds| && b.ds[picks[t].driver].skipped >= 0
    ensures var start := ScoreIn(b, picks[t].order, picks[t].driver, 0);
            start - 0.5 * b.w.w5 <= picks[t].score <= start
  {
    assert IsNextPick(b, picks[..t], picks[t]);
    LaterScores(b, picks[t].order, picks[t].driver, 0, t);
    hide ScoreIn;
  }

  /** Nobody starves. With a positive starvation weight an order never goes to a driver while another one,
      alike otherwise, is free and has been passed over more often, up to five times. */
  lemma LongestWaitingFirst(b: Batch, picks: seq<Pick>, t: nat, j: nat)
    requires IsGreedyRun(b, picks) && b.w.w5 > 0.0 && t < |picks| && FreeDriver(b, picks[..t], j)
    requires picks[t].driver < |b.ds|
    requires var d, d' := b.ds[picks[t].driver], b.ds[j];
             d.location == d'.location && d.load == d'.load && d.maxLoad == d'.maxLoad
    ensures b.ds[picks[t].driver].skipped + t >= 5 || b.ds[j].skipped <= b.ds[picks[t].driver].skipped
  {
    var p := picks[t];
    var d, d' := Passed(b.ds[p.driver], t), Passed(b.ds[j], t);
    assert IsNextPick(b, picks[..t], p);
    if d.skipped < 5 && d.skipped < d'.skipped {
      MoreSkippedFirst(b.w, b.dist, b.os[p.order], d, d'.skipped);
      AlikeScore(b.w, b.dist, b.os[p.order], d.(skipped := d'.skipped), d');
      hide Score;
      assert false;
    }
  }

  lemma AlikeScore(w: Weights, dist: Distance, o: OrderState, d: DriverState, d': DriverState)
    requires d.location == d'.location && d.load == d'.load && d.maxLoad == d'.maxLoad && d.skipped == d'.skipped
    ensures Score(w, dist, o, d) == Score(w, dist, o, d')
  {
  }

  /** Stability. Whatever pair one names, the order or the driver of it was picked at a score no
      worse than that pair had when matching started. */
  lemma Stable(b: Batch, picks: seq<Pick>, i: nat, j: nat) returns (t: nat)
    requires IsGreedyMatching(b, picks) && b.w.w5 >= 0.0
    requires i < |b.os| && j < |b.ds| && ScoreIn(b, i, j, 0) < MAX_FLOAT64
    ensures t < |picks| && (picks[t].order == i || picks[t].driver == j)
    ensures picks[t].score <= ScoreIn(b, i, j, 0)
  {
    hide ScoreIn;
    t := 0;
    while t < |picks| && picks[t].order != i && picks[t].driver != j
      invariant t <= |picks|
      invariant FreeOrder(b, picks[..t], i) && FreeDriver(b, picks[..t], j)
    {
      t := t + 1;
    }
    hide MAX_FLOAT64, FreeOrder, FreeDriver;
    NeverRises(b, i, j, t);
    assert picks[..|picks|] == picks;
    assert t < |picks|;
    assert IsNextPick(b, picks[..t], picks[t]);
  }

  lemma NeverRises(b: Batch, i: nat, j: nat, t: nat)
    requires b.w.w5 >= 0.0 && i < |b.os| && j < |b.ds|
    ensures ScoreIn(b, i, j, t) <= ScoreIn(b, i, j, 0)
  {
    LaterScores(b, i, j, 0, t);
  }

  /** The scores of successive picks fall by at most 0.1 w5. */
  lemma ScoresBarelyFall(b: Batch, picks: seq<Pick>, t: nat)
    requires IsGreedyRun(b, picks) && b.w.w5 >= 0.0 && t + 1 < |picks|
    ensures picks[t + 1].score >= picks[t].score - 0.1 * b.w.w5
  {
    var p, p' := picks[t], picks[t + 1];
    assert IsNextPick(b, picks[..t], p) && IsNextPick(b, picks[..t + 1], p');
    assert picks[..t] == picks[..t + 1][..t];
    assert FreeOrder(b, picks[..t], p'.order) && FreeDriver(b, picks[..t], p'.driver) by {
      assert forall u :: 0 <= u < t ==> picks[..t][u] == picks[..t + 1][u];
    }
    SkippedOnce(b.w, b.dist, b.os[p'.order], Passed(b.ds[p'.driver], t));
    assert Passed(Passed(b.ds[p'.driver], t), 1) == Passed(b.ds[p'.driver], t + 1);
    hide Score;
    assert p.score <= ScoreIn(b, p'.order, p'.driver, t);
  }

  function Orders(picks: seq<Pick>): seq<nat> {
    seq(|picks|, t requires 0 <= t < |picks| => picks[t].order)
  }

  function Drivers(picks: seq<Pick>): seq<nat> {
    seq(|picks|, t requires 0 <= t < |picks| => picks[t].driver)
  }

  lemma {:induction false} Pigeonhole(n: nat, taken: seq<nat>)
    requires forall t :: 0 <= t < |taken| ==> taken[t] < n
    requires forall t, u :: 0 <= t < u < |taken| ==> taken[t] != taken[u]
    ensures |taken| <= n
  {
    if taken != [] {
      var last := |taken| - 1;
      // Renumber so that the last index is the largest, and leave it out.
      var rest := seq(last, t requires 0 <= t < last => if taken[t] == n - 1 then taken[last] else taken[t]);
      Pigeonhole(n - 1, rest);
    }
  }

  ghost function IndexOf(s: seq<nat>, x: nat): (t: nat)
    requires x in s
    ensures t < |s| && s[t] == x
  {
    if s[0] == x then 0 else 1 + IndexOf(s[1..], x)
  }

  lemma FreeIndex(n: nat, taken: seq<nat>) returns (i: nat)
    requires |taken| < n
    ensures i < n && i !in taken
  {
    if forall k: nat :: k < n ==> k in taken {
      var at := seq(n, k requires 0 <= k < n => IndexOf(taken, k));
      assert forall k :: 0 <= k < n ==> taken[at[k]] == k;
      Pigeonhole(|taken|, at);
    }
    i :| i < n && i !in taken;
  }

  /** Maximality: with every score below the sentinel, min(|orders|, |drivers|) pairs are made. */
  lemma Maximal(b: Batch, picks: seq<Pick>)
    requires IsGreedyMatching(b, picks) && b.w.w5 >= 0.0
    requires forall i: nat, j: nat :: i < |b.os| && j < |b.ds| ==> ScoreIn(b, i, j, 0) < MAX_FLOAT64
    ensures |picks| == if |b.os| < |b.ds| then |b.os| else |b.ds|
  {
    hide ScoreIn;
    forall t | 0 <= t < |picks|
      ensures picks[t].order < |b.os| && picks[t].driver < |b.ds|
    {
      assert IsNextPick(b, picks[..t], picks[t]);
    }
    forall t, u | 0 <= t < u < |picks|
      ensures picks[t].order != picks[u].order && picks[t].driver != picks[u].driver
    {
      OneToOne(b, picks, t, u);
    }
    Pigeonhole(|b.os|, Orders(picks));
    Pigeonhole(|b.ds|, Drivers(picks));
    if |picks| < |b.os| && |picks| < |b.ds| {
      var i := FreeIndex(|b.os|, Orders(picks));
      var j := FreeIndex(|b.ds|, Drivers(picks));
      assert forall t :: 0 <= t < |picks| ==>
             Orders(picks)[t] == picks[t].order && Drivers(picks)[t] == picks[t].driver;
      assert FreeOrder(b, picks, i) && FreeDriver(b, picks, j);
      LaterScores(b, i, j, 0, |picks|);
    }
  }

  /** The rounds determine every pick: there is one greedy matching of a batch. */
  lemma {:induction false} Unique(b: Batch, picks: seq<Pick>, picks': seq<Pick>)
    requires IsGreedyMatching(b, picks) && IsGreedyMatching(b, picks')
    ensures picks == picks'
  {
    hide ScoreIn, IsNextPick, Exhausted;
    var t := 0;
    while t < |picks| && t < |picks'|
      invariant t <= |picks| && t <= |picks'| && picks[..t] == picks'[..t]
    {
      assert IsNextPick(b, picks[..t], picks[t]) && IsNextPick(b, picks'[..t], picks'[t]);
      OneNextPick(b, picks[..t], picks[t], picks'[t]);
      assert picks[..t + 1] == picks[..t] + [picks[t]] && picks'[..t + 1] == picks'[..t] + [picks'[t]];
      t := t + 1;
    }
    assert picks[..|picks|] == picks && picks'[..|picks'|] == picks';
    if t < |picks| {
      MoreToPick(b, picks', picks);
    } else if t < |picks'| {
      MoreToPick(b, picks, picks');
    }
  }

  lemma OneNextPick(b: Batch, taken: seq<Pick>, p: Pick, q: Pick)
    requires IsNextPick(b, taken, p) && IsNextPick(b, taken, q)
    ensures p == q
  {
  }

  lemma MoreToPick(b: Batch, picks: seq<Pick>, longer: seq<Pick>)
    requires IsGreedyRun(b, longer) && picks < longer
    ensures !Exhausted(b, picks)
  {
    assert longer[..|picks|] == picks;
    assert IsNextPick(b, longer[..|picks|], longer[|picks|]);
  }

  // ---- The matcher ----

  class Order {
    const id: string
    const location: Location
    const priority: int
    var status: OrderStatus
    var assignedDriverID: string

    ghost function State(): OrderState
      reads this
    {
      OrderState(id, location, priority, status, assignedDriverID)
    }
  }

  class Driver {
    const id: string
    const maxLoad: int
    var location: Location
    var status: DriverStatus
    var load: int
    var lastAssignedAt: int
    var skippedCount: int

    ghost function State(): DriverState
      reads this
    {
      DriverState(id, location, maxLoad, status, load, lastAssignedAt, skippedCount)
    }
  }

  datatype Assignment = Assignment(
    orderID: string, driverID: string, status: string, score: real, attempt: int, createdAt: int)

  function MakeAssignment(b: Batch, p: Pick, now: int): Assignment
    requires p.order < |b.os| && p.driver < |b.ds|
  {
    Assignment(b.os[p.order].id, b.ds[p.driver].id, "PENDING", p.score, 1, now)
  }

  function Assigned(d: DriverState, now: int): DriverState {
    d.(status := DriverAssigned, load := d.load + 1, lastAssignedAt := now, skipped := 0)
  }

  // The batch the given objects make up right now.
  ghost function BatchOf(w: Weights, dist: Distance, orders: seq<Order>, drivers: seq<Driver>): Batch
    reads orders, drivers
  {
    Batch(w, dist, OrderStates(orders), DriverStates(drivers))
  }

  ghost predicate InRange(b: Batch, picks: seq<Pick>) {
    forall t :: 0 <= t < |picks| ==> picks[t].order < |b.os| && picks[t].driver < |b.ds|
  }

  ghost function OrderStates(orders: seq<Order>): seq<OrderState>
    reads orders
  {
    seq(|orders|, i requires 0 <= i < |orders| reads orders => orders[i].State())
  }

  ghost function DriverStates(drivers: seq<Driver>): seq<DriverState>
    reads drivers
  {
    seq(|drivers|, j requires 0 <= j < |drivers| reads drivers => drivers[j].State())
  }

  // Pick t is the last one of the order at position i, which may be in the batch more than once.
  ghost predicate LastPickOf(picks: seq<Pick>, orders: seq<Order>, t: nat, i: nat)
    requires t < |picks| && i < |orders| && forall u :: 0 <= u < |picks| ==> picks[u].order < |orders|
  {
    && orders[picks[t].order] == orders[i]
    && forall u :: t < u < |picks| ==> orders[picks[u].order] != orders[i]
  }

  // Every order after the given picks: a picked one has the driver of its last pick, and nothing else
  // has changed.
  ghost predicate OrdersAfter(b: Batch, picks: seq<Pick>, orders: seq<Order>, now: seq<OrderState>)
    requires InRange(b, picks) && |orders| == |b.os|
  {
    && |now| == |b.os|
    && (forall i :: 0 <= i < |now| ==>
          now[i] == b.os[i].(status := now[i].status, assignedDriverID := now[i].assignedDriverID))
    && (forall i :: 0 <= i < |now| && (forall t :: 0 <= t < |picks| ==> orders[picks[t].order] != orders[i]) ==>
          now[i] == b.os[i])
    && (forall t, i :: 0 <= t < |picks| && 0 <= i < |now| && LastPickOf(picks, orders, t, i) ==>
          now[i].status == OrderAssigned && now[i].assignedDriverID == b.ds[picks[t].driver].id)
  }

  // Every driver after the given picks: a picked one is loaded and its counter cleared, any other
  // has been passed over once a round.
  ghost predicate DriversAfter(b: Batch, picks: seq<Pick>, now: seq<DriverState>, time: int)
    requires InRange(b, picks)
  {
    && |now| == |b.ds|
    && (forall j :: 0 <= j < |now| && FreeDriver(b, picks, j) ==> now[j] == Passed(b.ds[j], |picks|))
    && (forall t :: 0 <= t < |picks| ==> now[picks[t].driver] == Assigned(b.ds[picks[t].driver], time))
  }

  lemma FreeAfter(b: Batch, picks: seq<Pick>, p: Pick, i: nat)
    ensures FreeOrder(b, picks + [p], i) <==> FreeOrder(b, picks, i) && i != p.order
    ensures FreeDriver(b, picks + [p], i) <==> FreeDriver(b, picks, i) && i != p.driver
  {
    var next := picks + [p];
    assert next[|picks|] == p && forall t :: 0 <= t < |picks| ==> next[t] == picks[t];
  }

  lemma OrdersAfterPick(b: Batch, picks: seq<Pick>, p: Pick, orders: seq<Order>,
                        was: seq<OrderState>, now: seq<OrderState>)
    requires InRange(b, picks) && p.order < |b.os| && p.driver < |b.ds| && |orders| == |b.os|
    requires OrdersAfter(b, picks, orders, was) && |now| == |was|
    requires forall i :: 0 <= i < |now| ==>
                           now[i] == if orders[i] == orders[p.order] then
                             was[i].(status := OrderAssigned, assignedDriverID := b.ds[p.driver].id) else was[i]
    ensures InRange(b, picks + [p]) && OrdersAfter(b, picks + [p], orders, now)
  {
    var next := picks + [p];
    assert next[|picks|] == p && forall t :: 0 <= t < |picks| ==> next[t] == picks[t];
    forall t, i | 0 <= t < |next| && 0 <= i < |now| && LastPickOf(next, orders, t, i)
      ensures now[i].status == OrderAssigned && now[i].assignedDriverID == b.ds[next[t].driver].id
    {
      assert t < |picks| ==> LastPickOf(picks, orders, t, i) && orders[next[|picks|].order] != orders[i];
    }
    forall i | 0 <= i < |now| && forall t :: 0 <= t < |next| ==> orders[next[t].order] != orders[i]
      ensures now[i] == b.os[i]
    {
      assert orders[next[|picks|].order] != orders[i];
      assert forall t :: 0 <= t < |picks| ==> orders[picks[t].order] == orders[next[t].order];
    }
  }

  lemma DriversAfterPick(b: Batch, picks: seq<Pick>, p: Pick, was: seq<DriverState>, now: seq<DriverState>, time: int)
    requires InRange(b, picks) && p.order < |b.os| && FreeDriver(b, picks, p.driver)
    requires DriversAfter(b, picks, was, time) && |now| == |was|
    requires forall j :: 0 <= j < |now| ==>
                           now[j] == if j == p.driver then Assigned(was[j], time)
                           else if FreeDriver(b, picks, j) then Passed(was[j], 1) else was[j]
    ensures InRange(b, picks + [p]) && DriversAfter(b, picks + [p], now, time)
  {
    forall i: nat {
      FreeAfter(b, picks, p, i);
    }
    assert Assigned(Passed(b.ds[p.driver], |picks|), time) == Assigned(b.ds[p.driver], time);
  }

  /** What that means for the fields: a driver picked has one more order and the time and starts counting
      anew, any other has been passed over once a round, and nothing else about it changes. An order has the
      driver of its last pick. */
  lemma MatchLeaves(b: Batch, picks: seq<Pick>, orders: seq<Order>, os: seq<OrderState>, ds: seq<DriverState>,
                    time: int)
    requires InRange(b, picks) && |orders| == |b.os|
    requires OrdersAfter(b, picks, orders, os) && DriversAfter(b, picks, ds, time)
    ensures forall t :: 0 <= t < |picks| ==>
                          var d, d' := b.ds[picks[t].driver], ds[picks[t].driver];
                          && d'.status == DriverAssigned && d'.load == d.load + 1 && d'.skipped == 0
                          && d'.lastAssignedAt == time
                          && d'.id == d.id && d'.location == d.location && d'.maxLoad == d.maxLoad
    ensures forall j: nat :: j < |b.ds| && (forall t :: 0 <= t < |picks| ==> picks[t].driver != j) ==>
                               var d, d' := b.ds[j], ds[j];
                               && d'.skipped == d.skipped + |picks| && d'.load == d.load && d'.status == d.status
                               && d'.lastAssignedAt == d.lastAssignedAt
                               && d'.id == d.id && d'.location == d.location && d'.maxLoad == d.maxLoad
    ensures forall t, i :: 0 <= t < |picks| && 0 <= i < |os| && orders[picks[t].order] == orders[i] &&
                           (forall u :: t < u < |picks| ==> orders[picks[u].order] != orders[i]) ==>
                             && os[i].status == OrderAssigned && os[i].assignedDriverID == b.ds[picks[t].driver].id
                             && os[i].id == b.os[i].id && os[i].location == b.os[i].location
                             && os[i].priority == b.os[i].priority
    ensures forall t :: 0 <= t < |picks| ==>
                          MakeAssignment(b, picks[t], time) ==
                          Assignment(b.os[picks[t].order].id, b.ds[picks[t].driver].id, "PENDING",
                                     picks[t].score, 1, time)
  {
    forall j: nat | j < |b.ds| && (forall t :: 0 <= t < |picks| ==> picks[t].driver != j)
      ensures ds[j] == Passed(b.ds[j], |picks|)
    {
      assert FreeDriver(b, picks, j);
    }
    forall t, i | 0 <= t < |picks| && 0 <= i < |os| && orders[picks[t].order] == orders[i] &&
                  (forall u :: t < u < |picks| ==> orders[picks[u].order] != orders[i])
      ensures os[i].status == OrderAssigned && os[i].assignedDriverID == b.ds[picks[t].driver].id
    {
      assert LastPickOf(picks, orders, t, i);
    }
  }

  // `pool` lists the objects at the positions `at`, in order.
  ghost predicate Pool<T>(all: seq<T>, at: seq<nat>, pool: seq<T>) {
    && |pool| == |at|
    && (forall k :: 0 <= k < |at| ==> at[k] < |all| && pool[k] == all[at[k]])
    && (forall k, l :: 0 <= k < l < |at| ==> at[k] < at[l])
  }

  function RemoveAt<T>(s: seq<T>, k: nat): seq<T>
    requires k < |s|
  {
    s[..k] + s[k + 1..]
  }

  lemma PoolWithout<T>(all: seq<T>, at: seq<nat>, pool: seq<T>, k: nat)
    requires Pool(all, at, pool) && k < |at|
    ensures Pool(all, RemoveAt(at, k), RemoveAt(pool, k))
    ensures forall x :: x in RemoveAt(at, k) <==> x in at && x != at[k]
  {
  }

  function UpTo(n: nat): (s: seq<nat>)
    ensures |s| == n && forall k :: 0 <= k < n ==> s[k] == k
    ensures forall k: nat :: k in s <==> k < n
  {
    if n == 0 then [] else UpTo(n - 1) + [n - 1]
  }

  // The best position in the pools is the next pick of the batch: the pools keep the batch order.
  lemma BestIsNext(b: Batch, picks: seq<Pick>, ri: seq<nat>, ai: seq<nat>, oi: nat, di: nat, score: real)
    requires oi < |ri| && di < |ai|
    requires forall i: nat :: FreeOrder(b, picks, i) <==> i in ri
    requires forall j: nat :: FreeDriver(b, picks, j) <==> j in ai
    requires forall k, l :: 0 <= k < l < |ri| ==> ri[k] < ri[l]
    requires forall k, l :: 0 <= k < l < |ai| ==> ai[k] < ai[l]
    requires forall k :: 0 <= k < |ri| ==> ri[k] < |b.os|
    requires forall l :: 0 <= l < |ai| ==> ai[l] < |b.ds|
    requires score == ScoreIn(b, ri[oi], ai[di], |picks|) < MAX_FLOAT64
    requires forall k, l :: 0 <= k < |ri| && 0 <= l < |ai| ==>
                              var s := ScoreIn(b, ri[k], ai[l], |picks|);
                              score < s || (score == s && (oi < k || (oi == k && di <= l)))
    ensures IsNextPick(b, picks, Pick(ri[oi], ai[di], score))
  {
  }

  // When no pair in the pools scores below the sentinel, or a pool is empty, nothing can be picked.
  lemma NothingLeft(b: Batch, picks: seq<Pick>, ri: seq<nat>, ai: seq<nat>)
    requires forall i: nat :: FreeOrder(b, picks, i) <==> i in ri
    requires forall j: nat :: FreeDriver(b, picks, j) <==> j in ai
    requires forall k :: 0 <= k < |ri| ==> ri[k] < |b.os|
    requires forall l :: 0 <= l < |ai| ==> ai[l] < |b.ds|
    requires forall k, l :: 0 <= k < |ri| && 0 <= l < |ai| ==> ScoreIn(b, ri[k], ai[l], |picks|) >= MAX_FLOAT64
    ensures Exhausted(b, picks)
  {
  }

  // The pools shrink to exactly what is still free after one more pick.
  lemma ExtendRun(b: Batch, picks: seq<Pick>, p: Pick, ri: seq<nat>, ai: seq<nat>, oi: nat, di: nat)
    requires IsGreedyRun(b, picks) && InRange(b, picks) && IsNextPick(b, picks, p)
    requires oi < |ri| && di < |ai| && p.order == ri[oi] && p.driver == ai[di]
    requires forall i: nat :: FreeOrder(b, picks, i) <==> i in ri
    requires forall j: nat :: FreeDriver(b, picks, j) <==> j in ai
    requires forall x :: x in RemoveAt(ri, oi) <==> x in ri && x != ri[oi]
    requires forall x :: x in RemoveAt(ai, di) <==> x in ai && x != ai[di]
    ensures IsGreedyRun(b, picks + [p]) && InRange(b, picks + [p])
    ensures forall i: nat :: FreeOrder(b, picks + [p], i) <==> i in RemoveAt(ri, oi)
    ensures forall j: nat :: FreeDriver(b, picks + [p], j) <==> j in RemoveAt(ai, di)
  {
    hide ScoreIn;
    var next := picks + [p];
    forall t | 0 <= t < |next|
      ensures IsNextPick(b, next[..t], next[t])
    {
      assert next[..t] == picks[..t];
      assert t == |picks| ==> picks[..t] == picks;
    }
    forall i: nat {
      FreeAfter(b, picks, p, i);
    }
  }

  class GreedyMatcher {
    const config: Weights
    const dist: Distance

    constructor (config: Weights, dist: Distance)
      ensures this.config == config && this.dist == dist
    {
      this.config := config;
      this.dist := dist;
    }

    function ScoreOf(o: Order, d: Driver): real
      reads o, d
    {
      Score(config, dist, OrderState(o.id, o.location, o.priority, o.status, o.assignedDriverID),
            DriverState(d.id, d.location, d.maxLoad, d.status, d.load, d.lastAssignedAt, d.skippedCount))
    }

    // Both loops of one round: the first pair, in row order, of lowest score below the sentinel.
    method PickBest(remaining: seq<Order>, avail: seq<Driver>) returns (bestOi: int, bestDi: int, bestScore: real)
      ensures bestOi == -1 ==> bestDi == -1
      ensures bestOi == -1 ==> forall i, j :: 0 <= i < |remaining| && 0 <= j < |avail| ==>
                                                ScoreOf(remaining[i], avail[j]) >= MAX_FLOAT64
      ensures bestOi != -1 ==> 0 <= bestOi < |remaining| && 0 <= bestDi < |avail|
      ensures bestOi != -1 ==> bestScore == ScoreOf(remaining[bestOi], avail[bestDi]) < MAX_FLOAT64
      ensures bestOi != -1 ==> forall i, j :: 0 <= i < |remaining| && 0 <= j < |avail| ==>
                                                var s := ScoreOf(remaining[i], avail[j]);
                                                bestScore < s
                                                    || (bestScore == s && (bestOi < i || (bestOi == i && bestDi <= j)))
    {
      bestOi, bestDi, bestScore := -1, -1, MAX_FLOAT64;
      hide MAX_FLOAT64;
      hide Score;
      for oi := 0 to |remaining|
        invariant bestOi == -1 ==> bestDi == -1 && bestScore == MAX_FLOAT64
        invariant bestOi != -1 ==> 0 <= bestOi < oi && 0 <= bestDi < |avail|
        invariant bestOi != -1 ==> bestScore == ScoreOf(remaining[bestOi], avail[bestDi]) < MAX_FLOAT64
        invariant forall i, j :: 0 <= i < oi && 0 <= j < |avail| ==>
                                   var s := ScoreOf(remaining[i], avail[j]);
                                   bestScore < s || (bestScore == s && (bestOi < i || (bestOi == i && bestDi <= j)))
      {
        for di := 0 to |avail|
          invariant bestOi == -1 ==> bestDi == -1 && bestScore == MAX_FLOAT64
          invariant bestOi != -1 ==> 0 <= bestOi <= oi && 0 <= bestDi < |avail| && (bestOi == oi ==> bestDi < di)
          invariant bestOi != -1 ==> bestScore == ScoreOf(remaining[bestOi], avail[bestDi]) < MAX_FLOAT64
          invariant forall i, j :: 0 <= i < oi && 0 <= j < |avail| ==>
                                     var s := ScoreOf(remaining[i], avail[j]);
                                     bestScore < s || (bestScore == s && (bestOi < i || (bestOi == i && bestDi <= j)))
          invariant forall j :: 0 <= j < di ==>
                                  var s := ScoreOf(remaining[oi], avail[j]);
                                  bestScore < s || (bestScore == s && (bestOi < oi || bestDi <= j))
        {
          var s := ScoreOf(remaining[oi], avail[di]);
          if s < bestScore {
            bestScore := s;
            bestOi := oi;
            bestDi := di;
          }
        }
      }
    }

    method IncrementSkipped(avail: seq<Driver>)
      requires Distinct(avail)
      modifies avail
      ensures forall k :: 0 <= k < |avail| ==> avail[k].State() == Passed(old(avail[k].State()), 1)
    {
      for k := 0 to |avail|
        invariant forall l :: 0 <= l < k ==> avail[l].State() == Passed(old(avail[l].State()), 1)
        invariant forall l :: k <= l < |avail| ==> avail[l].State() == old(avail[l].State())
      {
        avail[k].skippedCount := avail[k].skippedCount + 1;
      }
    }

    // Records a pick in its two objects, and passes over the drivers still in the pool.
    method Assign(orders: seq<Order>, drivers: seq<Driver>, order: Order, driver: Driver, ghost oi: nat, ghost dj: nat,
                  avail: seq<Driver>, ghost ai: seq<nat>, now: int)
      requires Distinct(drivers) && oi < |orders| && dj < |drivers|
      requires order == orders[oi] && driver == drivers[dj]
      requires Pool(drivers, ai, avail) && dj !in ai
      modifies orders, drivers
      ensures forall i :: 0 <= i < |orders| ==>
                            orders[i].State() ==
                            if orders[i] == order then
                              old(orders[i].State()).(status := OrderAssigned, assignedDriverID := driver.id)
                            else old(orders[i].State())
      ensures forall j: nat :: j < |drivers| ==>
                                 drivers[j].State() ==
                                 if j == dj then Assigned(old(drivers[j].State()), now)
                                 else if j in ai then Passed(old(drivers[j].State()), 1) else old(drivers[j].State())
    {
      order.status := OrderAssigned;
      order.assignedDriverID := driver.id;
      driver.status := DriverAssigned;
      driver.load := driver.load + 1;
      driver.lastAssignedAt := now;
      driver.skippedCount := 0;
      IncrementSkipped(avail);
      forall j: nat | j < |drivers| && j in ai
        ensures drivers[j] in avail
      {
        var k :| 0 <= k < |ai| && ai[k] == j;
        assert avail[k] == drivers[j];
      }
    }

    // Assign, as what it makes of the objects that the picks so far have left.
    method Record(orders: seq<Order>, drivers: seq<Driver>, order: Order, driver: Driver, avail: seq<Driver>, now: int,
                  ghost b: Batch, ghost picks: seq<Pick>, ghost p: Pick, ghost ai: seq<nat>)
      requires Distinct(drivers) && |orders| == |b.os| && |drivers| == |b.ds| && InRange(b, picks)
      requires p.order < |orders| && p.driver < |drivers| && FreeDriver(b, picks, p.driver)
      requires order == orders[p.order] && driver == drivers[p.driver] && Pool(drivers, ai, avail)
      requires forall j: nat :: FreeDriver(b, picks, j) && j != p.driver <==> j in ai
      requires OrdersAfter(b, picks, orders, OrderStates(orders)) && DriversAfter(b, picks, DriverStates(drivers), now)
      modifies orders, drivers
      ensures InRange(b, picks + [p]) && OrdersAfter(b, picks + [p], orders, OrderStates(orders))
      ensures DriversAfter(b, picks + [p], DriverStates(drivers), now)
    {
      ghost var os, ds := OrderStates(orders), DriverStates(drivers);
      assert driver.id == b.ds[p.driver].id by {
        assert ds[p.driver] == Passed(b.ds[p.driver], |picks|);
      }
      hide OrdersAfter, DriversAfter, InRange;
      Assign(orders, drivers, order, driver, p.order, p.driver, avail, ai, now);
      OrdersAfterPick(b, picks, p, orders, os, OrderStates(orders));
      DriversAfterPick(b, picks, p, ds, DriverStates(drivers), now);
    }

    // What holds between rounds: the pools are what is still free, in batch order, and the objects
    // are as the picks so far left them.
    ghost predicate Consistent(b: Batch, picks: seq<Pick>, orders: seq<Order>, drivers: seq<Driver>,
                               remaining: seq<Order>, avail: seq<Driver>, ri: seq<nat>, ai: seq<nat>, now: int)
      reads orders, drivers
    {
      && Pool(orders, ri, remaining) && Pool(drivers, ai, avail)
      && |orders| == |b.os| && |drivers| == |b.ds|
      && IsGreedyRun(b, picks) && InRange(b, picks)
      && (forall i: nat :: FreeOrder(b, picks, i) <==> i in ri)
      && (forall j: nat :: FreeDriver(b, picks, j) <==> j in ai)
      && OrdersAfter(b, picks, orders, OrderStates(orders)) && DriversAfter(b, picks, DriverStates(drivers), now)
    }

    // The rest of a round, once its best pair is known.
    method TakePair(orders: seq<Order>, drivers: seq<Driver>, remaining: seq<Order>, avail: seq<Driver>,
                    bestOi: nat, bestDi: nat, now: int,
                    ghost b: Batch, ghost picks: seq<Pick>, ghost p: Pick, ghost ri: seq<nat>, ghost ai: seq<nat>)
      returns (remaining': seq<Order>, avail': seq<Driver>, ghost ri': seq<nat>, ghost ai': seq<nat>)
      requires Distinct(drivers)
      requires Consistent(b, picks, orders, drivers, remaining, avail, ri, ai, now)
      requires bestOi < |remaining| && bestDi < |avail|
      requires IsNextPick(b, picks, p) && p.order == ri[bestOi] && p.driver == ai[bestDi]
      modifies orders, drivers
      ensures Consistent(b, picks + [p], orders, drivers, remaining', avail', ri', ai', now)
      ensures |remaining'| == |remaining| - 1
    {
      PoolWithout(orders, ri, remaining, bestOi);
      PoolWithout(drivers, ai, avail, bestDi);
      ExtendRun(b, picks, p, ri, ai, bestOi, bestDi);
      hide IsNextPick, ScoreIn, IsGreedyRun, OrdersAfter, DriversAfter, RemoveAt, InRange;
      remaining', ri' := RemoveAt(remaining, bestOi), RemoveAt(ri, bestOi);
      avail', ai' := RemoveAt(avail, bestDi), RemoveAt(ai, bestDi);
      Record(orders, drivers, remaining[bestOi], avail[bestDi], avail', now, b, picks, p, ai');
    }

    method Match(orders: seq<Order>, drivers: seq<Driver>, now: int)
      returns (assignments: seq<Assignment>, ghost picks: seq<Pick>)
      requires Distinct(drivers)
      modifies orders, drivers
      ensures var b := old(BatchOf(config, dist, orders, drivers));
              && IsGreedyMatching(b, picks) && InRange(b, picks)
              && |assignments| == |picks|
              && (forall t :: 0 <= t < |picks| ==> assignments[t] == MakeAssignment(b, picks[t], now))
              && OrdersAfter(b, picks, orders, OrderStates(orders))
              && DriversAfter(b, picks, DriverStates(drivers), now)
    {
      ghost var b := BatchOf(config, dist, orders, drivers);
      assignments, picks := [], [];
      var avail, remaining := drivers, orders;
      ghost var ai: seq<nat>, ri: seq<nat> := UpTo(|drivers|), UpTo(|orders|);
      hide Score, RemoveAt, IsNextPick, Exhausted;

      while |remaining| > 0 && |avail| > 0
        invariant Consistent(b, picks, orders, drivers, remaining, avail, ri, ai, now)
        invariant |assignments| == |picks|
        invariant forall t :: 0 <= t < |picks| ==> assignments[t] == MakeAssignment(b, picks[t], now)
        decreases |remaining|
      {
        hide Consistent, ScoreOf, InRange;
        var bestOi, bestDi, bestScore := PickBest(remaining, avail);
        if bestOi == -1 || bestDi == -1 {
          NothingPicked(orders, drivers, remaining, avail, b, picks, ri, ai, now);
          return;
        }
        ghost var p := PickIsNext(orders, drivers, remaining, avail, bestOi, bestDi, b, picks, ri, ai, now);
        assignments := assignments + [Assignment(remaining[bestOi].id, avail[bestDi].id, "PENDING", bestScore, 1, now)];
        remaining, avail, ri, ai :=
          TakePair(orders, drivers, remaining, avail, bestOi, bestDi, now, b, picks, p, ri, ai);
        picks := picks + [p];
      }
      NothingLeft(b, picks, ri, ai);
    }

    // The single best driver for one order; index -1 when there is none below the sentinel.
    method FindBestDriver(order: Order, drivers: seq<Driver>) returns (bestIdx: int, bestScore: real)
      ensures bestIdx == -1 <==> forall j :: 0 <= j < |drivers| ==> ScoreOf(order, drivers[j]) >= MAX_FLOAT64
      ensures bestIdx == -1 ==> bestScore == 0.0
      ensures bestIdx != -1 ==> 0 <= bestIdx < |drivers| && bestScore == ScoreOf(order, drivers[bestIdx])
      ensures bestIdx != -1 ==> forall j :: 0 <= j < |drivers| ==> bestScore <= ScoreOf(order, drivers[j])
      ensures bestIdx != -1 ==> forall j :: 0 <= j < bestIdx ==> bestScore < ScoreOf(order, drivers[j])
    {
      bestIdx, bestScore := -1, MAX_FLOAT64;
      hide Score;
      for i := 0 to |drivers|
        invariant bestIdx == -1 ==> bestScore == MAX_FLOAT64
        invariant bestIdx != -1 ==> 0 <= bestIdx < i && bestScore == ScoreOf(order, drivers[bestIdx]) < MAX_FLOAT64
        invariant forall j :: 0 <= j < i ==> bestScore <= ScoreOf(order, drivers[j])
        invariant bestIdx != -1 ==> forall j :: 0 <= j < bestIdx ==> bestScore < ScoreOf(order, drivers[j])
      {
        var s := ScoreOf(order, drivers[i]);
        if s < bestScore {
          bestScore := s;
          bestIdx := i;
        }
      }
      if bestIdx == -1 {
        bestScore := 0.0;
      }
    }

    // The scores of the pooled objects are the batch scores of their positions in this round.
    lemma PoolScores(orders: seq<Order>, drivers: seq<Driver>, remaining: seq<Order>, avail: seq<Driver>,
                     b: Batch, picks: seq<Pick>, ri: seq<nat>, ai: seq<nat>, now: int)
      requires b.w == config && b.dist == dist
      requires Consistent(b, picks, orders, drivers, remaining, avail, ri, ai, now)
      ensures forall k, l :: 0 <= k < |ri| && 0 <= l < |ai| ==>
                               ScoreOf(remaining[k], avail[l]) == ScoreIn(b, ri[k], ai[l], |picks|)
    {
      hide Score;
      forall k, l | 0 <= k < |ri| && 0 <= l < |ai|
        ensures ScoreOf(remaining[k], avail[l]) == ScoreIn(b, ri[k], ai[l], |picks|)
      {
        assert FreeDriver(b, picks, ai[l]);
        assert avail[l].State() == DriverStates(drivers)[ai[l]] == Passed(b.ds[ai[l]], |picks|);
        StatusUnscored(config, dist, OrderStates(orders)[ri[k]], b.os[ri[k]], avail[l].State());
      }
    }

    // What PickBest finds is the next pick of the batch.
    lemma PickIsNext(orders: seq<Order>, drivers: seq<Driver>, remaining: seq<Order>, avail: seq<Driver>,
                     bestOi: nat, bestDi: nat, b: Batch, picks: seq<Pick>, ri: seq<nat>, ai: seq<nat>, now: int)
      returns (p: Pick)
      requires b.w == config && b.dist == dist
      requires Consistent(b, picks, orders, drivers, remaining, avail, ri, ai, now)
      requires bestOi < |remaining| && bestDi < |avail|
      requires var best := ScoreOf(remaining[bestOi], avail[bestDi]);
               && best < MAX_FLOAT64
               && forall i, j :: 0 <= i < |remaining| && 0 <= j < |avail| ==>
                                   var s := ScoreOf(remaining[i], avail[j]);
                                   best < s || (best == s && (bestOi < i || (bestOi == i && bestDi <= j)))
      ensures bestOi < |ri| && bestDi < |ai| && p.order == ri[bestOi] < |b.os| && p.driver == ai[bestDi] < |b.ds|
      ensures p.score == ScoreOf(remaining[bestOi], avail[bestDi]) && IsNextPick(b, picks, p)
      ensures remaining[bestOi].id == b.os[p.order].id && avail[bestDi].id == b.ds[p.driver].id
    {
      hide Score, IsNextPick, ScoreIn;
      var score := ScoreOf(remaining[bestOi], avail[bestDi]);
      p := Pick(ri[bestOi], ai[bestDi], score);
      PoolScores(orders, drivers, remaining, avail, b, picks, ri, ai, now);
      BestIsNext(b, picks, ri, ai, bestOi, bestDi, score);
      assert FreeDriver(b, picks, p.driver);
      assert orders[p.order].State() == OrderStates(orders)[p.order];
      assert drivers[p.driver].State() == DriverStates(drivers)[p.driver] == Passed(b.ds[p.driver], |picks|);
    }

    // When PickBest finds no pair, no pair can be picked.
    lemma NothingPicked(orders: seq<Order>, drivers: seq<Driver>, remaining: seq<Order>, avail: seq<Driver>,
                        b: Batch, picks: seq<Pick>, ri: seq<nat>, ai: seq<nat>, now: int)
      requires b.w == config && b.dist == dist
      requires Consistent(b, picks, orders, drivers, remaining, avail, ri, ai, now)
      requires forall i, j :: 0 <= i < |remaining| && 0 <= j < |avail| ==>
                                ScoreOf(remaining[i], avail[j]) >= MAX_FLOAT64
      ensures Exhausted(b, picks)
    {
      hide Score, ScoreIn, Exhausted;
      PoolScores(orders, drivers, remaining, avail, b, picks, ri, ai, now);
      NothingLeft(b, picks, ri, ai);
    }
  }
}
