/** The token-bucket limiter. A request reads the clock twice: at `t1` it credits the time since the
    last refill, and at `t2` it notes the refill. `float64` seconds are modelled by `real`. */
module TokenBuckets {
  import opened Collections
  import opened KeyedRuns
  import opened Reals

  datatype Bucket = Bucket(tokens: real, lastRefill: real)

  datatype Reading = Reading(t1: real, t2: real)

  // Tokens that flow in over a stretch of time.
  function Earned(elapsed: real, rate: real): real {
    elapsed * rate
  }

  // Tokens available to a request before it takes one.
  function Level(b: Option<Bucket>, limit: int, rate: real, now: Reading): real {
    if b.None? then limit as real
    else Min(b.value.tokens + Earned(now.t1 - b.value.lastRefill, rate), limit as real)
  }

  function Decide(b: Option<Bucket>, limit: int, rate: real, now: Reading): bool {
    b.None? || Level(b, limit, rate, now) >= 1.0
  }

  function Next(b: Option<Bucket>, limit: int, rate: real, now: Reading): Bucket {
    var tokens := Level(b, limit, rate, now);
    Bucket(if Decide(b, limit, rate, now) then tokens - 1.0 else tokens, now.t2)
  }

  // One request, as a function of the bucket and the clock.
  function Taking(limit: int, rate: real): (Option<Bucket>, Reading) -> Bucket {
    (b: Option<Bucket>, now: Reading) => Next(b, limit, rate, now)
  }

  function StateAfter(rs: seq<Reading>, limit: int, rate: real): Option<Bucket> {
    Run(Taking(limit, rate), rs)
  }

  function LevelAt(rs: seq<Reading>, limit: int, rate: real, i: nat): real
    requires i < |rs|
  {
    Level(StateAfter(rs[..i], limit, rate), limit, rate, rs[i])
  }

  predicate Admitted(rs: seq<Reading>, limit: int, rate: real, i: nat)
    requires i < |rs|
  {
    Decide(StateAfter(rs[..i], limit, rate), limit, rate, rs[i])
  }

  function One(b: bool): real {
    if b then 1.0 else 0.0
  }

  // Clock readings never go back, within a request or between requests.
  ghost predicate NonDecreasing(rs: seq<Reading>) {
    && (forall i :: 0 <= i < |rs| ==> rs[i].t1 <= rs[i].t2)
    && (forall i, j :: 0 <= i < j < |rs| ==> rs[i].t2 <= rs[j].t1)
  }

  // ---- One step of a run ----

  // Tokens credited to request j for the time since request j-1.
  function Refill(rs: seq<Reading>, rate: real, j: nat): real
    requires 0 < j < |rs|
  {
    Earned(rs[j].t1 - rs[j - 1].t2, rate)
  }

  lemma LevelStep(rs: seq<Reading>, limit: int, rate: real, j: nat)
    requires 0 < j < |rs| && limit >= 1
    ensures LevelAt(rs, limit, rate, j) ==
            Min(LevelAt(rs, limit, rate, j - 1) - One(Admitted(rs, limit, rate, j - 1)) + Refill(rs, rate, j),
                limit as real)
  {
    assert rs[..j][..j - 1] == rs[..j - 1];
    hide Level;
    assert StateAfter(rs[..j], limit, rate) == Some(Next(StateAfter(rs[..j - 1], limit, rate), limit, rate, rs[j - 1]));
    hide StateAfter, Min, Earned;
    LevelOf(Next(StateAfter(rs[..j - 1], limit, rate), limit, rate, rs[j - 1]), limit, rate, rs[j]);
  }

  lemma LevelOf(b: Bucket, limit: int, rate: real, now: Reading)
    ensures Level(Some(b), limit, rate, now) == Min(b.tokens + Earned(now.t1 - b.lastRefill, rate), limit as real)
  {
  }

  lemma LevelStart(rs: seq<Reading>, limit: int, rate: real)
    requires rs != []
    ensures LevelAt(rs, limit, rate, 0) == limit as real && Admitted(rs, limit, rate, 0)
  {
  }

  lemma AdmittedByLevel(rs: seq<Reading>, limit: int, rate: real, j: nat)
    requires j < |rs| && limit >= 1
    ensures Admitted(rs, limit, rate, j) <==> LevelAt(rs, limit, rate, j) >= 1.0
  {
  }

  // ---- The exact admission rule ----

  // Tokens credited between request i and request j.
  function Credit(rs: seq<Reading>, rate: real, i: nat, j: nat): real
    requires i <= j < |rs|
    decreases j
  {
    if i == j then 0.0 else Credit(rs, rate, i, j - 1) + Refill(rs, rate, j)
  }

  // How many of the requests i, ..., j-1 were admitted.
  function AdmittedFrom(rs: seq<Reading>, limit: int, rate: real, i: nat, j: nat): real
    requires i <= j <= |rs|
    decreases j
  {
    if i == j then 0.0 else AdmittedFrom(rs, limit, rate, i, j - 1) + One(Admitted(rs, limit, rate, j - 1))
  }

  // What a bucket that was full at request i would still hold at request j.
  function LeftSince(rs: seq<Reading>, limit: int, rate: real, i: nat, j: nat): real
    requires i <= j < |rs|
  {
    limit as real + Credit(rs, rate, i, j) - AdmittedFrom(rs, limit, rate, i, j)
  }

  lemma {:induction false} LevelIsLeast(rs: seq<Reading>, limit: int, rate: real, j: nat) returns (k: nat)
    requires j < |rs| && limit >= 1
    ensures forall i :: 0 <= i <= j ==> LevelAt(rs, limit, rate, j) <= LeftSince(rs, limit, rate, i, j)
    ensures k <= j && LevelAt(rs, limit, rate, j) == LeftSince(rs, limit, rate, k, j)
  {
    hide LevelAt, Admitted, Refill;
    if j == 0 {
      LevelStart(rs, limit, rate);
      k := 0;
    } else {
      k := LevelIsLeast(rs, limit, rate, j - 1);
      LevelStep(rs, limit, rate, j);
      var c, a := Refill(rs, rate, j), One(Admitted(rs, limit, rate, j - 1));
      forall i | 0 <= i < j
        ensures LeftSince(rs, limit, rate, i, j) == LeftSince(rs, limit, rate, i, j - 1) + c - a
      {
      }
      assert LeftSince(rs, limit, rate, j, j) == limit as real;
      if LevelAt(rs, limit, rate, j - 1) - a + c > limit as real {
        k := j;
      } else {
        assert LeftSince(rs, limit, rate, k, j) == LevelAt(rs, limit, rate, j);
      }
    }
  }

  /** Exactness. A request is admitted if and only if, counting from every earlier request, a bucket
      that was full then still holds a token now: bursts up to the limit, refilled at the rate, and
      nothing else decides. */
  lemma AdmittedIffConforming(rs: seq<Reading>, limit: int, rate: real, j: nat)
    requires j < |rs| && limit >= 1
    ensures Admitted(rs, limit, rate, j) <==>
            forall i :: 0 <= i <= j ==>
                AdmittedFrom(rs, limit, rate, i, j) + 1.0 <= limit as real + Credit(rs, rate, i, j)
  {
    hide LevelAt, Admitted, Credit, AdmittedFrom;
    AdmittedByLevel(rs, limit, rate, j);
    var k := LevelIsLeast(rs, limit, rate, j);
    if Admitted(rs, limit, rate, j) {
      forall i | 0 <= i <= j
        ensures AdmittedFrom(rs, limit, rate, i, j) + 1.0 <= limit as real + Credit(rs, rate, i, j)
      {
        assert LeftSince(rs, limit, rate, i, j) >= LevelAt(rs, limit, rate, j);
      }
    } else {
      assert LeftSince(rs, limit, rate, k, j) < 1.0;
      assert AdmittedFrom(rs, limit, rate, k, j) + 1.0 > limit as real + Credit(rs, rate, k, j);
    }
  }

  // ---- The rate bound ----

  // How many of the first n requests were admitted with t1 in [s, t].
  function AdmittedIn(rs: seq<Reading>, limit: int, rate: real, n: nat, s: real, t: real): real
    requires n <= |rs|
  {
    if n == 0 then 0.0
    else AdmittedIn(rs, limit, rate, n - 1, s, t) + One(Admitted(rs, limit, rate, n - 1) && s <= rs[n - 1].t1 <= t)
  }

  lemma {:induction false} LevelNonNegative(rs: seq<Reading>, limit: int, rate: real, j: nat)
    requires NonDecreasing(rs) && j < |rs| && limit >= 1 && rate >= 0.0
    ensures 0.0 <= LevelAt(rs, limit, rate, j) <= limit as real
  {
    hide LevelAt, Admitted, Earned;
    if j == 0 {
      LevelStart(rs, limit, rate);
    } else {
      LevelNonNegative(rs, limit, rate, j - 1);
      LevelStep(rs, limit, rate, j);
      AdmittedByLevel(rs, limit, rate, j - 1);
      EarnedNonNegative(rs[j].t1 - rs[j - 1].t2, rate);
    }
  }

  lemma EarnedNonNegative(elapsed: real, rate: real)
    requires elapsed >= 0.0 && rate >= 0.0
    ensures Earned(elapsed, rate) >= 0.0
  {
  }

  // Time between b and c, after time a, earns no more than all of it.
  lemma LaterCredit(a: real, b: real, c: real, s: real, rate: real)
    requires a <= b <= c && rate >= 0.0
    ensures Earned(a - s, rate) + Earned(c - b, rate) <= Earned(c - s, rate)
  {
  }

  // Requests admitted since s, and the tokens left after request j, came from a full bucket and the
  // credit since s.
  lemma {:induction false} SpentSince(rs: seq<Reading>, limit: int, rate: real, j: nat, s: real, t: real)
    requires NonDecreasing(rs) && j < |rs| && limit >= 1 && rate >= 0.0 && s <= rs[j].t1 <= t
    ensures AdmittedIn(rs, limit, rate, j + 1, s, t) + LevelAt(rs, limit, rate, j) - One(Admitted(rs, limit, rate, j))
         <= limit as real + Earned(rs[j].t1 - s, rate)
  {
    hide LevelAt, Admitted, Earned;
    LevelNonNegative(rs, limit, rate, j);
    EarnedNonNegative(rs[j].t1 - s, rate);
    if j == 0 || rs[j - 1].t1 < s {
      NoneBefore(rs, limit, rate, j, s, t);
    } else {
      SpentSince(rs, limit, rate, j - 1, s, t);
      LevelStep(rs, limit, rate, j);
      LaterCredit(rs[j - 1].t1, rs[j - 1].t2, rs[j].t1, s, rate);
    }
  }

  lemma {:induction false} NoneBefore(rs: seq<Reading>, limit: int, rate: real, n: nat, s: real, t: real)
    requires NonDecreasing(rs) && n <= |rs| && (n > 0 ==> rs[n - 1].t1 < s)
    ensures AdmittedIn(rs, limit, rate, n, s, t) == 0.0
  {
    if n > 0 {
      assert n > 1 ==> rs[n - 2].t1 <= rs[n - 2].t2 <= rs[n - 1].t1;
      NoneBefore(rs, limit, rate, n - 1, s, t);
    }
  }

  lemma {:induction false} AdmittedAtMostEarned(rs: seq<Reading>, limit: int, rate: real, n: nat, s: real, t: real)
    requires NonDecreasing(rs) && n <= |rs| && limit >= 1 && rate >= 0.0 && s <= t
    ensures AdmittedIn(rs, limit, rate, n, s, t) <= limit as real + Earned(t - s, rate)
  {
    hide Admitted, LevelAt, Earned;
    EarnedNonNegative(t - s, rate);
    if n > 0 {
      AdmittedAtMostEarned(rs, limit, rate, n - 1, s, t);
      var j := n - 1;
      if s <= rs[j].t1 <= t {
        SpentSince(rs, limit, rate, j, s, t);
        LevelNonNegative(rs, limit, rate, j);
        AdmittedByLevel(rs, limit, rate, j);
        LaterCredit(rs[j].t1, rs[j].t1, t, s, rate);
        EarnedNonNegative(t - rs[j].t1, rate);
      }
    }
  }

  /** The bound: in every interval [s, t] of every run, at most limit + rate (t - s) requests are
      admitted. */
  lemma NeverMoreThanRate(rs: seq<Reading>, limit: int, rate: real, s: real, t: real)
    requires NonDecreasing(rs) && limit >= 1 && rate >= 0.0 && s <= t
    ensures AdmittedIn(rs, limit, rate, |rs|, s, t) <= limit as real + (t - s) * rate
  {
    AdmittedAtMostEarned(rs, limit, rate, |rs|, s, t);
    hide AdmittedIn;
  }

  ghost predicate Bounded(limit: int, rate: real) {
    forall rs: seq<Reading>, s: real, t: real ::
      NonDecreasing(rs) && s <= t ==> AdmittedIn(rs, limit, rate, |rs|, s, t) <= limit as real + (t - s) * rate
  }

  /** With the rate that the limit and the window set, the bound holds of every run exactly for
      limits of at least one: the first request of a key is admitted whatever the limit is. */
  lemma BoundedIff(limit: int, windowSeconds: real)
    requires windowSeconds > 0.0
    ensures Bounded(limit, limit as real / windowSeconds) <==> limit >= 1
  {
    var rate := limit as real / windowSeconds;
    if limit >= 1 {
      RateSign(limit as real, windowSeconds, rate);
      forall rs: seq<Reading>, s: real, t: real | NonDecreasing(rs) && s <= t
        ensures AdmittedIn(rs, limit, rate, |rs|, s, t) <= limit as real + (t - s) * rate
      {
        NeverMoreThanRate(rs, limit, rate, s, t);
      }
    } else {
      var rs := [Reading(0.0, 0.0)];
      assert Admitted(rs, limit, rate, 0);
      assert AdmittedIn(rs, limit, rate, 0, 0.0, 0.0) == 0.0;
      assert AdmittedIn(rs, limit, rate, |rs|, 0.0, 0.0) == 1.0;
      assert NonDecreasing(rs);
      assert (0.0 - 0.0) * rate == 0.0;
    }
  }

  lemma RateSign(limit: real, windowSeconds: real, rate: real)
    requires windowSeconds > 0.0 && limit >= 0.0 && rate == limit / windowSeconds
    ensures rate >= 0.0
  {
  }

  // The table of a limiter after requests of all keys.
  function TableAfter(reqs: seq<(string, Reading)>, limit: int, rate: real): map<string, Bucket> {
    RunAll(Taking(limit, rate), reqs)
  }

  /** In a run of a whole limiter every request is decided as in the run of its key's own requests, so
      the bound holds for each key however the keys interleave. */
  lemma EachKeyBounded(reqs: seq<(string, Reading)>, limit: int, windowSeconds: real, key: string, now: Reading,
                       s: real, t: real)
    requires windowSeconds > 0.0 && limit >= 1 && s <= t && NonDecreasing(Of(reqs, key) + [now])
    ensures var rate := limit as real / windowSeconds;
            var rs := Of(reqs, key) + [now];
            && Decide(Lookup(TableAfter(reqs, limit, rate), key), limit, rate, now) ==
               Admitted(rs, limit, rate, |rs| - 1)
            && AdmittedIn(rs, limit, rate, |rs|, s, t) <= limit as real + (t - s) * rate
  {
    hide AdmittedIn, NonDecreasing, Decide, Taking, Admitted, TableAfter, Of;
    var rate := limit as real / windowSeconds;
    RateSign(limit as real, windowSeconds, rate);
    DecidedByOwnRun(reqs, limit, rate, key, now);
    NeverMoreThanRate(Of(reqs, key) + [now], limit, rate, s, t);
  }

  lemma DecidedByOwnRun(reqs: seq<(string, Reading)>, limit: int, rate: real, key: string, now: Reading)
    ensures var rs := Of(reqs, key) + [now];
            Decide(Lookup(TableAfter(reqs, limit, rate), key), limit, rate, now) == Admitted(rs, limit, rate, |rs| - 1)
  {
    var rs := Of(reqs, key) + [now];
    assert rs[..|rs| - 1] == Of(reqs, key);
    KeysAreIndependent(Taking(limit, rate), reqs, key);
    hide Decide, Taking;
  }

  class TokenBucket {
    var buckets: map<string, Bucket>

    constructor ()
      ensures buckets == map[]
    {
      buckets := map[];
    }

    // `windowSeconds` is the length of the window, which sets the refill rate.
    method Allow(key: string, limit: int, windowSeconds: real, now: Reading) returns (ok: bool)
      requires windowSeconds != 0.0
      modifies this
      ensures ok == Decide(Lookup(old(buckets), key), limit, limit as real / windowSeconds, now)
      ensures buckets == old(buckets)[key := Next(Lookup(old(buckets), key), limit, limit as real / windowSeconds, now)]
    {
      hide Earned;
      if key !in buckets {
        buckets := buckets[key := Bucket(limit as real - 1.0, now.t2)];
        return true;
      }
      var b := buckets[key];
      var rate := limit as real / windowSeconds;
      var elapsed := now.t1 - b.lastRefill;
      var tokens := b.tokens + Earned(elapsed, rate);
      if tokens > limit as real {
        tokens := limit as real;
      }
      if tokens >= 1.0 {
        buckets := buckets[key := Bucket(tokens - 1.0, now.t2)];
        return true;
      }
      buckets := buckets[key := Bucket(tokens, now.t2)];
      return false;
    }
  }
}
