/** Forecast accuracy per product and hub: a ring buffer of the last thirty percentage errors, and
    the rolling means computed from it. */
module ForecastAccuracy {
  import opened Collections
  import opened Reals
  import opened Rounding

  const WINDOW: nat := 30
  const WEEK: nat := 7
  const WARNING_THRESHOLD := 30.0

  datatype Stats = Stats(dailyMape: seq<real>, weeklyMape: real, monthlyMape: real, dataPoints: nat)

  const NO_STATS := Stats(seq(WINDOW, _ => 0.0), 0.0, 0.0, 0)

  // ---- What the statistics mean, on the list of all errors recorded ----

  function Sum(s: seq<real>): real {
    if s == [] then 0.0 else Sum(s[1..]) + s[0]
  }

  function RoundedMean(s: seq<real>): real {
    if s == [] then 0.0 else Round2(Sum(s) / |s| as real)
  }

  function Padded(s: seq<real>): seq<real> {
    seq(WINDOW, i requires 0 <= i < WINDOW => if i < |s| then s[i] else 0.0)
  }

  function StatsOf(log: seq<real>): Stats {
    var kept := LastOf(log, WINDOW);
    Stats(Padded(kept), RoundedMean(LastOf(log, WEEK)), RoundedMean(kept), |kept|)
  }

  // The percentage error of one forecast; negative when the actual value is.
  function Ape(forecast: real, actual: real): real
    requires actual != 0.0
  {
    (if forecast < actual then actual - forecast else forecast - actual) / actual * 100.0
  }

  /** A forecast that is off by p percent, upwards or downwards, has an error of p, and of -p when the actual
      value is negative. */
  lemma OffByPercent(actual: real, p: real)
    requires actual != 0.0 && p >= 0.0
    ensures var off, ape := p / 100.0 * actual, if actual > 0.0 then p else -p;
            Ape(actual + off, actual) == ape && Ape(actual - off, actual) == ape
  {
    var off := p / 100.0 * actual;
    assert off / actual == p / 100.0;
    assert off >= 0.0 <==> actual > 0.0 || p == 0.0;
    assert -off / actual == -(p / 100.0);
  }

  lemma {:induction false} SumAtMost(s: seq<real>, bound: real)
    requires forall i :: 0 <= i < |s| ==> s[i] <= bound
    ensures Sum(s) <= bound * |s| as real
  {
    if s != [] {
      SumAtMost(s[1..], bound);
      assert bound * |s| as real == bound * |s[1..]| as real + bound;
    }
  }

  lemma {:induction false} SumAtLeast(s: seq<real>, bound: real)
    requires forall i :: 0 <= i < |s| ==> s[i] >= bound
    ensures Sum(s) >= bound * |s| as real
  {
    if s != [] {
      SumAtLeast(s[1..], bound);
      assert bound * |s| as real == bound * |s[1..]| as real + bound;
    }
  }

  lemma DivideBound(sum: real, bound: real, n: real, p: real)
    requires n > 0.0 && p == bound * n
    ensures sum <= p ==> sum / n <= bound
    ensures sum >= p ==> sum / n >= bound
  {
  }

  // mean is that of the last n errors, to the nearest hundredth.
  ghost predicate MeanOfLast(mean: real, log: seq<real>, n: nat)
    requires 0 < n <= |log|
  {
    -0.005 <= mean - Sum(log[|log| - n..]) / n as real <= 0.005
  }

  /** The daily values are the last errors, up to thirty, oldest first and filled up with zeros; the means are
      those of the last errors, up to seven and up to thirty, to the nearest hundredth. */
  lemma StatsRead(log: seq<real>)
    ensures var stats := StatsOf(log);
            var n, week := if |log| < 30 then |log| else 30, if |log| < 7 then |log| else 7;
            && stats.dataPoints == n && |stats.dailyMape| == 30
            && (forall i :: 0 <= i < 30 ==> stats.dailyMape[i] == if i < n then log[|log| - n + i] else 0.0)
            && (log == [] ==> stats.weeklyMape == stats.monthlyMape == 0.0)
            && (log != [] ==> MeanOfLast(stats.weeklyMape, log, week) && MeanOfLast(stats.monthlyMape, log, n))
  {
    if log != [] {
      MeanNear(log, WEEK);
      MeanNear(log, WINDOW);
      hide RoundedMean, MeanOfLast;
    }
  }

  lemma MeanNear(log: seq<real>, n: nat)
    requires log != [] && n > 0
    ensures MeanOfLast(RoundedMean(LastOf(log, n)), log, if |log| < n then |log| else n)
  {
    var last := LastOf(log, n);
    assert last == log[|log| - |last|..];
    Round2Near(Sum(last) / |last| as real);
    hide Sum, Round2;
  }

  /** A product is flagged only if one of its last seven errors is above the threshold, and it is
      flagged if all of them are at least one hundredth above. */
  lemma FlaggedByItsLastWeek(log: seq<real>)
    ensures StatsOf(log).weeklyMape > WARNING_THRESHOLD ==>
            exists i :: 0 <= i < |LastOf(log, WEEK)| && LastOf(log, WEEK)[i] > 30.0
    ensures log != [] && (forall i :: 0 <= i < |LastOf(log, WEEK)| ==> LastOf(log, WEEK)[i] >= 30.01) ==>
              StatsOf(log).weeklyMape > WARNING_THRESHOLD
  {
    var week := LastOf(log, WEEK);
    if week != [] {
      var n, mean := |week| as real, Sum(week) / |week| as real;
      assert Cents(3000) == 30.0 && Cents(3001) == 30.01;
      Round2Whole(3000);
      Round2Whole(3001);
      if forall i :: 0 <= i < |week| ==> week[i] <= 30.0 {
        SumAtMost(week, 30.0);
        DivideBound(Sum(week), 30.0, n, 30.0 * n);
        RoundMonotone(mean, 30.0);
      }
      if forall i :: 0 <= i < |week| ==> week[i] >= 30.01 {
        SumAtLeast(week, 30.01);
        DivideBound(Sum(week), 30.01, n, 30.01 * n);
        RoundMonotone(30.01, mean);
      }
    }
  }

  /** Only the last thirty errors matter. */
  lemma OlderErrorsForgotten(log: seq<real>, log': seq<real>)
    requires |log| >= WINDOW && |log'| >= WINDOW && LastOf(log, WINDOW) == LastOf(log', WINDOW)
    ensures StatsOf(log) == StatsOf(log')
  {
    LastOfLast(log);
    LastOfLast(log');
  }

  lemma LastOfLast(log: seq<real>)
    ensures LastOf(log, WEEK) == LastOf(LastOf(log, WINDOW), WEEK)
  {
  }

  // ---- Keys ----

  function AccuracyKey(sku: string, hubID: string): string {
    sku + "|" + hubID
  }

  /** Different pairs can share a key, and so their errors: a pair has such a twin exactly when one
      of its two names contains the separator. */
  lemma SharesKeyIff(sku: string, hubID: string)
    ensures (exists s, h :: (s, h) != (sku, hubID) && AccuracyKey(s, h) == AccuracyKey(sku, hubID)) <==>
            '|' in sku || '|' in hubID
  {
    var key := AccuracyKey(sku, hubID);
    if '|' in sku {
      var i :| 0 <= i < |sku| && sku[i] == '|';
      assert AccuracyKey(sku[..i], sku[i + 1..] + "|" + hubID) == key;
      assert (sku[..i], sku[i + 1..] + "|" + hubID) != (sku, hubID);
    } else if '|' in hubID {
      var i :| 0 <= i < |hubID| && hubID[i] == '|';
      assert AccuracyKey(sku + "|" + hubID[..i], hubID[i + 1..]) == key;
      assert (sku + "|" + hubID[..i], hubID[i + 1..]) != (sku, hubID);
    } else {
      forall s, h | AccuracyKey(s, h) == key
        ensures s == sku && h == hubID
      {
        OneSeparator(s, h, sku, hubID);
      }
    }
  }

  lemma SeparatorAt(sku: string, hubID: string, i: nat)
    requires '|' !in sku && '|' !in hubID && i < |AccuracyKey(sku, hubID)|
    ensures AccuracyKey(sku, hubID)[i] == '|' <==> i == |sku|
  {
  }

  lemma OneSeparator(s: string, h: string, sku: string, hubID: string)
    requires '|' !in sku && '|' !in hubID && AccuracyKey(s, h) == AccuracyKey(sku, hubID)
    ensures s == sku && h == hubID
  {
    var key := AccuracyKey(sku, hubID);
    assert key[|s|] == '|';
    SeparatorAt(sku, hubID, |s|);
    assert s == key[..|s|] && h == key[|s| + 1..];
  }

  // ---- The ring buffer ----

  // Filling the slot of error n disturbs none of the 29 before it.
  lemma NextSlot(n: nat)
    ensures (n % WINDOW + 1) % WINDOW == (n + 1) % WINDOW
    ensures forall j: nat :: n - WINDOW < j < n ==> j % WINDOW != n % WINDOW
  {
  }

  class SkuAccuracy {
    const apes: array<real>
    var pos: nat
    var size: nat
    ghost var log: seq<real>

    // The error recorded as number j lies at j modulo the window, for the last ones recorded.
    ghost predicate Valid()
      reads this, apes
    {
      && apes.Length == WINDOW
      && size == (if |log| < WINDOW then |log| else WINDOW)
      && pos == |log| % WINDOW
      && forall j :: |log| - size <= j < |log| ==> apes[j % WINDOW] == log[j]
    }

    constructor ()
      ensures Valid() && log == [] && fresh(apes)
    {
      apes := new real[WINDOW];
      pos, size, log := 0, 0, [];
    }

    method Add(ape: real)
      requires Valid()
      modifies this, apes
      ensures Valid() && log == old(log) + [ape]
    {
      NextSlot(|log|);
      apes[pos] := ape;
      pos := (pos + 1) % WINDOW;
      if size < WINDOW {
        size := size + 1;
      }
      log := log + [ape];
    }

    // The i-th error kept, oldest first.
    function At(i: nat): (r: real)
      requires Valid() && i < size
      reads this, apes
      ensures r == LastOf(log, WINDOW)[i]
    {
      apes[(pos - size + i + WINDOW) % WINDOW]
    }

    method ComputeStats() returns (stats: Stats)
      requires Valid()
      ensures stats == StatsOf(log)
    {
      ghost var kept := LastOf(log, WINDOW);
      var daily: seq<real> := seq(WINDOW, _ => 0.0);
      for i := 0 to size
        invariant |daily| == WINDOW
        invariant forall k :: 0 <= k < WINDOW ==> daily[k] == if k < i then kept[k] else 0.0
      {
        daily := daily[i := At(i)];
      }
      assert daily == Padded(kept);
      var weekly := WeeklyMean();
      var monthly := MonthlyMean();
      return Stats(daily, weekly, monthly, size);
    }

    method WeeklyMean() returns (mean: real)
      requires Valid()
      ensures mean == RoundedMean(LastOf(log, WEEK))
    {
      ghost var kept := LastOf(log, WINDOW);
      var weekCount, weekSum := 0, 0.0;
      var i: int := size - 1;
      while i >= 0 && i >= size - WEEK
        invariant -1 <= i < size && i >= size - WEEK - 1 && weekCount == size - 1 - i
        invariant weekSum == Sum(kept[i + 1..])
      {
        assert kept[i..][1..] == kept[i + 1..];
        weekSum := weekSum + At(i);
        weekCount := weekCount + 1;
        i := i - 1;
      }
      assert kept[i + 1..] == LastOf(log, WEEK);
      if weekCount > 0 {
        return Round2(weekSum / weekCount as real);
      }
      return 0.0;
    }

    method MonthlyMean() returns (mean: real)
      requires Valid()
      ensures mean == RoundedMean(LastOf(log, WINDOW))
    {
      ghost var kept := LastOf(log, WINDOW);
      var monthSum := 0.0;
      for i := 0 to size
        invariant monthSum == Sum(kept[..i])
      {
        SumAppend(kept[..i], kept[i]);
        assert kept[..i + 1] == kept[..i] + [kept[i]];
        monthSum := monthSum + At(i);
      }
      assert kept[..size] == kept;
      if size > 0 {
        return Round2(monthSum / size as real);
      }
      return 0.0;
    }
  }

  lemma {:induction false} SumAppend(s: seq<real>, x: real)
    ensures Sum(s + [x]) == Sum(s) + x
  {
    if s == [] {
      assert s + [x] == [x];
    } else {
      assert (s + [x])[1..] == s[1..] + [x];
      SumAppend(s[1..], x);
    }
  }

  // ---- The monitor ----

  class AccuracyMonitor {
    var apeMap: map<string, SkuAccuracy>

    ghost predicate Valid()
      reads this, apeMap.Values, set a | a in apeMap.Values :: a.apes
    {
      && (forall k :: k in apeMap ==> apeMap[k].Valid())
      && (forall k, l :: k in apeMap && l in apeMap && k != l ==>
            apeMap[k] != apeMap[l] && apeMap[k].apes != apeMap[l].apes)
    }

    // All errors ever recorded under a key.
    ghost function History(key: string): seq<real>
      reads this, apeMap.Values
    {
      if key in apeMap then apeMap[key].log else []
    }

    constructor ()
      ensures Valid() && forall k :: History(k) == []
    {
      apeMap := map[];
    }

    method Record(sku: string, hubID: string, forecast: real, actual: real)
      requires Valid()
      modifies this, apeMap.Values, set a | a in apeMap.Values :: a.apes
      ensures Valid()
      ensures var key := AccuracyKey(sku, hubID);
              History(key) == if actual == 0.0 then old(History(key)) else old(History(key)) + [Ape(forecast, actual)]
      ensures forall k :: k != AccuracyKey(sku, hubID) ==> History(k) == old(History(k))
    {
      if actual == 0.0 {
        return;
      }
      var key := AccuracyKey(sku, hubID);
      if key !in apeMap {
        var sa := new SkuAccuracy();
        apeMap := apeMap[key := sa];
      }
      apeMap[key].Add(Ape(forecast, actual));
    }

    method GetStats(sku: string, hubID: string) returns (stats: Stats)
      requires Valid()
      ensures stats == StatsOf(History(AccuracyKey(sku, hubID)))
    {
      var key := AccuracyKey(sku, hubID);
      if key !in apeMap {
        return NO_STATS;
      }
      stats := apeMap[key].ComputeStats();
    }

    ghost predicate Flagged(key: string)
      reads this, apeMap.Values
    {
      key in apeMap && StatsOf(History(key)).weeklyMape > WARNING_THRESHOLD
    }

    method IsFlagged(key: string) returns (flagged: bool)
      requires Valid() && key in apeMap
      ensures flagged == Flagged(key)
    {
      var stats := apeMap[key].ComputeStats();
      return stats.weeklyMape > WARNING_THRESHOLD;
    }

    // Every flagged key once, in an arbitrary order.
    method GetDegradedSKUs() returns (degraded: seq<string>)
      requires Valid()
      ensures forall k :: k in degraded <==> Flagged(k)
      ensures forall k :: k in degraded <==> k in apeMap && StatsOf(History(k)).weeklyMape > 30.0
      ensures forall i, j :: 0 <= i < j < |degraded| ==> degraded[i] != degraded[j]
    {
      degraded := [];
      var todo := apeMap.Keys;
      ghost var all := set k | k in apeMap.Keys && Flagged(k);
      hide StatsOf, History, Valid;
      while todo != {}
        invariant todo <= apeMap.Keys
        invariant forall k :: k in degraded <==> k !in todo && k in all
        invariant forall i, j :: 0 <= i < j < |degraded| ==> degraded[i] != degraded[j]
        invariant forall k :: k in apeMap.Keys ==> Flagged(k) == (k in all)
        decreases |todo|
      {
        hide Flagged;
        var key :| key in todo;
        todo := todo - {key};
        var flagged := IsFlagged(key);
        if flagged {
          degraded := degraded + [key];
        }
      }
    }
  }
}
