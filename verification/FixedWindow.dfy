/** The fixed-window limiter: windows are aligned to multiples of their length. */
module FixedWindows {
  import opened Collections
  import opened KeyedRuns
  import opened MachineInts

  datatype Entry = Entry(count: int, window: int)

  // The division rounds toward zero, so the window around 1970 is twice as long as the others.
  function Aligned(now: int, length: int): int
    requires length != 0
  {
    Quotient(now, length) * length
  }

  function Decide(e: Option<Entry>, limit: int, length: int, now: int): bool
    requires length != 0
  {
    e.None? || e.value.window != Aligned(now, length) || e.value.count < limit
  }

  function Next(e: Option<Entry>, limit: int, length: int, now: int): Entry
    requires length != 0
  {
    if e.None? || e.value.window != Aligned(now, length) then Entry(1, Aligned(now, length))
    else if e.value.count < limit then Entry(e.value.count + 1, e.value.window)
    else e.value
  }

  // One request, as a function of the entry kept and the time.
  function Taking(limit: int, length: nat): (Option<Entry>, int) -> Entry
    requires length > 0
  {
    (e: Option<Entry>, now: int) => Next(e, limit, length, now)
  }

  function StateAfter(times: seq<int>, limit: int, length: nat): Option<Entry>
    requires length > 0
  {
    Run(Taking(limit, length), times)
  }

  predicate Admitted(times: seq<int>, limit: int, length: nat, i: nat)
    requires length > 0 && i < |times|
  {
    Decide(StateAfter(times[..i], limit, length), limit, length, times[i])
  }

  ghost predicate NonDecreasing(times: seq<int>) {
    forall i, j :: 0 <= i < j < |times| ==> times[i] <= times[j]
  }

  // How many of the first n requests were admitted in the aligned window that starts at `start`.
  function AdmittedInWindow(times: seq<int>, limit: int, length: nat, n: nat, start: int): nat
    requires length > 0 && n <= |times|
  {
    if n == 0 then 0
    else AdmittedInWindow(times, limit, length, n - 1, start) +
         if Admitted(times, limit, length, n - 1) && Aligned(times[n - 1], length) == start then 1 else 0
  }

  // How many were admitted at a time in (lo, hi].
  function AdmittedIn(times: seq<int>, limit: int, length: nat, n: nat, lo: int, hi: int): nat
    requires length > 0 && n <= |times|
  {
    if n == 0 then 0
    else AdmittedIn(times, limit, length, n - 1, lo, hi) +
         if Admitted(times, limit, length, n - 1) && lo < times[n - 1] <= hi then 1 else 0
  }

  // ---- Alignment ----

  lemma AlignedBounds(now: int, length: nat)
    requires length > 0
    ensures Aligned(now, length) - length < now < Aligned(now, length) + length
    ensures now >= 0 ==> Aligned(now, length) <= now
    ensures now < 0 ==> now <= Aligned(now, length)
  {
    DivisionBounds(if now >= 0 then now else -now, length);
    var q := -now / length;
    assert -q * length == -(q * length);
  }

  lemma DivisionBounds(x: nat, d: nat)
    requires d > 0
    ensures x / d * d <= x < x / d * d + d
  {
  }

  lemma ProductMonotone(x: int, y: int, d: nat)
    requires x <= y
    ensures x * d <= y * d
  {
  }

  // Aligned windows that differ are at least one length apart.
  lemma AlignedApart(x: int, y: int, length: nat)
    requires length > 0 && Aligned(x, length) < Aligned(y, length)
    ensures Aligned(x, length) + length <= Aligned(y, length)
  {
    MultiplesApart(Quotient(x, length), Quotient(y, length), length);
  }

  lemma MultiplesApart(p: int, q: int, length: nat)
    requires p * length < q * length
    ensures p * length + length <= q * length
  {
    if q <= p {
      ProductMonotone(q, p, length);
    } else {
      ProductMonotone(p + 1, q, length);
      assert (p + 1) * length == p * length + length;
    }
  }

  lemma AlignedMonotone(x: int, y: int, length: nat)
    requires length > 0 && x <= y
    ensures Aligned(x, length) <= Aligned(y, length)
  {
    AlignedBounds(x, length);
    AlignedBounds(y, length);
    hide Aligned;
    if Aligned(y, length) < Aligned(x, length) {
      AlignedApart(y, x, length);
    }
  }

  // ---- What the entry counts ----

  lemma StateStep(times: seq<int>, limit: int, length: nat)
    requires length > 0 && times != []
    ensures var n := |times| - 1;
            StateAfter(times, limit, length) ==
                Some(Next(StateAfter(times[..n], limit, length), limit, length, times[n]))
  {
  }

  lemma {:induction false} PrefixCounts(times: seq<int>, m: nat, limit: int, length: nat, n: nat, start: int)
    requires length > 0 && n <= m <= |times|
    ensures AdmittedInWindow(times[..m], limit, length, n, start) == AdmittedInWindow(times, limit, length, n, start)
  {
    if n > 0 {
      PrefixCounts(times, m, limit, length, n - 1, start);
      assert times[..m][..n - 1] == times[..n - 1];
    }
  }

  lemma {:induction false} NoneYet(times: seq<int>, limit: int, length: nat, n: nat, start: int)
    requires length > 0 && n <= |times|
    requires forall j :: 0 <= j < n ==> Aligned(times[j], length) < start
    ensures AdmittedInWindow(times, limit, length, n, start) == 0
  {
    if n > 0 {
      NoneYet(times, limit, length, n - 1, start);
    }
  }

  lemma LastWindowIsLatest(times: seq<int>, length: nat, n: nat)
    requires length > 0 && NonDecreasing(times) && n < |times|
    ensures forall j :: 0 <= j < n ==> Aligned(times[j], length) <= Aligned(times[n], length)
  {
    forall j | 0 <= j < n
      ensures Aligned(times[j], length) <= Aligned(times[n], length)
    {
      AlignedMonotone(times[j], times[n], length);
    }
  }

  lemma {:induction false} EntryCountsWindow(times: seq<int>, limit: int, length: nat)
    requires length > 0 && NonDecreasing(times) && times != [] && limit >= 1
    ensures var e, w := StateAfter(times, limit, length), Aligned(times[|times| - 1], length);
            e == Some(Entry(AdmittedInWindow(times, limit, length, |times|, w), w)) && 1 <= e.value.count <= limit
  {
    var n := |times| - 1;
    var w, before := Aligned(times[n], length), StateAfter(times[..n], limit, length);
    StateStep(times, limit, length);
    LastWindowIsLatest(times, length, n);
    assert Admitted(times, limit, length, n) == Decide(before, limit, length, times[n]);
    if n > 0 {
      EntryCountsWindow(times[..n], limit, length);
      var v := Aligned(times[n - 1], length);
      PrefixCounts(times, n, limit, length, n, v);
      if v != w {
        LastWindowIsLatest(times, length, n - 1);
        hide Aligned, StateAfter, Admitted;
        NoneYet(times, limit, length, n, w);
      }
    }
    hide StateAfter, Aligned;
  }

  /** Exactness. A request is admitted if and only if fewer than `limit` requests were admitted in
      its aligned window before it. */
  lemma AdmittedIffRoom(times: seq<int>, limit: int, length: nat, i: nat)
    requires length > 0 && NonDecreasing(times) && i < |times| && limit >= 1
    ensures Admitted(times, limit, length, i) <==>
            AdmittedInWindow(times, limit, length, i, Aligned(times[i], length)) < limit
  {
    var w := Aligned(times[i], length);
    LastWindowIsLatest(times, length, i);
    if i > 0 {
      EntryCountsWindow(times[..i], limit, length);
      var v := Aligned(times[i - 1], length);
      PrefixCounts(times, i, limit, length, i, v);
      if v != w {
        LastWindowIsLatest(times, length, i - 1);
        hide Aligned, StateAfter;
        NoneYet(times, limit, length, i, w);
      }
    }
  }

  /** At most `limit` requests are admitted in every aligned window of every run. */
  lemma {:induction false} NeverMoreThanLimit(times: seq<int>, limit: int, length: nat, n: nat, start: int)
    requires length > 0 && NonDecreasing(times) && n <= |times| && limit >= 1
    ensures AdmittedInWindow(times, limit, length, n, start) <= limit
  {
    if n > 0 {
      NeverMoreThanLimit(times, limit, length, n - 1, start);
      AdmittedIffRoom(times, limit, length, n - 1);
    }
  }

  lemma {:induction false} SpanCoveredByTwo(times: seq<int>, limit: int, length: nat, n: nat, t: int)
    requires length > 0 && n <= |times|
    ensures AdmittedIn(times, limit, length, n, t - length, t)
         <= AdmittedInWindow(times, limit, length, n, Aligned(t, length)) +
            AdmittedInWindow(times, limit, length, n, Aligned(t, length) - length)
  {
    if n > 0 {
      SpanCoveredByTwo(times, limit, length, n - 1, t);
      var now := times[n - 1];
      if t - length < now <= t {
        AlignedBounds(now, length);
        AlignedBounds(t, length);
        AlignedMonotone(now, t, length);
        if Aligned(now, length) < Aligned(t, length) {
          AlignedApart(now, t, length);
          OneApart(now, t, length);
        }
      }
    }
  }

  lemma OneApart(x: int, y: int, length: nat)
    requires length > 0 && y - length < x <= y && Aligned(x, length) < Aligned(y, length)
    ensures Aligned(x, length) == Aligned(y, length) - length
  {
    AlignedBounds(x, length);
    AlignedBounds(y, length);
    AlignedApart(x, y, length);
    var a, b := Aligned(x, length), Aligned(y, length);
    if a + length < b {
      var p, q := Quotient(x, length), Quotient(y, length);
      assert (p + 1) * length == a + length;
      MultiplesApart(p + 1, q, length);
    }
  }

  /** Across a boundary the limit can double, but no more: every span of one window length admits
      at most 2 limit requests. */
  lemma NeverMoreThanTwice(times: seq<int>, limit: int, length: nat, t: int)
    requires length > 0 && NonDecreasing(times) && limit >= 1
    ensures AdmittedIn(times, limit, length, |times|, t - length, t) <= 2 * limit
  {
    SpanCoveredByTwo(times, limit, length, |times|, t);
    NeverMoreThanLimit(times, limit, length, |times|, Aligned(t, length));
    NeverMoreThanLimit(times, limit, length, |times|, Aligned(t, length) - length);
  }

  // `limit` requests just before a boundary and `limit` at it.
  function Burst(limit: nat, length: nat): seq<int>
    requires length >= 2
  {
    seq(2 * limit, k => if k < limit then length - 1 else length)
  }

  lemma BoundaryAlignment(length: nat)
    requires length >= 2
    ensures Aligned(length - 1, length) == 0 && Aligned(length, length) == length
  {
  }

  lemma BurstTimes(limit: nat, length: nat)
    requires length >= 2
    ensures |Burst(limit, length)| == 2 * limit && NonDecreasing(Burst(limit, length))
    ensures forall k :: 0 <= k < 2 * limit ==> Burst(limit, length)[k] == if k < limit then length - 1 else length
  {
  }

  lemma {:induction false} BurstAdmitted(limit: nat, length: nat, n: nat)
    requires length >= 2 && limit >= 1 && n <= 2 * limit
    ensures AdmittedInWindow(Burst(limit, length), limit, length, n, 0) == if n < limit then n else limit
    ensures AdmittedInWindow(Burst(limit, length), limit, length, n, length) == if n < limit then 0 else n - limit
    ensures AdmittedIn(Burst(limit, length), limit, length, n, 0, length) == n
  {
    BoundaryAlignment(length);
    BurstTimes(limit, length);
    hide Admitted, Aligned, Burst;
    if n > 0 {
      BurstAdmitted(limit, length, n - 1);
      AdmittedIffRoom(Burst(limit, length), limit, length, n - 1);
    }
  }

  /** The factor 2 is reached: for every limit there is a run that admits 2 limit requests within
      one window length. */
  lemma TwiceIsReached(limit: nat, length: nat)
    requires length >= 2 && limit >= 1
    ensures NonDecreasing(Burst(limit, length))
    ensures AdmittedIn(Burst(limit, length), limit, length, 2 * limit, length - length, length) == 2 * limit
  {
    BurstAdmitted(limit, length, 2 * limit);
  }

  ghost predicate Bounded(limit: int, length: nat)
    requires length > 0
  {
    forall times: seq<int>, n: nat, start: int ::
      NonDecreasing(times) && n <= |times| ==> AdmittedInWindow(times, limit, length, n, start) <= limit
  }

  /** The bound per window holds of every run exactly for limits of at least one: the first request
      of a window is admitted whatever the limit is. */
  lemma BoundedIff(limit: int, length: nat)
    requires length > 0
    ensures Bounded(limit, length) <==> limit >= 1
  {
    if limit >= 1 {
      forall times: seq<int>, n: nat, start: int | NonDecreasing(times) && n <= |times|
        ensures AdmittedInWindow(times, limit, length, n, start) <= limit
      {
        NeverMoreThanLimit(times, limit, length, n, start);
      }
    } else {
      assert Admitted([0], limit, length, 0) && Aligned(0, length) == 0;
      assert AdmittedInWindow([0], limit, length, 0, 0) == 0;
      assert AdmittedInWindow([0], limit, length, 1, 0) == 1;
      assert NonDecreasing([0]);
    }
  }

  // The table of a limiter after requests of all keys.
  function TableAfter(reqs: seq<(string, int)>, limit: int, length: nat): map<string, Entry>
    requires length > 0
  {
    RunAll(Taking(limit, length), reqs)
  }

  /** In a run of a whole limiter every request is decided as in the run of its key's own requests, so
      the bounds hold for each key however the keys interleave. */
  lemma EachKeyBounded(reqs: seq<(string, int)>, limit: int, length: nat, key: string, now: int, start: int, t: int)
    requires length > 0 && limit >= 1 && NonDecreasing(Of(reqs, key) + [now])
    ensures var times := Of(reqs, key) + [now];
            && Decide(Lookup(TableAfter(reqs, limit, length), key), limit, length, now) ==
                 Admitted(times, limit, length, |times| - 1)
            && AdmittedInWindow(times, limit, length, |times|, start) <= limit
            && AdmittedIn(times, limit, length, |times|, t - length, t) <= 2 * limit
  {
    var times := Of(reqs, key) + [now];
    assert times[..|times| - 1] == Of(reqs, key);
    KeysAreIndependent(Taking(limit, length), reqs, key);
    NeverMoreThanLimit(times, limit, length, |times|, start);
    NeverMoreThanTwice(times, limit, length, t);
    hide AdmittedIn, AdmittedInWindow, NonDecreasing, Decide, Taking;
  }

  class FixedWindow {
    var windows: map<string, Entry>

    constructor ()
      ensures windows == map[]
    {
      windows := map[];
    }

    method Allow(key: string, limit: int, windowNano: int, now: int) returns (ok: bool)
      requires windowNano != 0
      modifies this
      ensures ok == Decide(Lookup(old(windows), key), limit, windowNano, now)
      ensures windows == old(windows)[key := Next(Lookup(old(windows), key), limit, windowNano, now)]
    {
      var currentWindow := Quotient(now, windowNano) * windowNano;
      if key !in windows || windows[key].window != currentWindow {
        windows := windows[key := Entry(1, currentWindow)];
        return true;
      }
      var w := windows[key];
      if w.count < limit {
        windows := windows[key := w.(count := w.count + 1)];
        return true;
      }
      assert windows == windows[key := w];
      return false;
    }
  }
}
