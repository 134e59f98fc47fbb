/** The sliding-window limiter: per key, the timestamps of the requests it admitted. */
module SlidingWindows {
  import opened Collections
  import opened KeyedRuns

  // The timestamps after the cutoff, in order.
  function After(ts: seq<int>, cutoff: int): seq<int> {
    if ts == [] then []
    else if ts[|ts| - 1] > cutoff then After(ts[..|ts| - 1], cutoff) + [ts[|ts| - 1]]
    else After(ts[..|ts| - 1], cutoff)
  }

  function Decide(w: Option<seq<int>>, now: int, limit: int, window: int): bool {
    w.None? || |After(w.value, now - window)| < limit
  }

  function Next(w: Option<seq<int>>, now: int, limit: int, window: int): seq<int> {
    if w.None? then [now]
    else
      var valid := After(w.value, now - window);
      if |valid| < limit then valid + [now] else valid
  }

  // One request, as a function of the timestamps kept and the time.
  function Taking(limit: int, window: int): (Option<seq<int>>, int) -> seq<int> {
    (w: Option<seq<int>>, now: int) => Next(w, now, limit, window)
  }

  // The state of a key after requests at the given times.
  function StateAfter(times: seq<int>, limit: int, window: int): Option<seq<int>> {
    Run(Taking(limit, window), times)
  }

  // Whether the i-th request was admitted.
  predicate Admitted(times: seq<int>, limit: int, window: int, i: nat)
    requires i < |times|
  {
    Decide(StateAfter(times[..i], limit, window), times[i], limit, window)
  }

  // How many of the first n requests were admitted at a time in (lo, hi].
  function AdmittedIn(times: seq<int>, limit: int, window: int, n: nat, lo: int, hi: int): nat
    requires n <= |times|
  {
    if n == 0 then 0
    else AdmittedIn(times, limit, window, n - 1, lo, hi) +
         if Admitted(times, limit, window, n - 1) && lo < times[n - 1] <= hi then 1 else 0
  }

  ghost predicate NonDecreasing(times: seq<int>) {
    forall i, j :: 0 <= i < j < |times| ==> times[i] <= times[j]
  }

  lemma {:induction false} AfterConcat(s: seq<int>, t: seq<int>, cutoff: int)
    ensures After(s + t, cutoff) == After(s, cutoff) + After(t, cutoff)
  {
    if t == [] {
      assert s + t == s;
    } else {
      var last := |t| - 1;
      assert (s + t)[..|s| + last] == s + t[..last];
      AfterConcat(s, t[..last], cutoff);
    }
  }

  lemma AfterOne(x: int, cutoff: int)
    ensures After([x], cutoff) == if x > cutoff then [x] else []
  {
  }

  lemma {:induction false} AfterAfter(s: seq<int>, c: int, c': int)
    requires c <= c'
    ensures After(After(s, c), c') == After(s, c')
  {
    if s != [] {
      var last := |s| - 1;
      AfterAfter(s[..last], c, c');
      AfterOne(s[last], c');
      if s[last] > c {
        AfterConcat(After(s[..last], c), [s[last]], c');
      }
    }
  }

  lemma StateStep(times: seq<int>, limit: int, window: int)
    requires times != []
    ensures var n := |times| - 1;
            StateAfter(times, limit, window) ==
                Some(Next(StateAfter(times[..n], limit, window), times[n], limit, window))
  {
  }

  // The state forgets only timestamps that no later cutoff can reach.
  lemma {:induction false} StateCountsAdmitted(times: seq<int>, limit: int, window: int, cutoff: int)
    requires NonDecreasing(times) && times != [] && cutoff >= times[|times| - 1] - window
    ensures var s := StateAfter(times, limit, window);
            s.Some? && |After(s.value, cutoff)| == AdmittedIn(times, limit, window, |times|, cutoff, times[|times| - 1])
  {
    var n := |times| - 1;
    var now, before := times[n], StateAfter(times[..n], limit, window);
    StateStep(times, limit, window);
    AfterOne(now, cutoff);
    assert Admitted(times, limit, window, n) == Decide(before, now, limit, window);
    if n == 0 {
      assert times[..0] == [];
      assert AdmittedIn(times, limit, window, 0, cutoff, now) == 0;
      assert StateAfter(times, limit, window) == Some([now]);
    } else {
      StateCountsAdmitted(times[..n], limit, window, cutoff);
      PrefixCounts(times, n, limit, window, n, cutoff, times[n - 1]);
      WiderEnd(times, limit, window, n, cutoff, times[n - 1], now);
      hide StateAfter, AdmittedIn, NonDecreasing, Admitted, After;
      NextCounts(before.value, now, limit, window, cutoff);
      LastRequest(times, limit, window, cutoff, now);
    }
  }

  lemma NextCounts(ts: seq<int>, now: int, limit: int, window: int, cutoff: int)
    requires cutoff >= now - window
    ensures |After(Next(Some(ts), now, limit, window), cutoff)| == |After(ts, cutoff)| +
            if Decide(Some(ts), now, limit, window) && now > cutoff then 1 else 0
  {
    hide After;
    AfterOne(now, cutoff);
    AfterAfter(ts, now - window, cutoff);
    AfterConcat(After(ts, now - window), [now], cutoff);
  }

  lemma LastRequest(times: seq<int>, limit: int, window: int, lo: int, hi: int)
    requires times != []
    ensures var n := |times| - 1;
            AdmittedIn(times, limit, window, |times|, lo, hi) == AdmittedIn(times, limit, window, n, lo, hi) +
            if Admitted(times, limit, window, n) && lo < times[n] <= hi then 1 else 0
  {
  }

  lemma {:induction false} PrefixCounts(times: seq<int>, m: nat, limit: int, window: int, n: nat, lo: int, hi: int)
    requires n <= m <= |times|
    ensures AdmittedIn(times[..m], limit, window, n, lo, hi) == AdmittedIn(times, limit, window, n, lo, hi)
  {
    if n > 0 {
      PrefixCounts(times, m, limit, window, n - 1, lo, hi);
      assert times[..m][..n - 1] == times[..n - 1];
    }
  }

  lemma {:induction false} WiderEnd(times: seq<int>, limit: int, window: int, n: nat, lo: int, hi: int, hi': int)
    requires n <= |times| && hi <= hi' && forall j :: 0 <= j < n ==> times[j] <= hi
    ensures AdmittedIn(times, limit, window, n, lo, hi) == AdmittedIn(times, limit, window, n, lo, hi')
  {
    if n > 0 {
      WiderEnd(times, limit, window, n - 1, lo, hi, hi');
    }
  }

  /** Exactness. A request is admitted if and only if fewer than `limit` requests were admitted in
      the window that ends with it. */
  lemma AdmittedIffRoom(times: seq<int>, limit: int, window: int, i: nat)
    requires NonDecreasing(times) && i < |times| && limit >= 1
    ensures Admitted(times, limit, window, i) <==>
            AdmittedIn(times, limit, window, i, times[i] - window, times[i]) < limit
  {
    hide AdmittedIn, After, StateAfter;
    var lo := times[i] - window;
    if i == 0 {
      FirstAdmitted(times, limit, window);
    } else {
      StateCountsAdmitted(times[..i], limit, window, lo);
      PrefixCounts(times, i, limit, window, i, lo, times[i - 1]);
      WiderEnd(times, limit, window, i, lo, times[i - 1], times[i]);
    }
  }

  lemma FirstAdmitted(times: seq<int>, limit: int, window: int)
    requires times != []
    ensures Admitted(times, limit, window, 0)
    ensures AdmittedIn(times, limit, window, 0, times[0] - window, times[0]) == 0
  {
  }

  lemma {:induction false} NarrowerSpan(times: seq<int>, limit: int, window: int, n: nat, lo: int, hi: int, lo': int,
      hi': int)
    requires n <= |times| && lo' <= lo && forall j :: 0 <= j < n ==> times[j] <= hi'
    ensures AdmittedIn(times, limit, window, n, lo, hi) <= AdmittedIn(times, limit, window, n, lo', hi')
  {
    if n > 0 {
      NarrowerSpan(times, limit, window, n - 1, lo, hi, lo', hi');
    }
  }

  lemma EarlierTimes(times: seq<int>, n: nat)
    requires NonDecreasing(times) && n < |times|
    ensures forall j :: 0 <= j < n ==> times[j] <= times[n]
  {
  }

  /** The bound: in every span (t - window, t], of every run, at most `limit` requests are admitted. */
  lemma {:induction false} NeverMoreThanLimit(times: seq<int>, limit: int, window: int, n: nat, t: int)
    requires NonDecreasing(times) && n <= |times| && limit >= 1
    ensures AdmittedIn(times, limit, window, n, t - window, t) <= limit
  {
    hide Admitted, NonDecreasing;
    if n > 0 {
      NeverMoreThanLimit(times, limit, window, n - 1, t);
      var now := times[n - 1];
      if Admitted(times, limit, window, n - 1) && now <= t {
        AdmittedIffRoom(times, limit, window, n - 1);
        EarlierTimes(times, n - 1);
        NarrowerSpan(times, limit, window, n - 1, t - window, t, now - window, now);
      }
    }
  }

  /** A request is rejected only when exactly `limit` were admitted in the window ending with it. */
  lemma RejectedOnlyWhenFull(times: seq<int>, limit: int, window: int, i: nat)
    requires NonDecreasing(times) && i < |times| && limit >= 1 && !Admitted(times, limit, window, i)
    ensures AdmittedIn(times, limit, window, i, times[i] - window, times[i]) == limit
  {
    AdmittedIffRoom(times, limit, window, i);
    NeverMoreThanLimit(times, limit, window, i, times[i]);
  }

  ghost predicate Bounded(limit: int, window: int) {
    forall times: seq<int>, n: nat, lo: int, t: int ::
      NonDecreasing(times) && n <= |times| && lo == t - window ==> AdmittedIn(times, limit, window, n, lo, t) <= limit
  }

  /** The bound holds of every run exactly for limits of at least one: the first request of a key is
      admitted whatever the limit is. */
  lemma BoundedIff(limit: int, window: int)
    requires window > 0
    ensures Bounded(limit, window) <==> limit >= 1
  {
    if limit >= 1 {
      forall times: seq<int>, n: nat, lo: int, t: int | NonDecreasing(times) && n <= |times| && lo == t - window
        ensures AdmittedIn(times, limit, window, n, lo, t) <= limit
      {
        NeverMoreThanLimit(times, limit, window, n, t);
      }
    } else {
      assert Admitted([0], limit, window, 0);
      assert AdmittedIn([0], limit, window, 0, 0 - window, 0) == 0;
      assert AdmittedIn([0], limit, window, 1, 0 - window, 0) == 1;
      assert NonDecreasing([0]);
    }
  }

  // The table of a limiter after requests of all keys.
  function TableAfter(reqs: seq<(string, int)>, limit: int, window: int): map<string, seq<int>> {
    RunAll(Taking(limit, window), reqs)
  }

  /** In a run of a whole limiter every request is decided as in the run of its key's own requests, so
      the bound holds for each key however the keys interleave. */
  lemma EachKeyBounded(reqs: seq<(string, int)>, limit: int, window: int, key: string, now: int, t: int)
    requires limit >= 1 && NonDecreasing(Of(reqs, key) + [now])
    ensures var times := Of(reqs, key) + [now];
            && Decide(Lookup(TableAfter(reqs, limit, window), key), now, limit, window) ==
                 Admitted(times, limit, window, |times| - 1)
            && AdmittedIn(times, limit, window, |times|, t - window, t) <= limit
  {
    var times := Of(reqs, key) + [now];
    assert times[..|times| - 1] == Of(reqs, key);
    KeysAreIndependent(Taking(limit, window), reqs, key);
    NeverMoreThanLimit(times, limit, window, |times|, t);
    hide AdmittedIn, NonDecreasing, Decide, Taking;
  }

  class SlidingWindow {
    var windows: map<string, seq<int>>

    constructor ()
      ensures windows == map[]
    {
      windows := map[];
    }

    method Allow(key: string, limit: int, window: int, now: int) returns (ok: bool)
      modifies this
      ensures ok == Decide(Lookup(old(windows), key), now, limit, window)
      ensures windows == old(windows)[key := Next(Lookup(old(windows), key), now, limit, window)]
    {
      var cutoff := now - window;
      if key !in windows {
        windows := windows[key := [now]];
        return true;
      }
      var ts, valid := windows[key], [];
      for i := 0 to |ts|
        invariant valid == After(ts[..i], cutoff)
      {
        assert ts[..i + 1][..i] == ts[..i];
        if ts[i] > cutoff {
          valid := valid + [ts[i]];
        }
      }
      assert ts[..|ts|] == ts;
      ok := |valid| < limit;
      if ok {
        valid := valid + [now];
      }
      windows := windows[key := valid];
    }
  }
}
