/** Filling in stockouts: runs of two or more zeros in a demand history get the mean of the positive
    values beside them. */
module Imputation {

  // The first index of the run of zeros that ends at k.
  function RunStart(data: seq<real>, k: nat): (i: nat)
    requires k < |data| && data[k] == 0.0
    ensures i <= k && (forall j :: i <= j <= k ==> data[j] == 0.0) && (i > 0 ==> data[i - 1] != 0.0)
    decreases k
  {
    if k == 0 || data[k - 1] != 0.0 then k else RunStart(data, k - 1)
  }

  // The last index of the run of zeros that starts at k.
  function RunEnd(data: seq<real>, k: nat): (i: nat)
    requires k < |data| && data[k] == 0.0
    ensures k <= i < |data| && (forall j :: k <= j <= i ==> data[j] == 0.0) && (i + 1 < |data| ==> data[i + 1] != 0.0)
    decreases |data| - k
  {
    if k + 1 == |data| || data[k + 1] != 0.0 then k else RunEnd(data, k + 1)
  }

  // The mean of the positive values just before and just after a run, or 0 if there are none.
  function Beside(data: seq<real>, start: nat, end: nat): real
    requires start <= end < |data|
  {
    var before := if start > 0 && data[start - 1] > 0.0 then data[start - 1] else 0.0;
    var after := if end + 1 < |data| && data[end + 1] > 0.0 then data[end + 1] else 0.0;
    if before > 0.0 && after > 0.0 then (before + after) / 2.0 else before + after
  }

  // What becomes of the value at k.
  function Filled(data: seq<real>, k: nat): real
    requires k < |data|
  {
    if data[k] != 0.0 then data[k]
    else
      var start, end := RunStart(data, k), RunEnd(data, k);
      if start == end then 0.0 else Beside(data, start, end)
  }

  function Imputed(data: seq<real>): seq<real> {
    if |data| < 3 then data else seq(|data|, k requires 0 <= k < |data| => Filled(data, k))
  }

  // A run of zeros is where it is whatever the end it is looked at from.
  lemma RunIs(data: seq<real>, start: nat, end: nat, k: nat)
    requires start <= k <= end < |data|
    requires forall j :: start <= j <= end ==> data[j] == 0.0
    requires start > 0 ==> data[start - 1] != 0.0
    requires end + 1 < |data| ==> data[end + 1] != 0.0
    ensures RunStart(data, k) == start && RunEnd(data, k) == end
  {
  }

  lemma FilledInRun(data: seq<real>, start: nat, end: nat, k: nat)
    requires start <= k <= end < |data|
    requires forall j :: start <= j <= end ==> data[j] == 0.0
    requires start > 0 ==> data[start - 1] != 0.0
    requires end + 1 < |data| ==> data[end + 1] != 0.0
    ensures Filled(data, k) == if start == end then 0.0 else Beside(data, start, end)
  {
  }

  lemma OtherStays(data: seq<real>, k: nat)
    requires k < |data| && data[k] != 0.0
    ensures Imputed(data)[k] == data[k]
  {
  }

  lemma BesideIsBounded(data: seq<real>, start: nat, end: nat)
    requires start <= end < |data|
    ensures Beside(data, start, end) >= 0.0
    ensures Beside(data, start, end) > 0.0 ==>
              || (start > 0 && data[start - 1] >= Beside(data, start, end))
              || (end + 1 < |data| && data[end + 1] >= Beside(data, start, end))
  {
  }

  /** Values that are not zero stay as they are; whatever is filled in is positive, fills a run of
      two or more zeros, and is no larger than a value beside the run. */
  lemma OnlyRunsOfZerosChange(data: seq<real>, k: nat)
    requires k < |data| && Imputed(data)[k] != data[k]
    ensures |data| >= 3 && data[k] == 0.0 && RunStart(data, k) < RunEnd(data, k)
    ensures Imputed(data)[k] > 0.0
    ensures var start, end := RunStart(data, k), RunEnd(data, k);
            || (start > 0 && data[start - 1] >= Imputed(data)[k])
            || (end + 1 < |data| && data[end + 1] >= Imputed(data)[k])
  {
    hide Beside, RunStart, RunEnd;
    if data[k] != 0.0 {
      OtherStays(data, k);
    } else {
      var start, end := RunStart(data, k), RunEnd(data, k);
      FilledInRun(data, start, end, k);
      BesideIsBounded(data, start, end);
    }
  }

  // A zero that is still there afterwards lies in the same run as before.
  lemma SameRun(data: seq<real>, k: nat)
    requires |data| >= 3 && k < |data| && data[k] == 0.0 && Imputed(data)[k] == 0.0
    ensures RunStart(Imputed(data), k) == RunStart(data, k) && RunEnd(Imputed(data), k) == RunEnd(data, k)
  {
    var start, end, r := RunStart(data, k), RunEnd(data, k), Imputed(data);
    assert forall j :: 0 <= j < |data| ==> r[j] == Filled(data, j);
    hide RunStart, RunEnd, Beside, Filled, Imputed;
    FilledInRun(data, start, end, k);
    forall j | start <= j <= end
      ensures r[j] == 0.0
    {
      FilledInRun(data, start, end, j);
    }
    if start > 0 {
      OtherStays(data, start - 1);
    }
    if end + 1 < |data| {
      OtherStays(data, end + 1);
    }
    RunIs(r, start, end, k);
  }

  lemma BesideSame(data: seq<real>, r: seq<real>, start: nat, end: nat)
    requires start <= end < |data| == |r|
    requires start > 0 ==> r[start - 1] == data[start - 1]
    requires end + 1 < |data| ==> r[end + 1] == data[end + 1]
    ensures Beside(r, start, end) == Beside(data, start, end)
  {
  }

  lemma FilledTwice(data: seq<real>, k: nat)
    requires |data| >= 3 && k < |data|
    ensures Filled(Imputed(data), k) == Imputed(data)[k]
  {
    hide RunStart, RunEnd, Beside;
    var r := Imputed(data);
    if r[k] == 0.0 {
      if data[k] != 0.0 {
        OtherStays(data, k);
      }
      SameRun(data, k);
      var start, end := RunStart(data, k), RunEnd(data, k);
      FilledInRun(data, start, end, k);
      FilledInRun(r, start, end, k);
      if start > 0 {
        OtherStays(data, start - 1);
      }
      if end + 1 < |data| {
        OtherStays(data, end + 1);
      }
      BesideSame(data, r, start, end);
    }
  }

  /** Filling in twice is filling in once. */
  lemma Idempotent(data: seq<real>)
    ensures Imputed(Imputed(data)) == Imputed(data)
  {
    if |data| >= 3 {
      var r := Imputed(data);
      forall k | 0 <= k < |data|
        ensures Filled(r, k) == r[k]
      {
        FilledTwice(data, k);
      }
      hide Filled;
      assert Imputed(r) == r;
    }
  }

  // ---- What the description asks for ----

  // The mean of the values beside a run, which are not zero, or 0 if there are none.
  function MeanBeside(data: seq<real>, start: nat, end: nat): real
    requires start <= end < |data|
  {
    if start > 0 && end + 1 < |data| then (data[start - 1] + data[end + 1]) / 2.0
    else if start > 0 then data[start - 1]
    else if end + 1 < |data| then data[end + 1]
    else 0.0
  }

  function FilledAsDescribed(data: seq<real>, k: nat): real
    requires k < |data|
  {
    if data[k] != 0.0 || RunStart(data, k) == RunEnd(data, k) then data[k]
    else MeanBeside(data, RunStart(data, k), RunEnd(data, k))
  }

  function AsDescribed(data: seq<real>): seq<real> {
    seq(|data|, k requires 0 <= k < |data| => FilledAsDescribed(data, k))
  }

  // k lies in a run of two or more zeros with a negative value beside it.
  predicate BesideNegative(data: seq<real>, k: nat)
    requires k < |data|
  {
    data[k] == 0.0 &&
    var start, end := RunStart(data, k), RunEnd(data, k);
    start < end && ((start > 0 && data[start - 1] < 0.0) || (end + 1 < |data| && data[end + 1] < 0.0))
  }

  lemma MeanIff(data: seq<real>, start: nat, end: nat)
    requires start <= end < |data|
    requires start > 0 ==> data[start - 1] != 0.0
    requires end + 1 < |data| ==> data[end + 1] != 0.0
    ensures Beside(data, start, end) == MeanBeside(data, start, end) <==>
            !((start > 0 && data[start - 1] < 0.0) || (end + 1 < |data| && data[end + 1] < 0.0))
  {
  }

  lemma FilledIff(data: seq<real>, k: nat)
    requires k < |data|
    ensures Filled(data, k) == FilledAsDescribed(data, k) <==> !BesideNegative(data, k)
  {
    hide RunStart, RunEnd, Beside, MeanBeside;
    if data[k] == 0.0 {
      MeanIff(data, RunStart(data, k), RunEnd(data, k));
    }
  }

  // A history of fewer than three values has no run with a value beside it.
  lemma ShortAsDescribed(data: seq<real>, k: nat)
    requires k < |data| < 3
    ensures FilledAsDescribed(data, k) == data[k] && !BesideNegative(data, k)
  {
    hide RunStart, RunEnd;
  }

  /** A history is filled in with the means of the non-zero values beside its runs if and only if no
      run of two or more zeros has a negative value beside it. */
  lemma AsDescribedIff(data: seq<real>)
    ensures Imputed(data) == AsDescribed(data) <==> forall k :: 0 <= k < |data| ==> !BesideNegative(data, k)
  {
    forall k | 0 <= k < |data|
      ensures Imputed(data)[k] == AsDescribed(data)[k] <==> !BesideNegative(data, k)
    {
      hide BesideNegative, FilledAsDescribed, Filled;
      if |data| < 3 {
        ShortAsDescribed(data, k);
      } else {
        FilledIff(data, k);
      }
    }
    hide BesideNegative;
    assert |Imputed(data)| == |AsDescribed(data)| == |data|;
    hide Imputed, AsDescribed;
  }

  lemma NegativeNeighbourIgnored()
    ensures Imputed([-2.0, 0.0, 0.0, 4.0]) != AsDescribed([-2.0, 0.0, 0.0, 4.0])
  {
    var data := [-2.0, 0.0, 0.0, 4.0];
    AsDescribedIff(data);
    RunIs(data, 1, 2, 1);
    assert BesideNegative(data, 1);
  }

  // ---- The loop ----

  method ImputeStockouts(data: seq<real>) returns (result: seq<real>)
    ensures result == Imputed(data)
  {
    if |data| < 3 {
      return data;
    }
    var out := new real[|data|](i requires 0 <= i < |data| => data[i]);
    var i := 0;
    while i < out.Length
      invariant 0 <= i <= out.Length
      invariant 0 < i < |data| ==> data[i - 1] != 0.0 || data[i] != 0.0
      invariant forall k :: 0 <= k < i ==> out[k] == Filled(data, k)
      invariant forall k :: i <= k < |data| ==> out[k] == data[k]
    {
      if out[i] == 0.0 {
        var start := i;
        while i < out.Length && out[i] == 0.0
          invariant start <= i <= out.Length
          invariant forall k :: start <= k < i ==> data[k] == 0.0
          modifies {}
        {
          i := i + 1;
        }
        var end := i - 1;
        FillRun(out, data, start, end);
      } else {
        i := i + 1;
      }
    }
    result := out[..];
    assert result == Imputed(data);
  }

  // Fills one run, if it is long enough.
  method FillRun(out: array<real>, ghost data: seq<real>, start: nat, end: nat)
    requires out.Length == |data| && start <= end < |data|
    requires forall j :: start <= j <= end ==> data[j] == 0.0
    requires start > 0 ==> data[start - 1] != 0.0 && out[start - 1] == data[start - 1]
    requires forall k :: start <= k < |data| ==> out[k] == data[k]
    requires end + 1 < |data| ==> data[end + 1] != 0.0
    modifies out
    ensures forall k :: start <= k <= end ==> out[k] == Filled(data, k)
    ensures forall k :: 0 <= k < |data| && !(start <= k <= end) ==> out[k] == old(out[k])
  {
    forall k | start <= k <= end
      ensures Filled(data, k) == if start == end then 0.0 else Beside(data, start, end)
    {
      RunIs(data, start, end, k);
    }
    hide Filled, RunStart, RunEnd;
    var span := end - start + 1;
    if span >= 2 {
      var surroundSum, surroundCount := 0.0, 0;
      var before, after: int := start - 1, end + 1;
      if before >= 0 && out[before] > 0.0 {
        surroundSum := surroundSum + out[before];
        surroundCount := surroundCount + 1;
      }
      if after < out.Length && out[after] > 0.0 {
        surroundSum := surroundSum + out[after];
        surroundCount := surroundCount + 1;
      }
      var imputeVal := 0.0;
      if surroundCount > 0 {
        imputeVal := surroundSum / surroundCount as real;
      }
      assert imputeVal == Beside(data, start, end);
      for j := start to end + 1
        invariant forall k :: start <= k < j ==> out[k] == imputeVal
        invariant forall k :: 0 <= k < |data| && !(start <= k < j) ==> out[k] == old(out[k])
      {
        out[j] := imputeVal;
      }
    }
  }
}
