/** Ids made of a timestamp, a worker number and a sequence number, packed into a signed 64-bit
    integer. Clock readings are an input: the first one a call takes, then those it takes while
    it waits for the next millisecond. */
module Snowflake {
  import opened MachineInts

  const EPOCH := 1704067200000
  const WORKER_BITS: nat := 10
  const SEQUENCE_BITS: nat := 12
  const MAX_WORKER := 0x3FF
  const MAX_SEQUENCE := 0xFFF
  const TIMESTAMP_SHIFT: nat := WORKER_BITS + SEQUENCE_BITS
  const WORKER_SHIFT: nat := SEQUENCE_BITS

  // ---- Machine arithmetic ----

  function Pow2(k: nat): (p: nat)
    ensures p > 0
  {
    if k == 0 then 1 else 2 * Pow2(k - 1)
  }

  function ShiftLeft(x: int, k: nat): int {
    Wrap64(x * Pow2(k))
  }

  // Two's complement, bit by bit.
  function Or(a: int, b: int): int
    decreases if b < 0 then -b else b
  {
    if b == 0 then a else if b == -1 then -1 else 2 * Or(a / 2, b / 2) + if a % 2 == 1 || b % 2 == 1 then 1 else 0
  }

  function And(a: int, b: nat): int
    decreases b
  {
    if b == 0 then 0 else 2 * And(a / 2, b / 2) + if a % 2 == 1 && b % 2 == 1 then 1 else 0
  }

  lemma {:induction false} OrDisjoint(a: int, b: nat, k: nat)
    requires b < Pow2(k) && a % Pow2(k) == 0
    ensures Or(a, b) == a + b
    decreases k
  {
    if b != 0 {
      HalfMultiple(a, Pow2(k - 1));
      OrDisjoint(a / 2, b / 2, k - 1);
    }
  }

  lemma HalfMultiple(a: int, p: nat)
    requires p > 0 && a % (2 * p) == 0
    ensures a % 2 == 0 && (a / 2) % p == 0
  {
    var q := a / (2 * p);
    assert a == (2 * p) * q;
    assert a == 2 * (p * q);
    MultipleMod(p, q);
  }

  lemma MultipleMod(p: nat, q: int)
    requires p > 0
    ensures (p * q) % p == 0
  {
    ModUnique(p * q, p, q, 0);
  }

  lemma AtLeast(p: nat, d: int, m: int)
    requires m == p * d
    ensures d >= 1 ==> m >= p
    ensures d <= -1 ==> m + p <= 0
  {
  }

  lemma Difference(p: int, q: int, q': int)
    ensures p * q' - p * q == p * (q' - q)
  {
  }

  lemma ModUnique(x: int, p: nat, q: int, r: nat)
    requires p > 0 && r < p && x == p * q + r
    ensures x / p == q && x % p == r
  {
    var q', r' := x / p, x % p;
    var m, m' := p * q, p * q';
    Difference(p, q, q');
    AtLeast(p, q' - q, m' - m);
  }

  lemma HalfMod(a: nat, p: nat)
    requires p > 0
    ensures a % (2 * p) == 2 * ((a / 2) % p) + a % 2
  {
    var q, r := (a / 2) / p, (a / 2) % p;
    var m := p * q;
    assert a / 2 == m + r;
    assert (2 * p) * q == 2 * m;
    ModUnique(a, 2 * p, q, 2 * r + a % 2);
  }

  lemma AndStep(a: int, b: nat)
    ensures And(a, 2 * b + 1) == 2 * And(a / 2, b) + a % 2
  {
  }

  lemma {:induction false} MaskIsMod(a: nat, k: nat)
    ensures And(a, Pow2(k) - 1) == a % Pow2(k)
    decreases k
  {
    hide And;
    if k > 0 {
      MaskIsMod(a / 2, k - 1);
      HalfMod(a, Pow2(k - 1));
      AndStep(a, Pow2(k - 1) - 1);
    } else {
      assert And(a, 0) == 0 by { AndZero(a); }
      assert a % 1 == 0;
    }
  }

  lemma AndZero(a: int)
    ensures And(a, 0) == 0
  {
  }

  lemma Powers()
    ensures Pow2(12) == 0x1000 && Pow2(22) == 0x40_0000
  {
  }

  // ---- Packing ----

  function Compose(stamp: int, worker: nat, sequence: nat): int {
    Or(Or(ShiftLeft(stamp - EPOCH, TIMESTAMP_SHIFT), ShiftLeft(worker, WORKER_SHIFT)), sequence)
  }

  // Where a timestamp lies in its era of 2^42 milliseconds, which is what 42 bits keep of it. The
  // era of the epoch begins 2^41 milliseconds before it.
  function Position(stamp: int): int {
    (stamp - EPOCH + 0x200_0000_0000) % 0x400_0000_0000
  }

  predicate InRange(worker: int, sequence: int) {
    0 <= worker <= MAX_WORKER && 0 <= sequence <= MAX_SEQUENCE
  }

  lemma ShiftedStamp(x: int)
    ensures ShiftLeft(x, TIMESTAMP_SHIFT) == ((x + 0x200_0000_0000) % 0x400_0000_0000 - 0x200_0000_0000) * 0x40_0000
  {
    Powers();
    hide Pow2;
    var y := x + 0x200_0000_0000;
    var q, r := y / 0x400_0000_0000, y % 0x400_0000_0000;
    assert x * 0x40_0000 + 0x8000_0000_0000_0000 == 0x1_0000_0000_0000_0000 * q + r * 0x40_0000;
    ModUnique(x * 0x40_0000 + 0x8000_0000_0000_0000, 0x1_0000_0000_0000_0000, q, r * 0x40_0000);
  }

  lemma ShiftedWorker(worker: nat)
    requires worker <= MAX_WORKER
    ensures ShiftLeft(worker, WORKER_SHIFT) == worker * 0x1000
  {
  }

  lemma OrBelow(a: int, b: nat, k: nat, p: nat, q: int)
    requires p == Pow2(k) && b < p && a == p * q
    ensures Or(a, b) == a + b
  {
    hide Or, Pow2;
    ModUnique(a, p, q, 0);
    OrDisjoint(a, b, k);
  }

  lemma OrParts(high: int, worker: nat, sequence: nat)
    requires InRange(worker, sequence)
    ensures Or(Or(high * 0x40_0000, worker * 0x1000), sequence) == high * 0x40_0000 + worker * 0x1000 + sequence
  {
    Powers();
    hide Or, Pow2;
    OrBelow(high * 0x40_0000, worker * 0x1000, 22, 0x40_0000, high);
    OrBelow(high * 0x40_0000 + worker * 0x1000, sequence, 12, 0x1000, high * 0x400 + worker);
  }

  // The three parts occupy different bits, so packing them is adding them up.
  lemma ComposeAdds(stamp: int, worker: nat, sequence: nat)
    requires InRange(worker, sequence)
    ensures Compose(stamp, worker, sequence) ==
            (Position(stamp) - 0x200_0000_0000) * 0x40_0000 + worker * 0x1000 + sequence
  {
    ShiftedStamp(stamp - EPOCH);
    ShiftedWorker(worker);
    hide Or, ShiftLeft;
    OrParts(Position(stamp) - 0x200_0000_0000, worker, sequence);
  }

  /** Timestamp, worker and sequence can be read back from any id; the timestamp up to a whole
      number of eras, and so exactly when it lies within 2^41 milliseconds of the epoch. */
  lemma Recover(stamp: int, worker: nat, sequence: nat)
    requires InRange(worker, sequence)
    ensures var id := Compose(stamp, worker, sequence);
            && id % 0x1000 == sequence
            && (id / 0x1000) % 0x400 == worker
            && id / 0x40_0000 + 0x200_0000_0000 == Position(stamp)
            && (id / 0x40_0000 + 1704067200000 == stamp <==>
                -0x200_0000_0000 <= stamp - 1704067200000 < 0x200_0000_0000)
  {
    ComposeAdds(stamp, worker, sequence);
    var id, high := Compose(stamp, worker, sequence), Position(stamp) - 0x200_0000_0000;
    hide Compose;
    ModUnique(id, 0x1000, high * 0x400 + worker, sequence);
    ModUnique(high * 0x400 + worker, 0x400, high, worker);
    ModUnique(id, 0x40_0000, high, worker * 0x1000 + sequence);
    InFirstEra(stamp);
    hide Position;
  }

  lemma InFirstEra(stamp: int)
    ensures 0 <= Position(stamp) < 0x400_0000_0000
    ensures Position(stamp) - 0x200_0000_0000 == stamp - EPOCH <==> -0x200_0000_0000 <= stamp - EPOCH < 0x200_0000_0000
  {
  }

  /** Two ids are equal exactly when they agree in worker and sequence and their timestamps lie a
      whole number of eras apart. */
  lemma SameIff(t1: int, w1: nat, s1: nat, t2: int, w2: nat, s2: nat)
    requires InRange(w1, s1) && InRange(w2, s2)
    ensures Compose(t1, w1, s1) == Compose(t2, w2, s2) <==> w1 == w2 && s1 == s2 && Position(t1) == Position(t2)
  {
    Recover(t1, w1, s1);
    Recover(t2, w2, s2);
    if w1 == w2 && s1 == s2 && Position(t1) == Position(t2) {
      ComposeAdds(t1, w1, s1);
      ComposeAdds(t2, w2, s2);
    }
    hide Compose;
  }

  /** Ids of one worker are ordered like the positions of their timestamps, then their sequence
      numbers. */
  lemma OrderIff(worker: nat, t1: int, s1: nat, t2: int, s2: nat)
    requires InRange(worker, s1) && InRange(worker, s2)
    ensures Compose(t1, worker, s1) < Compose(t2, worker, s2) <==>
            Position(t1) < Position(t2) || (Position(t1) == Position(t2) && s1 < s2)
  {
    ComposeAdds(t1, worker, s1);
    ComposeAdds(t2, worker, s2);
    hide Compose, Position;
  }

  // ---- One call ----

  // `locked` says that a call is still waiting for the clock and holds the lock.
  datatype Gen = Gen(workerID: nat, sequence: nat, lastStamp: int, locked: bool)

  datatype Outcome = Id(id: int) | ClockBackwards | StillWaiting

  ghost predicate WellFormed(g: Gen) {
    InRange(g.workerID, g.sequence)
  }

  // The first reading later than the last timestamp.
  function FirstAfter(last: int, readings: seq<int>): (r: int)
    requires exists i :: 0 <= i < |readings| && readings[i] > last
    ensures r > last && r in readings
  {
    if readings[0] > last then readings[0] else FirstAfter(last, readings[1..])
  }

  ghost predicate MovesPast(last: int, readings: seq<int>) {
    exists i :: 0 <= i < |readings| && readings[i] > last
  }

  ghost function NextOf(g: Gen, readings: seq<int>): (Gen, Outcome)
    requires readings != []
  {
    var now := readings[0];
    if now < g.lastStamp then (g, ClockBackwards)
    else if now > g.lastStamp then
      (g.(sequence := 0, lastStamp := now), Id(Compose(now, g.workerID, 0)))
    else if g.sequence < MAX_SEQUENCE then
      (g.(sequence := g.sequence + 1), Id(Compose(now, g.workerID, g.sequence + 1)))
    else if MovesPast(g.lastStamp, readings) then
      var next := FirstAfter(g.lastStamp, readings);
      (g.(sequence := 0, lastStamp := next), Id(Compose(next, g.workerID, 0)))
    else (g.(sequence := 0, locked := true), StillWaiting)
  }

  /** What one call does. It refuses exactly when its first reading is before the last timestamp. Otherwise it
      issues an id for the last timestamp again, with the next sequence number, or for a later one, with
      number 0. The time is that of the first reading, or, when 4096 ids are used up, of the first reading
      after the last timestamp; without one the call keeps waiting. */
  lemma CallOutcome(g: Gen, readings: seq<int>)
    requires WellFormed(g) && readings != []
    ensures var (g', r) := NextOf(g, readings);
            && (r == ClockBackwards <==> readings[0] < g.lastStamp)
            && (r == ClockBackwards ==> g' == g)
            && (r == StillWaiting <==>
                  && readings[0] == g.lastStamp && g.sequence == 4095
                  && forall k :: 0 <= k < |readings| ==> readings[k] <= g.lastStamp)
            && (r == StillWaiting ==> g' == g.(sequence := 0, locked := true))
            && g'.workerID == g.workerID && (g'.locked <==> g.locked || r == StillWaiting)
    ensures var (g', r) := NextOf(g, readings);
            r.Id? ==>
              && r.id == Compose(g'.lastStamp, g.workerID, g'.sequence)
              && g'.sequence == (if g'.lastStamp == g.lastStamp then g.sequence + 1 else 0)
              && (if readings[0] == g.lastStamp && g.sequence == 4095
                  then IsFirstAfter(g.lastStamp, readings, g'.lastStamp) else g'.lastStamp == readings[0])
  {
    hide Compose;
    if readings[0] == g.lastStamp && g.sequence == 4095 && MovesPast(g.lastStamp, readings) {
      FirstAfterIsFirst(g.lastStamp, readings);
    }
  }

  ghost predicate IsFirstAfter(last: int, readings: seq<int>, r: int) {
    exists k :: 0 <= k < |readings| && r == readings[k] > last && forall j :: 0 <= j < k ==> readings[j] <= last
  }

  lemma {:induction false} FirstAfterIsFirst(last: int, readings: seq<int>)
    requires MovesPast(last, readings)
    ensures IsFirstAfter(last, readings, FirstAfter(last, readings))
  {
    if readings[0] <= last {
      var i :| 0 <= i < |readings| && readings[i] > last;
      assert readings[1..][i - 1] == readings[i];
      FirstAfterIsFirst(last, readings[1..]);
      var k :| 0 <= k < |readings[1..]| && FirstAfter(last, readings[1..]) == readings[1..][k] > last &&
               forall j :: 0 <= j < k ==> readings[1..][j] <= last;
      assert readings[k + 1] == readings[1..][k];
      assert forall j :: 0 < j < k + 1 ==> readings[j] == readings[1..][j - 1];
    }
  }

  class Generator {
    var workerID: int
    var sequence: int
    var lastStamp: int
    var locked: bool

    ghost predicate Valid()
      reads this
    {
      InRange(workerID, sequence)
    }

    ghost function State(): Gen
      reads this
      requires Valid()
    {
      Gen(workerID, sequence, lastStamp, locked)
    }

    constructor (workerID: int)
      requires 0 <= workerID <= MAX_WORKER
      ensures Valid() && State() == Gen(workerID, 0, 0, false)
    {
      this.workerID, sequence, lastStamp, locked := workerID, 0, 0, false;
    }

    // Waits while another call holds the lock, hence the precondition.
    method Next(readings: seq<int>) returns (r: Outcome)
      requires Valid() && !locked && readings != []
      modifies this
      ensures Valid() && (State(), r) == NextOf(old(State()), readings)
    {
      hide And, Or, ShiftLeft, Wrap64, Pow2;
      var now := readings[0];
      if now < lastStamp {
        return ClockBackwards;
      }
      if now == lastStamp {
        NextSequence(sequence);
        sequence := And(sequence + 1, MAX_SEQUENCE);
        if sequence == 0 {
          var i := 1;
          while i < |readings| && now <= lastStamp
            modifies {}
            invariant 1 <= i <= |readings|
            invariant now <= lastStamp ==> forall k :: 0 <= k < i ==> readings[k] <= lastStamp
            invariant now > lastStamp ==> MovesPast(lastStamp, readings) && now == FirstAfter(lastStamp, readings)
          {
            now := readings[i];
            if now > lastStamp {
              FirstIs(lastStamp, readings, i);
            }
            i := i + 1;
          }
          if now <= lastStamp {
            locked := true;
            return StillWaiting;
          }
        }
      } else {
        sequence := 0;
      }
      lastStamp := now;
      return Id(Or(Or(ShiftLeft(now - EPOCH, TIMESTAMP_SHIFT), ShiftLeft(workerID, WORKER_SHIFT)), sequence));
    }
  }

  lemma NextSequence(sequence: int)
    requires 0 <= sequence <= MAX_SEQUENCE
    ensures And(sequence + 1, MAX_SEQUENCE) == if sequence == MAX_SEQUENCE then 0 else sequence + 1
  {
    hide And, Pow2;
    MaskIsMod(sequence + 1, SEQUENCE_BITS);
    Powers();
  }

  lemma {:induction false} FirstIs(last: int, readings: seq<int>, i: nat)
    requires i < |readings| && readings[i] > last && forall k :: 0 <= k < i ==> readings[k] <= last
    ensures MovesPast(last, readings) && FirstAfter(last, readings) == readings[i]
  {
    if i > 0 {
      assert readings[1..][i - 1] == readings[i];
      FirstIs(last, readings[1..], i - 1);
    }
  }

  method New(workerID: int) returns (g: Generator?)
    ensures g == null <==> !(0 <= workerID <= MAX_WORKER)
    ensures g != null ==> fresh(g) && g.Valid() && g.State() == Gen(workerID, 0, 0, false)
  {
    if workerID < 0 || workerID > MAX_WORKER {
      return null;
    }
    g := new Generator(workerID);
  }

  // ---- Runs ----

  // A run ends when a call waits forever; every call takes at least one reading.
  ghost predicate Legal(g: Gen, calls: seq<seq<int>>)
    decreases |calls|
  {
    calls != [] ==> !g.locked && calls[0] != [] && Legal(NextOf(g, calls[0]).0, calls[1..])
  }

  // The ids returned, each with the timestamp and sequence number it was made of.
  datatype Issue = Issue(id: int, stamp: int, sequence: nat)

  ghost function Issued(g: Gen, calls: seq<seq<int>>): seq<Issue>
    requires Legal(g, calls)
    decreases |calls|
  {
    if calls == [] then [] else
      var (g', r) := NextOf(g, calls[0]);
      (if r.Id? then [Issue(r.id, g'.lastStamp, g'.sequence)] else []) + Issued(g', calls[1..])
  }

  ghost predicate After(stamp: int, sequence: nat, last: int, s: nat) {
    stamp > last || (stamp == last && sequence > s)
  }

  // What one call does, for the runs.
  lemma CallIssues(g: Gen, readings: seq<int>)
    requires WellFormed(g) && readings != []
    ensures var (g', r) := NextOf(g, readings);
            && WellFormed(g') && g'.workerID == g.workerID && g'.lastStamp >= g.lastStamp
            && (r.Id? ==> r.id == Compose(g'.lastStamp, g.workerID, g'.sequence) &&
                          After(g'.lastStamp, g'.sequence, g.lastStamp, g.sequence))
            && (!r.Id? && !g'.locked ==> g' == g)
            && (r == StillWaiting ==> g'.locked)
            && (g.locked ==> g'.locked)
  {
    hide Compose;
  }

  ghost predicate IssuedAfter(i: Issue, g: Gen) {
    && 0 <= i.sequence <= MAX_SEQUENCE && i.id == Compose(i.stamp, g.workerID, i.sequence)
    && After(i.stamp, i.sequence, g.lastStamp, g.sequence)
  }

  lemma IssuedLater(i: Issue, g: Gen, g': Gen)
    requires IssuedAfter(i, g') && g'.workerID == g.workerID
    requires g' == g || After(g'.lastStamp, g'.sequence, g.lastStamp, g.sequence)
    ensures IssuedAfter(i, g)
  {
  }

  // Every id is made of a later timestamp, or of the same and a later sequence number.
  lemma {:induction false} IssuedInOrder(g: Gen, calls: seq<seq<int>>)
    requires WellFormed(g) && Legal(g, calls)
    ensures forall i :: 0 <= i < |Issued(g, calls)| ==> IssuedAfter(Issued(g, calls)[i], g)
    ensures forall i, j :: 0 <= i < j < |Issued(g, calls)| ==>
                             After(Issued(g, calls)[j].stamp, Issued(g, calls)[j].sequence,
                                   Issued(g, calls)[i].stamp, Issued(g, calls)[i].sequence)
    decreases |calls|
  {
    if calls != [] {
      var (g', r) := NextOf(g, calls[0]);
      CallIssues(g, calls[0]);
      hide NextOf, Compose;
      IssuedInOrder(g', calls[1..]);
      var ids, rest := Issued(g, calls), Issued(g', calls[1..]);
      if r.Id? {
        assert ids == [Issue(r.id, g'.lastStamp, g'.sequence)] + rest;
        forall i | 0 <= i < |ids|
          ensures IssuedAfter(ids[i], g)
        {
          if i > 0 {
            IssuedLater(rest[i - 1], g, g');
          }
        }
        assert forall i :: 0 < i < |ids| ==> ids[i] == rest[i - 1] && IssuedAfter(rest[i - 1], g');
      } else if g'.locked {
        assert ids == [];
      } else {
        assert ids == rest;
      }
    }
  }

  /** Whatever the clock does, as long as no reading that was used lies 2^41 milliseconds or more
      after the epoch, the ids of a generator strictly increase. */
  lemma StrictlyIncreasing(workerID: nat, calls: seq<seq<int>>, i: nat, j: nat)
    requires workerID <= MAX_WORKER && Legal(Gen(workerID, 0, 0, false), calls)
    requires i < j < |Issued(Gen(workerID, 0, 0, false), calls)|
    requires Issued(Gen(workerID, 0, 0, false), calls)[j].stamp < EPOCH + 0x200_0000_0000
    ensures var ids := Issued(Gen(workerID, 0, 0, false), calls); ids[i].id < ids[j].id
  {
    var g := Gen(workerID, 0, 0, false);
    IssuedInOrder(g, calls);
    var a, b := Issued(g, calls)[i], Issued(g, calls)[j];
    assert IssuedAfter(a, g) && IssuedAfter(b, g);
    OrderIff(workerID, a.stamp, a.sequence, b.stamp, b.sequence);
    InFirstEra(a.stamp);
    InFirstEra(b.stamp);
    hide Compose, Issued, Legal, Position;
  }

  /** Past that point the order breaks: the id of the first millisecond is below that of the last
      one before, for every worker and all sequence numbers. */
  lemma OrderBreaks(worker: nat, s1: nat, s2: nat)
    requires InRange(worker, s1) && InRange(worker, s2)
    ensures var limit := EPOCH + 0x200_0000_0000;
            Compose(limit, worker, s2) < Compose(limit - 1, worker, s1)
  {
    OrderIff(worker, EPOCH + 0x200_0000_0000, s2, EPOCH + 0x200_0000_0000 - 1, s1);
    hide Compose;
  }

  /** Within one run an id comes back only after a whole number of eras, each more than a century:
      two ids are equal exactly when their sequence numbers are and their timestamps lie that far
      apart. Two generators with different workers never return the same id, whatever their clocks. */
  lemma NeverTheSame(w1: nat, calls1: seq<seq<int>>, i: nat, w2: nat, calls2: seq<seq<int>>, j: nat)
    requires w1 <= MAX_WORKER && w2 <= MAX_WORKER
    requires Legal(Gen(w1, 0, 0, false), calls1) && Legal(Gen(w2, 0, 0, false), calls2)
    requires i < |Issued(Gen(w1, 0, 0, false), calls1)| && j < |Issued(Gen(w2, 0, 0, false), calls2)|
    ensures var a, b := Issued(Gen(w1, 0, 0, false), calls1)[i], Issued(Gen(w2, 0, 0, false), calls2)[j];
            a.id == b.id <==> w1 == w2 && a.sequence == b.sequence && Position(a.stamp) == Position(b.stamp)
  {
    var g1, g2 := Gen(w1, 0, 0, false), Gen(w2, 0, 0, false);
    IssuedInOrder(g1, calls1);
    IssuedInOrder(g2, calls2);
    var a, b := Issued(g1, calls1)[i], Issued(g2, calls2)[j];
    assert IssuedAfter(a, g1) && IssuedAfter(b, g2);
    SameIff(a.stamp, w1, a.sequence, b.stamp, w2, b.sequence);
    hide Compose, Issued, Legal, Position;
  }
}
