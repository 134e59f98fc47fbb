/** Flash-sale stock in Redis: a total and striped buckets per product, changed only by atomic
    scripts whose calls interleave between requests. */
module FlashSale {
  import opened MachineInts

  // ---- The Redis keys the stock scripts touch; a missing counter reads as 0 ----

  datatype Status = Reserved | Released | Confirmed

  datatype Reservation = Reservation(product: string, quantity: int, bucket: int, status: Status)

  datatype Redis = Redis(total: map<string, int>, bucket: map<(string, int), int>, res: map<string, Reservation>)

  function Total(r: Redis, pid: string): int {
    if pid in r.total then r.total[pid] else 0
  }

  function Bucket(r: Redis, pid: string, i: int): int {
    if (pid, i) in r.bucket then r.bucket[(pid, i)] else 0
  }

  // INCRBY (or DECRBY, with a negative amount) on one bucket and on the total.
  function Move(r: Redis, pid: string, i: int, amount: int): Redis {
    r.(bucket := r.bucket[(pid, i) := Bucket(r, pid, i) + amount], total := r.total[pid := Total(r, pid) + amount])
  }

  // ---- The scripts ----

  // The i-th bucket probed, starting from `start` and wrapping around.
  function Probe(start: nat, i: nat, n: nat): nat
    requires start < n && i < n
  {
    if start + i < n then start + i else start + i - n
  }

  lemma ProbeIsModulo(start: nat, i: nat, n: nat)
    requires start < n && i < n
    ensures (start + i) % n == Probe(start, i, n)
  {
  }

  // The first probe, from the i-th on, that finds at least qty; n when there is none.
  function FirstProbe(r: Redis, pid: string, qty: int, start: nat, i: nat, n: nat): (k: nat)
    requires start < n && i <= n
    ensures i <= k <= n
    ensures forall j :: i <= j < k ==> Bucket(r, pid, Probe(start, j, n)) < qty
    ensures k < n ==> Bucket(r, pid, Probe(start, k, n)) >= qty
    decreases n - i
  {
    if i == n then n
    else if Bucket(r, pid, Probe(start, i, n)) >= qty then i
    else FirstProbe(r, pid, qty, start, i + 1, n)
  }

  // Returns the new state and the code: a bucket index, -2 (total too small) or -3 (no bucket).
  function ReserveStep(r: Redis, pid: string, qty: int, start: nat, n: nat): (o: (Redis, int))
    requires start < n
  {
    if Total(r, pid) < qty then (r, -2)
    else
      var k := FirstProbe(r, pid, qty, start, 0, n);
      if k == n then (r, -3)
      else (Move(r, pid, Probe(start, k, n), -qty), Probe(start, k, n) as int)
  }

  function CreateStep(r: Redis, rid: string, pid: string, qty: int, bucket: int): Redis {
    r.(res := r.res[rid := Reservation(pid, qty, bucket, Reserved)])
  }

  // Returns 1 (released now or before, or confirmed) or -1 (no such reservation).
  function ReleaseStep(r: Redis, rid: string): (Redis, int) {
    if rid !in r.res then (r, -1)
    else
      var v := r.res[rid];
      if v.status == Released || v.status == Confirmed then (r, 1)
      else (Move(r.(res := r.res[rid := v.(status := Released)]), v.product, v.bucket, v.quantity), 1)
  }

  // The initial share of each bucket: as even as possible, the remainder to the first ones.
  function Shares(stock: int, n: nat): (s: seq<int>)
    requires n > 0
    ensures |s| == n
  {
    seq(n, i requires 0 <= i < n => if i < Remainder(stock, n) then Quotient(stock, n) + 1 else Quotient(stock, n))
  }

  function SetBuckets(b: map<(string, int), int>, pid: string, s: seq<int>): map<(string, int), int> {
    if s == [] then b else SetBuckets(b, pid, s[..|s| - 1])[(pid, |s| - 1) := s[|s| - 1]]
  }

  // With a negative number of buckets only the total is written.
  function InitStep(r: Redis, pid: string, stock: int, n: int): Redis
    requires n != 0
  {
    r.(total := r.total[pid := stock],
       bucket := if n < 0 then r.bucket else SetBuckets(r.bucket, pid, Shares(stock, n)))
  }

  // ---- The whole system: Redis, and what requests have taken from it ----

  // Stock taken by one successful reserve. InFlight until its reservation is written, which is a
  // separate call and may never land.
  datatype Stage = InFlight | Created(rid: string)

  datatype Hold = Hold(product: string, bucket: int, quantity: int, stage: Stage)

  datatype System = System(redis: Redis, initial: map<string, seq<int>>, holds: seq<Hold>)

  const START := System(Redis(map[], map[], map[]), map[], [])

  datatype Action =
    | Init(pid: string, stock: nat, n: nat)
    | Reserve(pid: string, qty: int, start: nat, n: nat)
    | Create(hold: nat, rid: string)
    | Release(rid: string)

  // What a caller has to respect: products are set up once, quantities are positive, and
  // reservation ids are fresh. A reservation is written for stock that was taken.
  ghost predicate Enabled(s: System, a: Action) {
    match a
    case Init(pid, _, n) => n > 0 && pid !in s.initial
    case Reserve(_, qty, start, n) => qty >= 1 && start < n
    case Create(h, rid) => h < |s.holds| && s.holds[h].stage == InFlight && rid !in s.redis.res
    case Release(_) => true
  }

  function Step(s: System, a: Action): System
    requires Enabled(s, a)
  {
    match a
    case Init(pid, stock, n) =>
      s.(redis := InitStep(s.redis, pid, stock, n), initial := s.initial[pid := Shares(stock, n)])
    case Reserve(pid, qty, start, n) =>
      var (r, code) := ReserveStep(s.redis, pid, qty, start, n);
      s.(redis := r, holds := if code >= 0 then s.holds + [Hold(pid, code, qty, InFlight)] else s.holds)
    case Create(h, rid) =>
      var hold := s.holds[h];
      s.(redis := CreateStep(s.redis, rid, hold.product, hold.quantity, hold.bucket),
         holds := s.holds[h := hold.(stage := Created(rid))])
    case Release(rid) =>
      s.(redis := ReleaseStep(s.redis, rid).0)
  }

  // ---- Accounting ----

  type Reservations = map<string, Reservation>

  ghost predicate Outstanding(res: Reservations, h: Hold) {
    h.stage.InFlight? || (h.stage.rid in res && res[h.stage.rid].status == Reserved)
  }

  ghost function Weight(res: Reservations, h: Hold, pid: string, i: int): int {
    if h.product == pid && h.bucket == i && Outstanding(res, h) then h.quantity else 0
  }

  // The quantity taken from bucket i of a product and not returned.
  ghost function Taken(res: Reservations, holds: seq<Hold>, pid: string, i: int): int {
    if holds == [] then 0
    else Taken(res, holds[..|holds| - 1], pid, i) + Weight(res, holds[|holds| - 1], pid, i)
  }

  ghost function BucketSum(r: Redis, pid: string, n: nat): int {
    if n == 0 then 0 else BucketSum(r, pid, n - 1) + Bucket(r, pid, n - 1)
  }

  ghost predicate HoldsRecorded(s: System) {
    && (forall h :: h in s.holds ==>
          && h.product in s.initial && 0 <= h.bucket < |s.initial[h.product]| && h.quantity >= 1
          && (h.stage.Created? ==>
                && h.stage.rid in s.redis.res
                && s.redis.res[h.stage.rid].(status := Reserved) ==
                   Reservation(h.product, h.quantity, h.bucket, Reserved)))
    && (forall i, j :: 0 <= i < j < |s.holds| && s.holds[i].stage.Created? ==> s.holds[i].stage != s.holds[j].stage)
    && (forall rid :: rid in s.redis.res ==>
                        s.redis.res[rid].status != Confirmed && exists h :: h in s.holds && h.stage == Created(rid))
  }

  ghost predicate Conserved(s: System) {
    && (forall pid :: pid in s.initial ==> Total(s.redis, pid) == BucketSum(s.redis, pid, |s.initial[pid]|))
    && (forall pid, i :: pid in s.initial && 0 <= i < |s.initial[pid]| ==>
                           && Bucket(s.redis, pid, i) >= 0
                           && Bucket(s.redis, pid, i) + Taken(s.redis.res, s.holds, pid, i) == s.initial[pid][i])
    && (forall pid, i :: pid !in s.initial || !(0 <= i < |s.initial[pid]|) ==> Bucket(s.redis, pid, i) == 0)
    && (forall pid :: pid !in s.initial ==> Total(s.redis, pid) == 0)
  }

  ghost predicate Inv(s: System) {
    HoldsRecorded(s) && Conserved(s)
  }

  lemma {:induction false} BucketSumChange(r: Redis, r': Redis, pid: string, n: nat, i: int, amount: int)
    requires forall j :: 0 <= j < n ==> Bucket(r', pid, j) == Bucket(r, pid, j) + if j == i then amount else 0
    ensures BucketSum(r', pid, n) == BucketSum(r, pid, n) + if 0 <= i < n then amount else 0
  {
    if n > 0 {
      BucketSumChange(r, r', pid, n - 1, i, amount);
    }
  }

  // If only hold k may weigh differently, the total weight moves by that difference.
  lemma {:induction false} TakenChange(res: Reservations, hs: seq<Hold>, res': Reservations, hs': seq<Hold>,
                                       pid: string, i: int, k: int)
    requires |hs| == |hs'|
    requires forall j :: 0 <= j < |hs| && j != k ==> Weight(res, hs[j], pid, i) == Weight(res', hs'[j], pid, i)
    ensures Taken(res', hs', pid, i) == Taken(res, hs, pid, i) +
                                        if 0 <= k < |hs| then
                                          Weight(res', hs'[k], pid, i) - Weight(res, hs[k], pid, i)
                                        else
                                          0
  {
    if hs != [] {
      var n := |hs| - 1;
      TakenChange(res, hs[..n], res', hs'[..n], pid, i, k);
    }
  }

  lemma {:induction false} TakenNonNegative(res: Reservations, hs: seq<Hold>, pid: string, i: int)
    requires forall h :: h in hs ==> h.quantity >= 1
    ensures Taken(res, hs, pid, i) >= 0
  {
    if hs != [] {
      TakenNonNegative(res, hs[..|hs| - 1], pid, i);
      assert hs[|hs| - 1] in hs;
    }
  }

  lemma {:induction false} TakenNone(res: Reservations, hs: seq<Hold>, pid: string, i: int)
    requires forall h :: h in hs ==> h.product != pid
    ensures Taken(res, hs, pid, i) == 0
  {
    if hs != [] {
      TakenNone(res, hs[..|hs| - 1], pid, i);
      assert hs[|hs| - 1] in hs;
    }
  }

  // ---- Every step keeps the accounts ----

  lemma {:induction false} SetBucketsReads(r: Redis, pid: string, s: seq<int>, p: string, i: int)
    ensures Bucket(r.(bucket := SetBuckets(r.bucket, pid, s)), p, i)
         == if p == pid && 0 <= i < |s| then s[i] else Bucket(r, p, i)
  {
    if s != [] {
      SetBucketsReads(r, pid, s[..|s| - 1], p, i);
    }
  }

  lemma StockDivided(stock: nat, n: nat)
    requires n > 0
    ensures Quotient(stock, n) == stock / n >= 0 && Remainder(stock, n) == stock % n
  {
  }

  // The first j shares hold j base units and the remainders among them.
  lemma {:induction false} SharesSum(r: Redis, pid: string, stock: nat, n: nat, j: nat)
    requires n > 0 && j <= n
    requires forall i :: 0 <= i < j ==> Bucket(r, pid, i) == Shares(stock, n)[i]
    ensures BucketSum(r, pid, j) == j * (stock / n) + if j < stock % n then j else stock % n
  {
    StockDivided(stock, n);
    if j > 0 {
      SharesSum(r, pid, stock, n, j - 1);
      Multiple(j, stock / n);
    }
  }

  lemma Multiple(j: nat, q: int)
    ensures j * q == (j - 1) * q + q
  {
  }

  lemma {:induction false} BucketSumSame(r: Redis, r': Redis, pid: string, n: nat)
    requires forall j :: 0 <= j < n ==> Bucket(r', pid, j) == Bucket(r, pid, j)
    ensures BucketSum(r', pid, n) == BucketSum(r, pid, n)
  {
    BucketSumChange(r, r', pid, n, -1, 0);
  }

  lemma InitReads(r: Redis, pid: string, stock: nat, n: nat)
    requires n > 0
    ensures var r' := InitStep(r, pid, stock, n);
            && (forall p, i ::
                  Bucket(r', p, i) == if p == pid && 0 <= i < n then Shares(stock, n)[i] else Bucket(r, p, i))
            && (forall p :: Total(r', p) == if p == pid then stock else Total(r, p))
            && r'.res == r.res
            && BucketSum(r', pid, n) == stock
  {
    var r' := InitStep(r, pid, stock, n);
    forall p, i
      ensures Bucket(r', p, i) == if p == pid && 0 <= i < n then Shares(stock, n)[i] else Bucket(r, p, i)
    {
      SetBucketsReads(r, pid, Shares(stock, n), p, i);
      assert Bucket(r', p, i) == Bucket(r.(bucket := r'.bucket), p, i);
    }
    SharesSum(r', pid, stock, n, n);
  }

  lemma InitKeeps(s: System, pid: string, stock: nat, n: nat)
    requires Inv(s) && Enabled(s, Init(pid, stock, n))
    ensures Inv(Step(s, Init(pid, stock, n)))
  {
    hide BucketSum, Taken, InitStep, Shares, Weight;
    var s' := Step(s, Init(pid, stock, n));
    InitReads(s.redis, pid, stock, n);
    forall p | p in s.initial
      ensures BucketSum(s'.redis, p, |s.initial[p]|) == BucketSum(s.redis, p, |s.initial[p]|)
    {
      BucketSumSame(s.redis, s'.redis, p, |s.initial[p]|);
    }
    forall i
      ensures Taken(s.redis.res, s.holds, pid, i) == 0
    {
      TakenNone(s.redis.res, s.holds, pid, i);
    }
    SharesNonNegative(stock, n);
    assert Conserved(s');
  }

  lemma SharesNonNegative(stock: nat, n: nat)
    requires n > 0
    ensures forall i :: 0 <= i < n ==> Shares(stock, n)[i] >= 0
  {
    StockDivided(stock, n);
  }

  lemma MoveReads(r: Redis, pid: string, i: int, amount: int)
    ensures var r' := Move(r, pid, i, amount);
            && (forall p, j :: Bucket(r', p, j) == Bucket(r, p, j) + if p == pid && j == i then amount else 0)
            && (forall p :: Total(r', p) == Total(r, p) + if p == pid then amount else 0)
            && r'.res == r.res
  {
  }

  // Conserved accounts stay conserved when one bucket and the total move by an amount, and what is
  // taken from that bucket moves by the opposite amount.
  lemma MoveKeepsConserved(s: System, s': System, pid: string, i: int, amount: int)
    requires Conserved(s) && s'.initial == s.initial
    requires pid in s.initial && 0 <= i < |s.initial[pid]|
    requires Bucket(s.redis, pid, i) + amount >= 0
    requires s'.redis.bucket == Move(s.redis, pid, i, amount).bucket
    requires s'.redis.total == Move(s.redis, pid, i, amount).total
    requires forall p, j :: Taken(s'.redis.res, s'.holds, p, j) ==
                            Taken(s.redis.res, s.holds, p, j) - if p == pid && j == i then amount else 0
    ensures Conserved(s')
  {
    var r' := Move(s.redis, pid, i, amount);
    MoveReads(s.redis, pid, i, amount);
    assert forall p, j :: Bucket(s'.redis, p, j) == Bucket(r', p, j);
    assert forall p :: Total(s'.redis, p) == Total(r', p);
    hide BucketSum, Taken, Move, Bucket, Total;
    forall p | p in s.initial
      ensures BucketSum(s'.redis, p, |s.initial[p]|) ==
              BucketSum(s.redis, p, |s.initial[p]|) + if p == pid then amount else 0
    {
      BucketSumChange(s.redis, s'.redis, p, |s.initial[p]|, if p == pid then i else -1, amount);
    }
  }

  lemma ReserveKeeps(s: System, pid: string, qty: int, start: nat, n: nat)
    requires Inv(s) && Enabled(s, Reserve(pid, qty, start, n))
    ensures Inv(Step(s, Reserve(pid, qty, start, n)))
  {
    var (r, code) := ReserveStep(s.redis, pid, qty, start, n);
    var s' := Step(s, Reserve(pid, qty, start, n));
    if code >= 0 {
      var hold := Hold(pid, code, qty, InFlight);
      assert Bucket(s.redis, pid, code) >= qty >= 1;
      assert pid in s.initial && code < |s.initial[pid]|;
      assert s' == s.(redis := Move(s.redis, pid, code, -qty), holds := s.holds + [hold]);
      assert s'.redis.res == s.redis.res;
      hide Move, FirstProbe, ReserveStep, BucketSum;
      assert s'.holds[..|s.holds|] == s.holds && s'.holds[|s.holds|] == hold;
      MoveKeepsConserved(s, s', pid, code, -qty);
      ReserveKeepsHolds(s, s', hold);
    }
  }

  lemma ReserveKeepsHolds(s: System, s': System, hold: Hold)
    requires HoldsRecorded(s)
    requires s'.initial == s.initial && s'.redis.res == s.redis.res && s'.holds == s.holds + [hold]
    requires hold.product in s.initial && 0 <= hold.bucket < |s.initial[hold.product]| && hold.quantity >= 1
    requires hold.stage == InFlight
    ensures HoldsRecorded(s')
  {
  }

  lemma CreateKeeps(s: System, h: nat, rid: string)
    requires Inv(s) && Enabled(s, Create(h, rid))
    ensures Inv(Step(s, Create(h, rid)))
  {
    hide BucketSum, Taken, HoldsRecorded;
    CreateKeepsHolds(s, h, rid);
    CreateKeepsTaken(s, h, rid);
    var s' := Step(s, Create(h, rid));
    assert s'.redis.bucket == s.redis.bucket && s'.redis.total == s.redis.total && s'.initial == s.initial;
    hide Step, Enabled;
    assert forall p, i :: Bucket(s'.redis, p, i) == Bucket(s.redis, p, i);
    assert forall p :: Total(s'.redis, p) == Total(s.redis, p);
    forall p | p in s.initial
      ensures BucketSum(s'.redis, p, |s.initial[p]|) == BucketSum(s.redis, p, |s.initial[p]|)
    {
      BucketSumSame(s.redis, s'.redis, p, |s.initial[p]|);
    }
    assert Conserved(s');
  }

  lemma CreateKeepsHolds(s: System, h: nat, rid: string)
    requires HoldsRecorded(s) && Enabled(s, Create(h, rid))
    ensures HoldsRecorded(Step(s, Create(h, rid)))
  {
    var s' := Step(s, Create(h, rid));
    assert s'.holds[h] in s'.holds;
    assert s.holds[h] in s.holds;
    forall r | r in s.redis.res
      ensures exists g :: g in s'.holds && g.stage == Created(r)
    {
      var k :| 0 <= k < |s.holds| && s.holds[k].stage == Created(r);
      assert s'.holds[k] in s'.holds;
    }
  }

  lemma CreateKeepsTaken(s: System, h: nat, rid: string)
    requires HoldsRecorded(s) && Enabled(s, Create(h, rid))
    ensures var s' := Step(s, Create(h, rid));
            forall p, i :: Taken(s'.redis.res, s'.holds, p, i) == Taken(s.redis.res, s.holds, p, i)
  {
    var s' := Step(s, Create(h, rid));
    forall p, i
      ensures Taken(s'.redis.res, s'.holds, p, i) == Taken(s.redis.res, s.holds, p, i)
    {
      forall j | 0 <= j < |s.holds| && j != h
        ensures Weight(s.redis.res, s.holds[j], p, i) == Weight(s'.redis.res, s'.holds[j], p, i)
      {
        assert s.holds[j] in s.holds;
      }
      TakenChange(s.redis.res, s.holds, s'.redis.res, s'.holds, p, i, h);
    }
  }

  // The one hold a live reservation stands for.
  lemma HoldOf(s: System, rid: string) returns (k: nat)
    requires HoldsRecorded(s) && rid in s.redis.res
    ensures k < |s.holds| && s.holds[k].stage == Created(rid)
    ensures forall j :: 0 <= j < |s.holds| && j != k ==> s.holds[j].stage != Created(rid)
    ensures var v, h := s.redis.res[rid], s.holds[k];
            && h.product == v.product && h.bucket == v.bucket && h.quantity == v.quantity
            && v.product in s.initial && 0 <= v.bucket < |s.initial[v.product]| && v.quantity >= 1
  {
    k :| 0 <= k < |s.holds| && s.holds[k].stage == Created(rid);
    assert s.holds[k] in s.holds;
  }

  lemma ReleaseTaken(s: System, rid: string)
    requires HoldsRecorded(s) && rid in s.redis.res && s.redis.res[rid].status == Reserved
    ensures var v := s.redis.res[rid];
            var res' := s.redis.res[rid := v.(status := Released)];
            forall p, i :: Taken(res', s.holds, p, i) ==
                           Taken(s.redis.res, s.holds, p, i) - if p == v.product && i == v.bucket then v.quantity else 0
  {
    var v := s.redis.res[rid];
    var res' := s.redis.res[rid := v.(status := Released)];
    var k := HoldOf(s, rid);
    forall p, i
      ensures Taken(res', s.holds, p, i) ==
              Taken(s.redis.res, s.holds, p, i) - if p == v.product && i == v.bucket then v.quantity else 0
    {
      TakenChange(s.redis.res, s.holds, res', s.holds, p, i, k);
    }
  }

  lemma ReleaseKeeps(s: System, rid: string)
    requires Inv(s)
    ensures Inv(Step(s, Release(rid)))
  {
    hide BucketSum, Taken, HoldsRecorded;
    var s' := Step(s, Release(rid));
    if rid in s.redis.res && s.redis.res[rid].status == Reserved {
      var v := s.redis.res[rid];
      var k := HoldOf(s, rid);
      var res' := s.redis.res[rid := v.(status := Released)];
      assert s' == s.(redis := Move(s.redis.(res := res'), v.product, v.bucket, v.quantity));
      assert s'.redis.res == res';
      assert s'.redis.bucket == Move(s.redis, v.product, v.bucket, v.quantity).bucket;
      assert s'.redis.total == Move(s.redis, v.product, v.bucket, v.quantity).total;
      hide Move, ReleaseStep, Step;
      ReleaseTaken(s, rid);
      MoveKeepsConserved(s, s', v.product, v.bucket, v.quantity);
      ReleaseKeepsHolds(s, s', rid);
    }
  }

  lemma ReleaseKeepsHolds(s: System, s': System, rid: string)
    requires HoldsRecorded(s) && rid in s.redis.res
    requires s'.initial == s.initial && s'.holds == s.holds
    requires s'.redis.res == s.redis.res[rid := s.redis.res[rid].(status := Released)]
    ensures HoldsRecorded(s')
  {
  }

  // ---- Runs ----

  ghost predicate Legal(s: System, actions: seq<Action>)
    decreases |actions|
  {
    actions != [] ==> Enabled(s, actions[0]) && Legal(Step(s, actions[0]), actions[1..])
  }

  ghost function Final(s: System, actions: seq<Action>): System
    requires Legal(s, actions)
    decreases |actions|
  {
    if actions == [] then s else Final(Step(s, actions[0]), actions[1..])
  }

  lemma StepKeeps(s: System, a: Action)
    requires Inv(s) && Enabled(s, a)
    ensures Inv(Step(s, a))
  {
    hide Inv, Step;
    match a
    case Init(pid, stock, n) => InitKeeps(s, pid, stock, n);
    case Reserve(pid, qty, start, n) => ReserveKeeps(s, pid, qty, start, n);
    case Create(h, rid) => CreateKeeps(s, h, rid);
    case Release(rid) => ReleaseKeeps(s, rid);
  }

  lemma {:induction false} InvForever(s: System, actions: seq<Action>)
    requires Inv(s) && Legal(s, actions)
    ensures Inv(Final(s, actions))
    decreases |actions|
  {
    hide Inv, Step;
    if actions != [] {
      StepKeeps(s, actions[0]);
      InvForever(Step(s, actions[0]), actions[1..]);
    }
  }

  /** Conservation under every interleaving: the total is the sum of the buckets, each bucket and
      what is still taken from it make up its initial share, and no counter goes negative. */
  lemma EveryRunConserves(actions: seq<Action>, pid: string, i: int)
    requires Legal(START, actions)
    requires var s := Final(START, actions); pid in s.initial && 0 <= i < |s.initial[pid]|
    ensures var s := Final(START, actions);
            && Total(s.redis, pid) == BucketSum(s.redis, pid, |s.initial[pid]|) >= 0
            && Bucket(s.redis, pid, i) + Taken(s.redis.res, s.holds, pid, i) == s.initial[pid][i]
            && 0 <= Bucket(s.redis, pid, i) <= s.initial[pid][i]
  {
    InvForever(START, actions);
    var s := Final(START, actions);
    hide Final, Legal, HoldsRecorded;
    TotalNonNegative(s, pid, |s.initial[pid]|);
    hide Bucket, Total, BucketSum;
    HoldsPositive(s);
    TakenNonNegative(s.redis.res, s.holds, pid, i);
  }

  lemma HoldsPositive(s: System)
    requires Inv(s)
    ensures forall h :: h in s.holds ==> h.quantity >= 1
  {
  }

  lemma {:induction false} TotalNonNegative(s: System, pid: string, n: nat)
    requires Inv(s) && pid in s.initial && n <= |s.initial[pid]|
    ensures BucketSum(s.redis, pid, n) >= 0
    ensures forall i :: 0 <= i < n ==> Bucket(s.redis, pid, i) <= BucketSum(s.redis, pid, n)
  {
    hide Bucket, HoldsRecorded;
    if n > 0 {
      TotalNonNegative(s, pid, n - 1);
    }
  }

  ghost function TakenInAll(res: Reservations, holds: seq<Hold>, pid: string, n: nat): int {
    if n == 0 then 0 else TakenInAll(res, holds, pid, n - 1) + Taken(res, holds, pid, n - 1)
  }

  lemma {:induction false} SumsAgree(s: System, pid: string, n: nat)
    requires Inv(s) && pid in s.initial && n <= |s.initial[pid]|
    ensures BucketSum(s.redis, pid, n) + TakenInAll(s.redis.res, s.holds, pid, n) == Sum(s.initial[pid][..n])
  {
    hide Bucket, Taken, HoldsRecorded;
    if n > 0 {
      assert s.initial[pid][..n][..n - 1] == s.initial[pid][..n - 1];
      SumsAgree(s, pid, n - 1);
    }
  }

  /** No oversell: what is taken and what remains always add up to the initial stock, and what
      remains is never negative. */
  lemma NeverOversold(actions: seq<Action>, pid: string)
    requires Legal(START, actions) && pid in Final(START, actions).initial
    ensures var s := Final(START, actions);
            var n := |s.initial[pid]|;
            && Total(s.redis, pid) + TakenInAll(s.redis.res, s.holds, pid, n) == Sum(s.initial[pid])
            && 0 <= Total(s.redis, pid)
            && TakenInAll(s.redis.res, s.holds, pid, n) <= Sum(s.initial[pid])
  {
    InvForever(START, actions);
    var s := Final(START, actions);
    var n := |s.initial[pid]|;
    hide Final, Legal, HoldsRecorded;
    SumsAgree(s, pid, n);
    assert s.initial[pid][..n] == s.initial[pid];
    TotalNonNegative(s, pid, n);
  }

  lemma {:induction false} SharesAddUp(stock: int, n: nat, j: nat)
    requires n > 0 && j <= n
    ensures var r := Remainder(stock, n);
            Sum(Shares(stock, n)[..j]) == j * Quotient(stock, n) + if r < 0 then 0 else if j < r then j else r
  {
    hide Quotient, Remainder;
    if j > 0 {
      assert Shares(stock, n)[..j][..j - 1] == Shares(stock, n)[..j - 1];
      SharesAddUp(stock, n, j - 1);
      Multiple(j, Quotient(stock, n));
    }
  }

  lemma RemainderBounds(stock: int, n: nat)
    requires n > 0
    ensures stock == n * Quotient(stock, n) + Remainder(stock, n)
    ensures stock >= 0 ==> 0 <= Remainder(stock, n) < n
    ensures stock <= 0 ==> 0 < Remainder(stock, n) + n && Remainder(stock, n) <= 0
  {
    if stock < 0 {
      var q, r := -stock / n, -stock % n;
      assert -stock == n * q + r;
      assert n * -q == -(n * q);
    }
  }

  /** The initial shares are as even as possible. They add up to the stock if and only if it is not
      negative or divides evenly. */
  lemma SharesAreFair(stock: int, n: nat)
    requires n > 0
    ensures Sum(Shares(stock, n)) == stock <==> stock >= 0 || Remainder(stock, n) == 0
    ensures forall i, j :: 0 <= i < j < n ==> Shares(stock, n)[j] <= Shares(stock, n)[i] <= Shares(stock, n)[j] + 1
  {
    SharesAddUp(stock, n, n);
    RemainderBounds(stock, n);
    assert Shares(stock, n)[..n] == Shares(stock, n);
    hide Quotient, Remainder;
  }

  // ---- When a reserve fails ----

  lemma EveryBucketProbed(start: nat, n: nat, idx: nat) returns (i: nat)
    requires start < n && idx < n
    ensures i < n && Probe(start, i, n) == idx
  {
    i := if idx >= start then idx - start else idx + n - start;
  }

  // From r to r' the product's i-th bucket and its total change by the amount, and no other stock does.
  ghost predicate Moved(r: Redis, r': Redis, pid: string, i: int, amount: int) {
    && (forall p :: Total(r', p) == Total(r, p) + if p == pid then amount else 0)
    && (forall p, j :: Bucket(r', p, j) == Bucket(r, p, j) + if p == pid && j == i then amount else 0)
  }

  lemma MoveMoves(r: Redis, pid: string, i: int, amount: int)
    ensures Moved(r, Move(r, pid, i, amount), pid, i, amount) && Move(r, pid, i, amount).res == r.res
  {
  }

  /** The outcome of a reserve, for any quantity: it fails exactly when the total is too small or no
      probed bucket has enough, and otherwise takes the quantity from the first one that has, counted from
      the starting bucket and around. */
  lemma ReserveOutcome(r: Redis, pid: string, qty: int, start: nat, n: nat)
    requires start < n
    ensures var (r', code) := ReserveStep(r, pid, qty, start, n);
            && (code == -2 <==> Total(r, pid) < qty)
            && (code == -3 <==> Total(r, pid) >= qty && forall idx: nat :: idx < n ==> Bucket(r, pid, idx) < qty)
            && (code < 0 ==> r' == r)
            && (code >= 0 ==> Moved(r, r', pid, code, -qty) && r'.res == r.res && Bucket(r, pid, code) >= qty)
            && (code >= 0 ==> exists i: nat ::
                  && i < n && code == Probe(start, i, n)
                  && forall j: nat :: j < i ==> Bucket(r, pid, Probe(start, j, n)) < qty)
  {
    hide Bucket, Total, Move, Moved;
    var k := FirstProbe(r, pid, qty, start, 0, n);
    if k < n {
      MoveMoves(r, pid, Probe(start, k, n), -qty);
    }
    forall idx: nat | k == n && idx < n
      ensures Bucket(r, pid, idx) < qty
    {
      var i := EveryBucketProbed(start, n, idx);
    }
  }

  /** The outcome of a release: -1 exactly when there is no such reservation. The quantity goes back to the
      bucket it came from, and the reservation is marked, if it was neither released nor confirmed before;
      otherwise nothing changes. */
  lemma ReleaseOutcome(r: Redis, rid: string)
    ensures var (r', code) := ReleaseStep(r, rid);
            && code == (if rid in r.res then 1 else -1)
            && (rid in r.res && r.res[rid].status == Reserved ==>
                  && Moved(r, r', r.res[rid].product, r.res[rid].bucket, r.res[rid].quantity)
                  && r'.res == r.res[rid := r.res[rid].(status := Released)])
            && (!(rid in r.res && r.res[rid].status == Reserved) ==> r' == r)
  {
    if rid in r.res {
      var v := r.res[rid];
      var marked := r.(res := r.res[rid := v.(status := Released)]);
      MoveMoves(marked, v.product, v.bucket, v.quantity);
      assert Moved(r, marked, v.product, v.bucket, 0);
      hide Move;
    }
  }

  // A one-unit reserve that probes n buckets fails exactly when the product is sold out, in every
  // state that a run reaches with the product set up with this stock in m buckets.
  ghost predicate FailsOnlyWhenSoldOut(pid: string, stock: nat, m: nat, n: nat)
    requires m > 0
  {
    forall actions, start: nat ::
      Legal(START, actions) && SetUp(Final(START, actions), pid, stock, m) && start < n ==>
        (ReserveStep(Final(START, actions).redis, pid, 1, start, n).1 < 0 <==>
         Total(Final(START, actions).redis, pid) == 0)
  }

  ghost predicate SetUp(s: System, pid: string, stock: nat, m: nat)
    requires m > 0
  {
    pid in s.initial && s.initial[pid] == Shares(stock, m)
  }

  /** A one-unit reserve over n buckets fails exactly when the product is sold out, in all runs, if and
      only if it probes all the product's buckets or the stock is no more than the buckets probed. */
  lemma OneUnitFailsIffSoldOut(pid: string, stock: nat, m: nat, n: nat)
    requires m > 0 && n > 0
    ensures FailsOnlyWhenSoldOut(pid, stock, m, n) <==> n >= m || stock <= n
  {
    if n >= m || stock <= n {
      forall actions, start: nat | Legal(START, actions) && SetUp(Final(START, actions), pid, stock, m) && start < n
        ensures ReserveStep(Final(START, actions).redis, pid, 1, start, n).1 < 0 <==>
                Total(Final(START, actions).redis, pid) == 0
      {
        InvForever(START, actions);
        hide Legal, Final, Inv, ReserveStep, Shares, Total;
        FailsIffEmpty(Final(START, actions), pid, stock, m, start, n);
      }
    } else {
      var actions := Draining(pid, stock, m, n);
      var start: nat := 0;
      assert ReserveStep(Final(START, actions).redis, pid, 1, start, n).1 == -3;
      hide Legal, Final, ReserveStep, Shares, Total;
    }
  }

  // The shares that are not probed are 0 when the stock is no more than the buckets probed, and
  // positive at first otherwise.
  lemma UnprobedShares(stock: nat, m: nat, n: nat)
    requires 0 < n < m
    ensures stock <= n ==> forall i :: n <= i < m ==> Shares(stock, m)[i] == 0
    ensures stock > n ==> forall i :: 0 <= i <= n ==> Shares(stock, m)[i] >= 1
  {
    StockDivided(stock, m);
    if stock < m {
      assert stock / m == 0 && stock % m == stock;
    } else {
      AtLeastOne(stock, m);
    }
  }

  lemma AtLeastOne(x: nat, d: nat)
    requires 0 < d <= x
    ensures x / d >= 1
  {
  }

  lemma FailsIffEmpty(s: System, pid: string, stock: nat, m: nat, start: nat, n: nat)
    requires Inv(s) && m > 0 && start < n && SetUp(s, pid, stock, m) && (n >= m || stock <= n)
    ensures ReserveStep(s.redis, pid, 1, start, n).1 < 0 <==> Total(s.redis, pid) == 0
  {
    if n < m {
      UnprobedShares(stock, m, n);
    }
    forall idx: nat | n <= idx
      ensures Bucket(s.redis, pid, idx) < 1
    {
      TakenAtLeastZero(s, pid, idx);
      hide Bucket, Taken, HoldsRecorded, Shares;
    }
    ReserveOutcome(s.redis, pid, 1, start, n);
    hide ReserveStep, Bucket, Total, Shares, Moved;
    TotalNonNegative(s, pid, m);
    if forall idx: nat :: idx < n ==> Bucket(s.redis, pid, idx) < 1 {
      EmptySum(s.redis, pid, m);
    }
    hide HoldsRecorded;
  }

  lemma TakenAtLeastZero(s: System, pid: string, i: int)
    requires Inv(s)
    ensures Taken(s.redis.res, s.holds, pid, i) >= 0
  {
    HoldsPositive(s);
    TakenNonNegative(s.redis.res, s.holds, pid, i);
  }

  lemma {:induction false} OneMoreAction(s: System, actions: seq<Action>, a: Action)
    requires Legal(s, actions) && Enabled(Final(s, actions), a)
    ensures Legal(s, actions + [a]) && Final(s, actions + [a]) == Step(Final(s, actions), a)
    decreases |actions|
  {
    hide Step, Enabled;
    if actions == [] {
      assert [a][1..] == [];
      assert actions + [a] == [a];
    } else {
      assert (actions + [a])[1..] == actions[1..] + [a];
      OneMoreAction(Step(s, actions[0]), actions[1..], a);
    }
  }

  // The first k buckets of the product are empty, the others hold their shares.
  ghost predicate Drained(s: System, pid: string, stock: nat, m: nat, k: nat)
    requires m > 0
  {
    && SetUp(s, pid, stock, m)
    && forall i :: 0 <= i < m ==> Bucket(s.redis, pid, i) == if i < k then 0 else Shares(stock, m)[i]
  }

  lemma SetUpUndrained(pid: string, stock: nat, m: nat)
    requires m > 0
    ensures Enabled(START, Init(pid, stock, m)) && Drained(Step(START, Init(pid, stock, m)), pid, stock, m, 0)
  {
    InitReads(START.redis, pid, stock, m);
    hide Shares, Bucket, InitStep;
  }

  // A reserve of a whole share empties the bucket it starts from.
  lemma DrainOne(s: System, pid: string, stock: nat, m: nat, n: nat, k: nat) returns (a: Action)
    requires 0 < n < m && stock > n && k < n && Inv(s) && Drained(s, pid, stock, m, k)
    ensures Enabled(s, a) && Drained(Step(s, a), pid, stock, m, k + 1)
  {
    var qty := Shares(stock, m)[k];
    a := Reserve(pid, qty, k, n);
    UnprobedShares(stock, m, n);
    BucketBelowTotal(s, pid, m, k);
    hide Shares, Inv, ReserveStep, Bucket, Move, Total;
    TakesFirstProbe(s.redis, pid, qty, k, n);
    MoveReads(s.redis, pid, k, -qty);
  }

  // Reserves of whole shares drain the first k buckets and leave the next ones alone.
  lemma {:induction false} DrainingTo(pid: string, stock: nat, m: nat, n: nat, k: nat) returns (actions: seq<Action>)
    requires 0 < n < m && stock > n && k <= n
    ensures Legal(START, actions) && Drained(Final(START, actions), pid, stock, m, k)
  {
    assert Inv(START);
    hide Drained, Inv, Enabled, Step;
    var a: Action;
    if k == 0 {
      actions, a := [], Init(pid, stock, m);
      SetUpUndrained(pid, stock, m);
    } else {
      actions := DrainingTo(pid, stock, m, n, k - 1);
      InvForever(START, actions);
      hide Legal, Final;
      a := DrainOne(Final(START, actions), pid, stock, m, n, k - 1);
    }
    OneMoreAction(START, actions, a);
    actions := actions + [a];
  }

  lemma TakesFirstProbe(r: Redis, pid: string, qty: int, start: nat, n: nat)
    requires start < n && Bucket(r, pid, start) >= qty && Total(r, pid) >= qty
    ensures ReserveStep(r, pid, qty, start, n) == (Move(r, pid, start, -qty), start as int)
  {
    hide Bucket, Total, Move;
    assert Probe(start, 0, n) == start;
  }

  lemma BucketBelowTotal(s: System, pid: string, m: nat, i: nat)
    requires Inv(s) && pid in s.initial && |s.initial[pid]| == m && i < m
    ensures Bucket(s.redis, pid, i) <= Total(s.redis, pid)
  {
    hide Bucket, Total, HoldsRecorded, Taken;
    BucketBelowSum(s.redis, pid, m, i);
  }

  lemma {:induction false} BucketBelowSum(r: Redis, pid: string, n: nat, i: nat)
    requires i < n && forall j :: 0 <= j < n ==> Bucket(r, pid, j) >= 0
    ensures Bucket(r, pid, i) <= BucketSum(r, pid, n) && BucketSum(r, pid, n) >= 0
  {
    hide Bucket;
    if n > 1 {
      BucketBelowSum(r, pid, n - 1, if i < n - 1 then i else 0);
    }
  }

  /** With fewer probes than buckets and more stock than probes, a run drains every bucket that is
      probed: then a one-unit reserve finds none, although the total is not 0. */
  lemma Draining(pid: string, stock: nat, m: nat, n: nat) returns (actions: seq<Action>)
    requires 0 < n < m && stock > n
    ensures Legal(START, actions) && SetUp(Final(START, actions), pid, stock, m)
    ensures var r := Final(START, actions).redis;
            Total(r, pid) > 0 && forall start: nat :: start < n ==> ReserveStep(r, pid, 1, start, n).1 == -3
  {
    actions := DrainingTo(pid, stock, m, n, n);
    var s := Final(START, actions);
    UnprobedShares(stock, m, n);
    InvForever(START, actions);
    BucketBelowTotal(s, pid, m, n);
    hide Legal, Final, Inv, Shares, Total, Bucket, ReserveStep;
    forall start: nat | start < n
      ensures ReserveStep(s.redis, pid, 1, start, n).1 == -3
    {
      ReserveOutcome(s.redis, pid, 1, start, n);
    }
  }

  lemma {:induction false} EmptySum(r: Redis, pid: string, n: nat)
    requires forall idx: nat :: idx < n ==> Bucket(r, pid, idx) < 1
    ensures BucketSum(r, pid, n) <= 0
  {
    if n > 0 {
      EmptySum(r, pid, n - 1);
    }
  }

  // ---- Stock comes back at most once per reservation ----

  ghost predicate IsReleased(s: System, rid: string) {
    rid in s.redis.res && s.redis.res[rid].status == Released
  }

  /** Once released, a reservation stays released in every run, and releasing it again changes
      nothing in Redis. */
  lemma {:induction false} ReturnedAtMostOnce(s: System, actions: seq<Action>, rid: string)
    requires Legal(s, actions) && IsReleased(s, rid)
    ensures IsReleased(Final(s, actions), rid)
    ensures Step(Final(s, actions), Release(rid)) == Final(s, actions)
    decreases |actions|
  {
    if actions != [] {
      var s' := Step(s, actions[0]);
      assert IsReleased(s', rid);
      ReturnedAtMostOnce(s', actions[1..], rid);
    }
  }

  // What a release of rid would put back right now, measured on the total and on the bucket.
  ghost function PutBack(s: System, rid: string): (int, int) {
    if rid in s.redis.res then
      var v, s' := s.redis.res[rid], Step(s, Release(rid));
      (Total(s'.redis, v.product) - Total(s.redis, v.product),
       Bucket(s'.redis, v.product, v.bucket) - Bucket(s.redis, v.product, v.bucket))
    else (0, 0)
  }

  // What all the releases of rid in a run put back together.
  ghost function AllPutBack(s: System, actions: seq<Action>, rid: string): (int, int)
    requires Legal(s, actions)
    decreases |actions|
  {
    if actions == [] then (0, 0)
    else
      var now := if actions[0] == Release(rid) then PutBack(s, rid) else (0, 0);
      var later := AllPutBack(Step(s, actions[0]), actions[1..], rid);
      (now.0 + later.0, now.1 + later.1)
  }

  // The quantity of a released reservation; 0 for one that is still live or does not exist.
  ghost function ReleasedQuantity(s: System, rid: string): int {
    if rid in s.redis.res && s.redis.res[rid].status == Released then s.redis.res[rid].quantity else 0
  }

  lemma OneActionPutsBack(s: System, a: Action, rid: string)
    requires Enabled(s, a) && (rid in s.redis.res ==> s.redis.res[rid].status != Status.Confirmed)
    ensures var now := if a == Release(rid) then PutBack(s, rid) else (0, 0);
            now.0 == now.1 == ReleasedQuantity(Step(s, a), rid) - ReleasedQuantity(s, rid)
    ensures rid in Step(s, a).redis.res ==> Step(s, a).redis.res[rid].status != Status.Confirmed
  {
  }

  lemma {:induction false} PutBackAdds(s: System, actions: seq<Action>, rid: string)
    requires Legal(s, actions) && (rid in s.redis.res ==> s.redis.res[rid].status != Status.Confirmed)
    ensures var back := AllPutBack(s, actions, rid);
            back.0 == back.1 == ReleasedQuantity(Final(s, actions), rid) - ReleasedQuantity(s, rid)
    decreases |actions|
  {
    if actions != [] {
      OneActionPutsBack(s, actions[0], rid);
      hide Step, PutBack, ReleasedQuantity, Enabled;
      PutBackAdds(Step(s, actions[0]), actions[1..], rid);
    }
  }

  /** In every run all the releases of a reservation together put its quantity back exactly once, to
      the total and to the bucket it came from, if there was one while it was live, and nothing
      otherwise. */
  lemma ReturnedExactlyOnce(actions: seq<Action>, rid: string)
    requires Legal(START, actions)
    ensures var s, back := Final(START, actions), AllPutBack(START, actions, rid);
            && back == (ReleasedQuantity(s, rid), ReleasedQuantity(s, rid))
            && (rid in s.redis.res ==>
                  var v := s.redis.res[rid];
                  exists k :: 0 <= k < |s.holds| && s.holds[k] == Hold(v.product, v.bucket, v.quantity, Created(rid)))
  {
    PutBackAdds(START, actions, rid);
    InvForever(START, actions);
    var s := Final(START, actions);
    if rid in s.redis.res {
      var k := HoldOf(s, rid);
    }
  }

  // ---- The store ----

  class Store {
    var total: map<string, int>
    var bucket: map<(string, int), int>
    var res: map<string, Reservation>
    // The fingerprint hash that picks the first bucket to try.
    const hashFP: string -> nat

    ghost function State(): Redis
      reads this
    {
      Redis(total, bucket, res)
    }

    constructor (hashFP: string -> nat)
      ensures State() == START.redis && this.hashFP == hashFP
    {
      total, bucket, res := map[], map[], map[];
      this.hashFP := hashFP;
    }

    method InitProduct(pid: string, totalStock: int, bucketCount: int)
      requires bucketCount != 0
      modifies this
      ensures State() == InitStep(old(State()), pid, totalStock, bucketCount)
    {
      total := total[pid := totalStock];
      var base := Quotient(totalStock, bucketCount);
      var rem := Remainder(totalStock, bucketCount);
      if bucketCount < 0 {
        return;
      }
      ghost var shares := Shares(totalStock, bucketCount);
      for i := 0 to bucketCount
        invariant total == old(total)[pid := totalStock] && res == old(res)
        invariant bucket == SetBuckets(old(bucket), pid, shares[..i])
      {
        var q := base;
        if i < rem {
          q := q + 1;
        }
        assert shares[..i + 1][..i] == shares[..i];
        bucket := bucket[(pid, i) := q];
      }
      assert shares[..bucketCount] == shares;
    }

    function ReadTotal(pid: string): int
      reads this
    {
      if pid in total then total[pid] else 0
    }

    function ReadBucket(pid: string, i: int): int
      reads this
    {
      if (pid, i) in bucket then bucket[(pid, i)] else 0
    }

    method IncrBy(pid: string, i: int, amount: int)
      modifies this
      ensures State() == Move(old(State()), pid, i, amount)
      ensures Total(State(), pid) == Total(old(State()), pid) + amount
    {
      bucket := bucket[(pid, i) := ReadBucket(pid, i) + amount];
      total := total[pid := ReadTotal(pid) + amount];
    }

    method BucketDecr(pid: string, qty: int, n: nat, start: nat) returns (code: int, remaining: int)
      requires start < n
      modifies this
      ensures (State(), code) == ReserveStep(old(State()), pid, qty, start, n)
      ensures remaining == Total(State(), pid)
    {
      var t := ReadTotal(pid);
      if t < qty {
        return -2, t;
      }
      hide Move;
      for i := 0 to n
        invariant State() == old(State()) && t == Total(State(), pid)
        invariant FirstProbe(State(), pid, qty, start, 0, n) == FirstProbe(State(), pid, qty, start, i, n)
      {
        var idx := (start + i) % n;
        ProbeIsModulo(start, i, n);
        var v := ReadBucket(pid, idx);
        if v >= qty {
          IncrBy(pid, idx, -qty);
          return idx, t - qty;
        }
      }
      return -3, t;
    }

    method ReserveStock(pid: string, deviceFP: string, qty: int, numBuckets: nat) returns (code: int, remaining: int)
      requires numBuckets > 0
      modifies this
      ensures (State(), code) == ReserveStep(old(State()), pid, qty, hashFP(deviceFP) % numBuckets, numBuckets)
      ensures remaining == Total(State(), pid)
    {
      var primary := hashFP(deviceFP) % numBuckets;
      code, remaining := BucketDecr(pid, qty, numBuckets, primary);
    }

    method CreateReservation(pid: string, rid: string, qty: int, bucketIdx: int)
      modifies this
      ensures State() == CreateStep(old(State()), rid, pid, qty, bucketIdx)
    {
      res := res[rid := Reservation(pid, qty, bucketIdx, Reserved)];
    }

    // False stands for the "not found" error.
    method ReleaseReservation(rid: string) returns (found: bool)
      modifies this
      ensures State() == ReleaseStep(old(State()), rid).0
      ensures found <==> ReleaseStep(old(State()), rid).1 == 1
      ensures found <==> rid in old(res)
    {
      if rid !in res {
        return false;
      }
      var v := res[rid];
      if v.status == Released || v.status == Confirmed {
        return true;
      }
      res := res[rid := v.(status := Released)];
      IncrBy(v.product, v.bucket, v.quantity);
      return true;
    }
  }
}
