/** A consistent-hash ring with virtual nodes. The checksum is an arbitrary function of strings, so
    every result holds however points collide. */
module ConsistentHash {
  import opened Collections
  import opened Sorting

  type Checksum = string -> int

  // Decimal digits of n, as strconv.Itoa.
  function Itoa(n: nat): string {
    if n < 10 then [Digit(n)] else Itoa(n / 10) + [Digit(n % 10)]
  }

  function Digit(d: nat): char
    requires d < 10
  {
    "0123456789"[d]
  }

  // The number a string of decimal digits stands for.
  function Value(s: string): int {
    if s == [] then 0 else Value(s[..|s| - 1]) * 10 + (s[|s| - 1] as int - '0' as int)
  }

  /** The digits of n stand for n, without a leading zero: so different numbers have different digits. */
  lemma {:induction false} ItoaIsDecimal(n: nat)
    ensures Value(Itoa(n)) == n && Itoa(n) != []
    ensures forall i :: 0 <= i < |Itoa(n)| ==> '0' <= Itoa(n)[i] <= '9'
    ensures n > 0 ==> Itoa(n)[0] != '0'
  {
    DigitValue(n % 10);
    if n >= 10 {
      ItoaIsDecimal(n / 10);
      assert Itoa(n)[..|Itoa(n)| - 1] == Itoa(n / 10);
    }
  }

  lemma DigitValue(d: nat)
    requires d < 10
    ensures Digit(d) as int == '0' as int + d && Value([Digit(d)]) == d
    ensures '0' <= Digit(d) <= '9' && (d > 0 ==> Digit(d) != '0')
  {
    assert Value([Digit(d)][..0]) == 0;
  }

  // The ring positions of a node's replicas.
  function PointsOf(crc: Checksum, replicas: nat, node: string): (p: seq<int>)
    ensures |p| == replicas
  {
    seq(replicas, i requires 0 <= i < replicas => crc(Itoa(i) + node))
  }

  // ---- The ring as a value ----

  datatype Ring = Ring(keys: seq<int>, owners: map<int, string>)

  const EMPTY := Ring([], map[])

  // The keys that still have an owner, in their order.
  function Kept(keys: seq<int>, owners: map<int, string>): (r: seq<int>)
    ensures forall k :: k in r <==> k in keys && k in owners
  {
    if keys == [] then []
    else if keys[|keys| - 1] in owners then Kept(keys[..|keys| - 1], owners) + [keys[|keys| - 1]]
    else Kept(keys[..|keys| - 1], owners)
  }

  function PointSet(points: seq<int>): (s: set<int>)
    ensures forall h :: h in s <==> h in points
  {
    set h | h in points
  }

  function Claimed(points: seq<int>, node: string): (m: map<int, string>)
    ensures m.Keys == PointSet(points) && forall h :: h in m ==> m[h] == node
  {
    map h | h in points :: node
  }

  function AddNode(r: Ring, points: seq<int>, node: string): Ring {
    Ring(Sort(r.keys + points), r.owners + Claimed(points, node))
  }

  function RemovePoints(r: Ring, points: seq<int>): Ring {
    var owners := r.owners - PointSet(points);
    Ring(Sort(Kept(r.keys, owners)), owners)
  }

  // Every key has an owner, every owned position is a key and one of its owner's own points.
  ghost predicate WellFormed(r: Ring, crc: Checksum, replicas: nat) {
    && Sorted(r.keys)
    && (forall k :: k in r.keys <==> k in r.owners)
    && (forall k :: k in r.owners ==> k in PointsOf(crc, replicas, r.owners[k]))
  }

  // The first key at or after h, else the first key: walking the ring clockwise.
  function LinearScan(keys: seq<int>, h: int): (k: int)
    requires keys != []
    ensures k in keys
  {
    if exists i :: 0 <= i < |keys| && keys[i] >= h then FirstFrom(keys, h) else keys[0]
  }

  function FirstFrom(keys: seq<int>, h: int): (k: int)
    requires exists i :: 0 <= i < |keys| && keys[i] >= h
    ensures k in keys && k >= h
  {
    if keys[0] >= h then keys[0] else FirstFrom(keys[1..], h)
  }

  function Owner(r: Ring, h: int): string
    requires r.keys != [] && forall k :: k in r.keys ==> k in r.owners
  {
    r.owners[LinearScan(r.keys, h)]
  }

  // ---- The clockwise successor, independently of any order of the keys ----

  ghost predicate IsSuccessor(keys: seq<int>, h: int, k: int) {
    && k in keys
    && (forall x :: x in keys && x >= h ==> h <= k <= x)
    && ((forall x :: x in keys ==> x < h) ==> forall x :: x in keys ==> k <= x)
  }

  lemma {:induction false} FirstFromIsLeast(keys: seq<int>, h: int)
    requires Sorted(keys) && exists i :: 0 <= i < |keys| && keys[i] >= h
    ensures forall x :: x in keys && x >= h ==> FirstFrom(keys, h) <= x
  {
    if keys[0] < h {
      var i :| 0 <= i < |keys| && keys[i] >= h;
      assert keys[1..][i - 1] == keys[i];
      FirstFromIsLeast(keys[1..], h);
      assert keys == [keys[0]] + keys[1..];
    }
  }

  /** On sorted keys the scan finds the clockwise successor, and nothing else is one. */
  lemma ScanFindsSuccessor(keys: seq<int>, h: int, k: int)
    requires Sorted(keys) && keys != []
    ensures IsSuccessor(keys, h, k) <==> k == LinearScan(keys, h)
  {
    if exists i :: 0 <= i < |keys| && keys[i] >= h {
      FirstFromIsLeast(keys, h);
    }
  }

  // ---- Adding and removing nodes ----

  lemma AddKeys(r: Ring, points: seq<int>, node: string)
    ensures forall k :: k in AddNode(r, points, node).keys <==> k in r.keys || k in points
  {
    SortElements(r.keys + points);
    SameElements(AddNode(r, points, node).keys, r.keys + points);
  }

  lemma RemoveKeys(r: Ring, points: seq<int>)
    requires forall k :: k in r.keys <==> k in r.owners
    ensures forall k :: k in RemovePoints(r, points).keys <==> k in r.keys && k !in points
  {
    var owners := r.owners - PointSet(points);
    SortElements(Kept(r.keys, owners));
    SameElements(RemovePoints(r, points).keys, Kept(r.keys, owners));
  }

  lemma StepsStayWellFormed(r: Ring, crc: Checksum, replicas: nat, node: string)
    requires WellFormed(r, crc, replicas)
    ensures var points := PointsOf(crc, replicas, node);
            && WellFormed(AddNode(r, points, node), crc, replicas)
            && WellFormed(RemovePoints(r, points), crc, replicas)
  {
    AddKeys(r, PointsOf(crc, replicas, node), node);
    RemoveKeys(r, PointsOf(crc, replicas, node));
  }

  /** Adding a node changes the owner of a position only to that node, even when its points
      collide with others: exactly the positions whose new successor is one of its points. */
  lemma AddMovesOnlyToNode(r: Ring, crc: Checksum, replicas: nat, node: string, h: int)
    requires WellFormed(r, crc, replicas) && r.keys != []
    ensures var r' := AddNode(r, PointsOf(crc, replicas, node), node);
            && r'.keys != [] && WellFormed(r', crc, replicas)
            && Owner(r', h) == if LinearScan(r'.keys, h) in PointsOf(crc, replicas, node) then node else Owner(r, h)
  {
    var points := PointsOf(crc, replicas, node);
    var r' := AddNode(r, points, node);
    StepsStayWellFormed(r, crc, replicas, node);
    AddKeys(r, points, node);
    assert r.keys[0] in r'.keys;
    var k := LinearScan(r'.keys, h);
    ScanFindsSuccessor(r'.keys, h, k);
    if k !in points {
      ScanFindsSuccessor(r.keys, h, k);
    }
  }

  /** After removing a node nothing belongs to it. */
  lemma RemoveForgetsNode(r: Ring, crc: Checksum, replicas: nat, node: string, h: int)
    requires WellFormed(r, crc, replicas)
    ensures var r' := RemovePoints(r, PointsOf(crc, replicas, node));
            && WellFormed(r', crc, replicas) && node !in r'.owners.Values
            && (r'.keys != [] ==> Owner(r', h) != node)
  {
    StepsStayWellFormed(r, crc, replicas, node);
    RemoveKeys(r, PointsOf(crc, replicas, node));
  }

  /** The only positions that a removal can move are those whose successor was a point of the node. */
  lemma RemoveMovesOnlyFromPoints(r: Ring, crc: Checksum, replicas: nat, node: string, h: int)
    requires WellFormed(r, crc, replicas) && r.keys != []
    requires LinearScan(r.keys, h) !in PointsOf(crc, replicas, node)
    ensures var r' := RemovePoints(r, PointsOf(crc, replicas, node));
            r'.keys != [] && WellFormed(r', crc, replicas) && Owner(r', h) == Owner(r, h)
  {
    var points, k := PointsOf(crc, replicas, node), LinearScan(r.keys, h);
    var r' := RemovePoints(r, points);
    StepsStayWellFormed(r, crc, replicas, node);
    RemoveKeys(r, points);
    assert k in r'.keys;
    ScanFindsSuccessor(r.keys, h, k);
    hide RemovePoints, PointsOf;
    assert IsSuccessor(r'.keys, h, k);
    ScanFindsSuccessor(r'.keys, h, k);
    hide LinearScan;
    assert r'.owners[k] == r.owners[k];
  }

  lemma {:induction false} KeptOfSplit(keys: seq<int>, more: seq<int>, owners: map<int, string>)
    ensures multiset(Kept(keys + more, owners)) == multiset(Kept(keys, owners)) + multiset(Kept(more, owners))
  {
    if more == [] {
      assert keys + more == keys;
    } else {
      var last := |more| - 1;
      assert (keys + more)[..|keys| + last] == keys + more[..last];
      KeptOfSplit(keys, more[..last], owners);
    }
  }

  lemma {:induction false} KeptOfPermutation(keys: seq<int>, other: seq<int>, owners: map<int, string>)
    requires multiset(keys) == multiset(other)
    ensures multiset(Kept(keys, owners)) == multiset(Kept(other, owners))
    decreases |keys|
  {
    SameElements(keys, other);
    if keys != [] {
      var n := |keys| - 1;
      var x := keys[n];
      assert x in other;
      var i :| 0 <= i < |other| && other[i] == x;
      assert keys == keys[..n] + [x];
      assert other == other[..i] + ([x] + other[i + 1..]);
      assert multiset(other) == multiset{x} + multiset(other[..i] + other[i + 1..]);
      assert multiset(keys) == multiset{x} + multiset(keys[..n]);
      CancelElement(multiset(keys[..n]), multiset(other[..i] + other[i + 1..]), x);
      KeptOfPermutation(keys[..n], other[..i] + other[i + 1..], owners);
      KeptOfSplit(other[..i], [x] + other[i + 1..], owners);
      KeptOfSplit([x], other[i + 1..], owners);
      KeptOfSplit(other[..i], other[i + 1..], owners);
      KeptOfSplit(keys[..n], [x], owners);
    }
  }

  lemma {:induction false} KeptAll(keys: seq<int>, owners: map<int, string>)
    requires forall k :: k in keys ==> k in owners
    ensures Kept(keys, owners) == keys
  {
    if keys == [] {
      assert Kept(keys, owners) == [];
    } else {
      var n := |keys| - 1;
      assert keys[n] in keys && forall k :: k in keys[..n] ==> k in keys;
      KeptAll(keys[..n], owners);
      assert keys == keys[..n] + [keys[n]];
      var last := keys[n];
      assert last in owners;
      assert Kept(keys, owners) == Kept(keys[..n], owners) + [last];
    }
  }

  lemma {:induction false} KeptNone(keys: seq<int>, owners: map<int, string>)
    requires forall k :: k in keys ==> k !in owners
    ensures Kept(keys, owners) == []
  {
    if keys != [] {
      var last := keys[|keys| - 1];
      assert last !in owners;
      KeptNone(keys[..|keys| - 1], owners);
    }
  }

  /** Removing a node right after adding it restores the ring exactly when none of its points was
      on the ring before. */
  lemma RemoveUndoesAddIff(r: Ring, crc: Checksum, replicas: nat, node: string)
    requires WellFormed(r, crc, replicas)
    ensures var points := PointsOf(crc, replicas, node);
            RemovePoints(AddNode(r, points, node), points) == r <==> forall h :: h in points ==> h !in r.keys
  {
    var points := PointsOf(crc, replicas, node);
    if forall h :: h in points ==> h !in r.keys {
      RemoveUndoesAdd(r, points, node);
    } else {
      var h :| h in points && h in r.keys;
      assert h !in RemovePoints(AddNode(r, points, node), points).owners && h in r.owners;
    }
  }

  lemma RemoveUndoesAdd(r: Ring, points: seq<int>, node: string)
    requires Sorted(r.keys) && forall k :: k in r.keys <==> k in r.owners
    requires forall h :: h in points ==> h !in r.keys
    ensures RemovePoints(AddNode(r, points, node), points) == r
  {
    var owners := r.owners + Claimed(points, node) - PointSet(points);
    forall h | h in r.owners
      ensures h !in points
    {
      assert h in r.keys;
    }
    assert owners == r.owners;
    var added := Sort(r.keys + points);
    SortElements(r.keys + points);
    KeptOfPermutation(added, r.keys + points, owners);
    KeptOfSplit(r.keys, points, owners);
    KeptAll(r.keys, owners);
    KeptNone(points, owners);
    SortElements(Kept(added, owners));
    hide Kept, Sort, Claimed, PointSet;
    SortedUnique(Sort(Kept(added, owners)), r.keys);
  }

  // h is where one of the node's replicas goes.
  ghost predicate PointOf(crc: Checksum, replicas: nat, node: string, h: int) {
    exists i: nat :: i < replicas && h == crc(Itoa(i) + node)
  }

  lemma PointsAre(crc: Checksum, replicas: nat, node: string)
    ensures forall h :: h in PointsOf(crc, replicas, node) <==> PointOf(crc, replicas, node, h)
  {
    var points := PointsOf(crc, replicas, node);
    forall h | PointOf(crc, replicas, node, h)
      ensures h in points
    {
      var i: nat :| i < replicas && h == crc(Itoa(i) + node);
      assert points[i] == h;
    }
  }

  /** Adding gives the node the positions of all its replicas and leaves all other positions alone; removing
      clears exactly these positions. An addition adds one key for each replica. */
  lemma PositionsChange(r: Ring, crc: Checksum, replicas: nat, node: string)
    ensures var a := AddNode(r, PointsOf(crc, replicas, node), node);
            && |a.keys| == |r.keys| + replicas
            && (forall h :: h in a.owners <==> h in r.owners || PointOf(crc, replicas, node, h))
            && (forall h :: h in a.owners ==>
                              a.owners[h] == if PointOf(crc, replicas, node, h) then node else r.owners[h])
    ensures var d := RemovePoints(r, PointsOf(crc, replicas, node));
            && (forall h :: h in d.owners <==> h in r.owners && !PointOf(crc, replicas, node, h))
            && (forall h :: h in d.owners ==> d.owners[h] == r.owners[h])
  {
    PointsAre(crc, replicas, node);
    SortElements(r.keys + PointsOf(crc, replicas, node));
    assert |multiset(r.keys + PointsOf(crc, replicas, node))| == |r.keys| + replicas;
    hide PointOf, Sort, Kept;
  }

  // ---- Runs ----

  datatype Op = Add(node: string) | Remove(node: string)

  function Run(ops: seq<Op>, crc: Checksum, replicas: nat): Ring {
    if ops == [] then EMPTY
    else
      var r, op := Run(ops[..|ops| - 1], crc, replicas), ops[|ops| - 1];
      if op.Add? then AddNode(r, PointsOf(crc, replicas, op.node), op.node)
      else RemovePoints(r, PointsOf(crc, replicas, op.node))
  }

  /** Every ring that adding and removing nodes can produce is well formed. */
  lemma {:induction false} RunsStayWellFormed(ops: seq<Op>, crc: Checksum, replicas: nat)
    ensures WellFormed(Run(ops, crc, replicas), crc, replicas)
  {
    if ops != [] {
      RunsStayWellFormed(ops[..|ops| - 1], crc, replicas);
      StepsStayWellFormed(Run(ops[..|ops| - 1], crc, replicas), crc, replicas, ops[|ops| - 1].node);
    }
  }

  // No operation from the i-th on is about a node with a point at h.
  ghost predicate Untouched(ops: seq<Op>, i: nat, crc: Checksum, replicas: nat, h: int) {
    forall j :: i <= j < |ops| ==> !PointOf(crc, replicas, ops[j].node, h)
  }

  /** In every run of additions and removals a position belongs to the node of the last operation that is
      about it, if that is an addition, and to nobody if it is a removal or there is none. */
  lemma {:induction false} LastOperationDecides(ops: seq<Op>, crc: Checksum, replicas: nat, h: int, i: nat)
    requires i <= |ops| && Untouched(ops, i, crc, replicas, h)
    ensures var owners := Run(ops, crc, replicas).owners;
            && (i == 0 ==> h !in owners)
            && (i > 0 && PointOf(crc, replicas, ops[i - 1].node, h) ==>
                  if ops[i - 1].Add? then h in owners && owners[h] == ops[i - 1].node else h !in owners)
  {
    hide PointOf, AddNode, RemovePoints;
    if ops != [] {
      var n := |ops| - 1;
      PositionsChange(Run(ops[..n], crc, replicas), crc, replicas, ops[n].node);
      if i <= n {
        LastOperationDecides(ops[..n], crc, replicas, h, i);
      }
    }
  }

  // ---- The ring object ----

  lemma Claim(owners: map<int, string>, points: seq<int>, i: nat, node: string)
    requires i < |points|
    ensures (owners + Claimed(points[..i], node))[points[i] := node] == owners + Claimed(points[..i + 1], node)
  {
  }

  lemma NothingClaimed(owners: map<int, string>, points: seq<int>, node: string)
    requires points == []
    ensures owners + Claimed(points, node) == owners
  {
  }

  lemma Disclaim(owners: map<int, string>, points: seq<int>, i: nat)
    requires i < |points|
    ensures owners - PointSet(points[..i]) - {points[i]} == owners - PointSet(points[..i + 1])
  {
  }

  class HashRing {
    const replicas: nat
    const crc: Checksum
    var keys: seq<int>
    var hashMap: map<int, string>

    ghost function State(): Ring
      reads this
    {
      Ring(keys, hashMap)
    }

    ghost predicate Valid()
      reads this
    {
      WellFormed(State(), crc, replicas)
    }

    constructor (replicas: int, crc: Checksum)
      ensures Valid() && State() == EMPTY && this.crc == crc
      ensures this.replicas == if replicas <= 0 then 150 else replicas
    {
      this.replicas := if replicas <= 0 then 150 else replicas;
      this.crc := crc;
      keys, hashMap := [], map[];
    }

    method Add(node: string)
      requires Valid()
      modifies this
      ensures Valid() && State() == AddNode(old(State()), PointsOf(crc, replicas, node), node)
    {
      StepsStayWellFormed(State(), crc, replicas, node);
      hide WellFormed, PointsOf, PointSet, Claimed;
      AppendPoints(node);
      keys := Sort(keys);
    }

    method AppendPoints(node: string)
      modifies this
      ensures keys == old(keys) + PointsOf(crc, replicas, node)
      ensures hashMap == old(hashMap) + Claimed(PointsOf(crc, replicas, node), node)
    {
      ghost var points := PointsOf(crc, replicas, node);
      hide PointSet, Claimed;
      NothingClaimed(hashMap, points[..0], node);
      for i := 0 to replicas
        invariant keys == old(keys) + points[..i]
        invariant hashMap == old(hashMap) + Claimed(points[..i], node)
      {
        var hash := crc(Itoa(i) + node);
        Claim(old(hashMap), points, i, node);
        keys := keys + [hash];
        hashMap := hashMap[hash := node];
      }
      assert points[..replicas] == points;
    }

    method Remove(node: string)
      requires Valid()
      modifies this
      ensures Valid() && State() == RemovePoints(old(State()), PointsOf(crc, replicas, node))
    {
      ghost var points := PointsOf(crc, replicas, node);
      StepsStayWellFormed(State(), crc, replicas, node);
      hide WellFormed, PointsOf, AddNode, RemovePoints, PointSet, Claimed;
      for i := 0 to replicas
        invariant keys == old(keys)
        invariant hashMap == old(hashMap) - PointSet(points[..i])
      {
        var hash := crc(Itoa(i) + node);
        Disclaim(old(hashMap), points, i);
        hashMap := hashMap - {hash};
      }
      assert points[..replicas] == points;
      var newKeys := Survivors();
      keys := Sort(newKeys);
    }

    method Survivors() returns (newKeys: seq<int>)
      ensures newKeys == Kept(keys, hashMap)
    {
      newKeys := [];
      for j := 0 to |keys|
        invariant newKeys == Kept(keys[..j], hashMap)
      {
        assert keys[..j + 1][..j] == keys[..j];
        if keys[j] in hashMap {
          newKeys := newKeys + [keys[j]];
        }
      }
      assert keys[..|keys|] == keys;
    }

    // None stands for the panic on an empty ring.
    method Get(key: string) returns (node: Option<string>)
      requires Valid()
      ensures node.None? <==> keys == []
      ensures keys != [] ==> node == Some(Owner(State(), crc(key)))
    {
      if |keys| == 0 {
        return None;
      }
      var hash := crc(key);
      var lo, hi := 0, |keys|;
      while lo < hi
        invariant 0 <= lo <= hi <= |keys|
        invariant forall i :: 0 <= i < lo ==> keys[i] < hash
        invariant forall i :: hi <= i < |keys| ==> keys[i] >= hash
      {
        var mid := (lo + hi) / 2;
        if keys[mid] >= hash {
          hi := mid;
        } else {
          lo := mid + 1;
        }
      }
      var idx := lo;
      if idx == |keys| {
        idx := 0;
      }
      ScanFindsSuccessor(keys, hash, keys[idx]);
      assert keys[idx] in hashMap;
      node := Some(hashMap[keys[idx]]);
    }
  }
}
