/** A key-value store split over shards by a consistent-hash ring behaves like one map. */
module KeyValueStore {
  import opened ConsistentHash

  // ---- One map ----

  datatype Request = Get(key: string) | Put(key: string, value: string) | Delete(key: string)

  datatype Answer = Found(value: string) | NotFound | Done

  type Data = map<string, string>

  function Serve(m: Data, r: Request): (Data, Answer) {
    match r
    case Get(k) => (m, if k in m then Found(m[k]) else NotFound)
    case Put(k, v) => (m[k := v], Done)
    case Delete(k) => (m - {k}, Done)
  }

  function Answers(m: Data, rs: seq<Request>): seq<Answer>
    decreases |rs|
  {
    if rs == [] then [] else [Serve(m, rs[0]).1] + Answers(Serve(m, rs[0]).0, rs[1..])
  }

  // Requests i, ..., j-1 neither store nor remove anything under k.
  ghost predicate Untouched(rs: seq<Request>, i: nat, j: nat, k: string) {
    forall n :: i <= n < j && n < |rs| && rs[n].key == k ==> rs[n].Get?
  }

  // The map after the first n requests.
  function After(m: Data, rs: seq<Request>, n: nat): Data
    requires n <= |rs|
  {
    if n == 0 then m else Serve(After(m, rs, n - 1), rs[n - 1]).0
  }

  lemma {:induction false} AnswerAt(m: Data, rs: seq<Request>, i: nat)
    requires i < |rs|
    ensures |Answers(m, rs)| == |rs| && Answers(m, rs)[i] == Serve(After(m, rs, i), rs[i]).1
    decreases |rs|
  {
    var m' := Serve(m, rs[0]).0;
    if |rs| > 1 {
      AnswerAt(m', rs[1..], if i > 0 then i - 1 else 0);
    }
    if i > 0 {
      AfterShift(m, rs, i - 1);
    }
  }

  lemma {:induction false} AfterShift(m: Data, rs: seq<Request>, n: nat)
    requires n < |rs|
    ensures After(m, rs, n + 1) == After(Serve(m, rs[0]).0, rs[1..], n)
  {
    if n > 0 {
      AfterShift(m, rs, n - 1);
    }
  }

  lemma {:induction false} StaysUntouched(m: Data, rs: seq<Request>, i: nat, j: nat, k: string)
    requires i <= j <= |rs| && Untouched(rs, i, j, k)
    ensures k in After(m, rs, j) <==> k in After(m, rs, i)
    ensures k in After(m, rs, j) ==> After(m, rs, j)[k] == After(m, rs, i)[k]
  {
    if i < j {
      StaysUntouched(m, rs, i, j - 1, k);
    }
  }

  /** A read answers with the last value stored under its key, and finds nothing when the key was removed
      since or never stored. Stores and removals are acknowledged. */
  lemma ReadsLastWrite(rs: seq<Request>, j: nat)
    requires j < |rs|
    ensures |Answers(map[], rs)| == |rs|
    ensures rs[j].Get? ==>
              && (forall i, v :: 0 <= i < j && rs[i] == Put(rs[j].key, v) && Untouched(rs, i + 1, j, rs[j].key) ==>
                    Answers(map[], rs)[j] == Found(v))
              && (forall i :: 0 <= i < j && rs[i] == Delete(rs[j].key) && Untouched(rs, i + 1, j, rs[j].key) ==>
                    Answers(map[], rs)[j] == NotFound)
              && (Untouched(rs, 0, j, rs[j].key) ==> Answers(map[], rs)[j] == NotFound)
    ensures !rs[j].Get? ==> Answers(map[], rs)[j] == Done
  {
    AnswerAt(map[], rs, j);
    var k := rs[j].key;
    forall i | 0 <= i <= j && Untouched(rs, i, j, k)
      ensures k in After(map[], rs, j) <==> k in After(map[], rs, i)
      ensures k in After(map[], rs, j) ==> After(map[], rs, j)[k] == After(map[], rs, i)[k]
    {
      StaysUntouched(map[], rs, i, j, k);
    }
    forall i | 0 <= i < j
      ensures After(map[], rs, i + 1) == Serve(After(map[], rs, i), rs[i]).0
    {
    }
    hide Answers, After;
  }

  // ---- Shards ----

  type Shards = map<string, Data>

  function ServeSharded(s: Shards, owner: string -> string, r: Request): (Shards, Answer)
    requires owner(r.key) in s
  {
    var n := owner(r.key);
    var (m, a) := Serve(s[n], r);
    (s[n := m], a)
  }

  ghost predicate Total(s: Shards, owner: string -> string) {
    forall k :: owner(k) in s
  }

  function ShardedAnswers(s: Shards, owner: string -> string, rs: seq<Request>): seq<Answer>
    requires Total(s, owner)
    decreases |rs|
  {
    if rs == [] then []
    else
      var (s', a) := ServeSharded(s, owner, rs[0]);
      [a] + ShardedAnswers(s', owner, rs[1..])
  }

  // Every stored key sits in the shard of its owner.
  ghost predicate Placed(s: Shards, owner: string -> string) {
    forall n, k :: n in s && k in s[n] ==> owner(k) == n
  }

  // The shards hold the same pairs as m.
  ghost predicate Holds(s: Shards, owner: string -> string, m: Data) {
    && (forall k :: k in m ==> owner(k) in s && k in s[owner(k)] && s[owner(k)][k] == m[k])
    && (forall n, k :: n in s && k in s[n] ==> k in m)
  }

  lemma ServeRefines(s: Shards, owner: string -> string, m: Data, r: Request)
    requires Total(s, owner) && Placed(s, owner) && Holds(s, owner, m)
    ensures var (s', a) := ServeSharded(s, owner, r);
            var (m', b) := Serve(m, r);
            Total(s', owner) && Placed(s', owner) && Holds(s', owner, m') && a == b
  {
    var n := owner(r.key);
    assert r.key in m <==> r.key in s[n];
  }

  /** Every sequence of requests gets the same answers from the shards as from one map. */
  lemma {:induction false} SameAnswers(s: Shards, owner: string -> string, m: Data, rs: seq<Request>)
    requires Total(s, owner) && Placed(s, owner) && Holds(s, owner, m)
    ensures ShardedAnswers(s, owner, rs) == Answers(m, rs)
    decreases |rs|
  {
    if rs != [] {
      ServeRefines(s, owner, m, rs[0]);
      hide Total, Placed, Holds;
      SameAnswers(ServeSharded(s, owner, rs[0]).0, owner, Serve(m, rs[0]).0, rs[1..]);
    }
  }

  /** Requests for one key leave every other key's answer alone, whichever shards are involved. */
  lemma OtherKeysUnchanged(s: Shards, owner: string -> string, r: Request, k: string)
    requires Total(s, owner) && k != r.key
    ensures ServeSharded(ServeSharded(s, owner, r).0, owner, Get(k)).1 == ServeSharded(s, owner, Get(k)).1
  {
  }

  // ---- The objects ----

  class MemoryStore {
    var data: Data

    constructor ()
      ensures data == map[]
    {
      data := map[];
    }

    method Get(key: string) returns (r: Answer)
      ensures r == Serve(data, Request.Get(key)).1
      ensures r == if key in data then Found(data[key]) else NotFound
    {
      if key !in data {
        return NotFound;
      }
      r := Found(data[key]);
    }

    method Put(key: string, value: string)
      modifies this
      ensures data == Serve(old(data), Request.Put(key, value)).0 == old(data)[key := value]
    {
      data := data[key := value];
    }

    method Delete(key: string)
      modifies this
      ensures data == Serve(old(data), Request.Delete(key)).0 && key !in data
      ensures forall k :: k != key ==> (k in data <==> k in old(data)) && (k in data ==> data[k] == old(data)[k])
    {
      data := data - {key};
    }
  }

  class Manager {
    const ring: HashRing
    var shards: map<string, MemoryStore>

    ghost predicate Valid()
      reads this, ring, shards.Values
    {
      && ring.Valid()
      && (forall h :: h in ring.hashMap ==> ring.hashMap[h] in shards)
      && (forall n, n' :: n in shards && n' in shards && n != n' ==> shards[n] != shards[n'])
      && Placed(Contents(), Owners())
    }

    ghost function Contents(): Shards
      reads this, shards.Values
    {
      map n | n in shards :: shards[n].data
    }

    // The owner of each key, as a function of the ring's value.
    static ghost function OwnersIn(r: Ring, crc: Checksum): string -> string {
      key => if r.keys != [] && forall k :: k in r.keys ==> k in r.owners then Owner(r, crc(key)) else ""
    }

    ghost function Owners(): string -> string
      reads ring
    {
      OwnersIn(ring.State(), ring.crc)
    }

    ghost predicate Empty()
      reads this, shards.Values
    {
      forall n :: n in shards ==> shards[n].data == map[]
    }

    constructor (nodes: seq<string>, crc: Checksum)
      ensures Valid() && ring.crc == crc && ring.replicas == 150 && (ring.keys != [] <==> nodes != [])
      ensures shards.Keys == set n | n in nodes
      ensures Empty()
      ensures fresh(ring) && fresh(shards.Values)
    {
      hide WellFormed, AddNode;
      var ring := new HashRing(150, crc);
      var shards: map<string, MemoryStore> := map[];
      for i := 0 to |nodes|
        invariant fresh(ring) && ring.Valid() && ring.crc == crc && ring.replicas == 150
        invariant ring.keys != [] <==> i > 0
        invariant fresh(shards.Values) && shards.Keys == set n | n in nodes[..i]
        invariant forall h :: h in ring.hashMap ==> ring.hashMap[h] in shards
        invariant forall n, n' :: n in shards && n' in shards && n != n' ==> shards[n] != shards[n']
        invariant forall n :: n in shards ==> shards[n].data == map[]
      {
        var n := nodes[i];
        AddNodeTo(ring, n);
        var store := new MemoryStore();
        ghost var was := shards;
        shards := shards[n := store];
        assert shards.Values <= was.Values + {store};
        assert nodes[..i + 1] == nodes[..i] + [n];
      }
      assert nodes[..|nodes|] == nodes;
      this.ring := ring;
      this.shards := shards;
    }

    static method AddNodeTo(ring: HashRing, node: string)
      requires ring.Valid() && ring.replicas > 0
      modifies ring
      ensures ring.Valid() && ring.keys != []
      ensures forall h :: h in ring.hashMap ==>
                            ring.hashMap[h] == node
                                || (h in old(ring.hashMap) && ring.hashMap[h] == old(ring.hashMap)[h])
    {
      ghost var before, points := ring.State(), PointsOf(ring.crc, ring.replicas, node);
      ring.Add(node);
      AddKeys(before, points, node);
      assert points[0] in points;
    }

    // Without a node the ring panics, here and in the three operations.
    method GetShard(key: string) returns (store: MemoryStore)
      requires Valid() && ring.keys != []
      ensures var n := Owners()(key);
              n in shards && store == shards[n]
    {
      var node := ring.Get(key);
      var h := LinearScan(ring.keys, ring.crc(key));
      assert h in ring.hashMap;
      store := shards[node.value];
    }

    method Get(key: string) returns (r: Answer)
      requires Valid() && ring.keys != []
      ensures Total(Contents(), Owners())
      ensures r == ServeSharded(Contents(), Owners(), Request.Get(key)).1
    {
      AllOwned();
      var store := GetShard(key);
      r := store.Get(key);
    }

    method Put(key: string, value: string)
      requires Valid() && ring.keys != []
      modifies shards.Values
      ensures Valid() && ring.State() == old(ring.State())
      ensures old(Total(Contents(), Owners()))
      ensures Contents() == old(ServeSharded(Contents(), Owners(), Request.Put(key, value)).0)
    {
      AllOwned();
      var store := GetShard(key);
      store.Put(key, value);
    }

    method Delete(key: string)
      requires Valid() && ring.keys != []
      modifies shards.Values
      ensures Valid() && ring.State() == old(ring.State())
      ensures old(Total(Contents(), Owners()))
      ensures Contents() == old(ServeSharded(Contents(), Owners(), Request.Delete(key)).0)
    {
      AllOwned();
      var store := GetShard(key);
      store.Delete(key);
    }

    // One request.
    method Handle(r: Request) returns (a: Answer)
      requires Valid() && ring.keys != []
      modifies shards.Values
      ensures Valid() && ring.State() == old(ring.State())
      ensures old(Total(Contents(), Owners()))
      ensures (Contents(), a) == old(ServeSharded(Contents(), Owners(), r))
    {
      AllOwned();
      match r
      case Get(k) =>
        a := Get(k);
        assert Contents() == old(ServeSharded(Contents(), Owners(), r).0);
      case Put(k, v) =>
        Put(k, v);
        a := Done;
      case Delete(k) =>
        Delete(k);
        a := Done;
    }

    // Any sequence of requests.
    method ServeAll(rs: seq<Request>, ghost m: Data) returns (answers: seq<Answer>)
      requires Valid() && ring.keys != [] && Holds(Contents(), Owners(), m)
      modifies shards.Values
      ensures Valid() && answers == Answers(m, rs)
    {
      hide Serve, Placed, Total, Holds;
      answers := [];
      ghost var now := m;
      for i := 0 to |rs|
        invariant Valid() && ring.keys != [] && Holds(Contents(), Owners(), now)
        invariant answers + Answers(now, rs[i..]) == Answers(m, rs)
      {
        AllOwned();
        ServeRefines(Contents(), Owners(), now, rs[i]);
        var a := Handle(rs[i]);
        now := Serve(now, rs[i]).0;
        answers := answers + [a];
      }
    }

    lemma AllOwned()
      requires Valid() && ring.keys != []
      ensures Total(Contents(), Owners())
    {
      hide Placed, LinearScan;
      forall k
        ensures Owners()(k) in Contents()
      {
        var h := LinearScan(ring.keys, ring.crc(k));
        assert h in ring.keys && h in ring.hashMap;
        assert Owners()(k) == ring.hashMap[h];
      }
    }
  }

  /** From a new manager, for any nodes and any checksum, every sequence of requests gets the answers
      of one empty map. */
  method ServeFromNew(nodes: seq<string>, crc: Checksum, rs: seq<Request>) returns (answers: seq<Answer>)
    requires nodes != []
    ensures answers == Answers(map[], rs)
  {
    var manager := new Manager(nodes, crc);
    answers := manager.ServeAll(rs, map[]);
  }
}
