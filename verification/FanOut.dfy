/** Fan-out of one order's events to its subscribers: a bounded pipe, one consumer, and a bounded
    buffer for each subscriber. Channel operations and lock-protected sections are the steps. */
module FanOut {
  import opened Collections

  const PIPE_CAPACITY: nat := 64

  // `received` is what the reader has taken from the buffer. `since` and `until` are history: the
  // number of events consumed when the subscriber was added and when it was removed or replaced.
  datatype Subscriber<E> = Subscriber(
    id: string, capacity: nat, buffer: seq<E>, received: seq<E>, dropped: nat, closes: nat, since: nat,
    until: Option<nat>)

  // Where the consumer is: at the channel, on its way to the lock, or handing an event round.
  datatype Consumer<E> = Waiting | Holding(e: E) | Delivering(e: E, todo: set<string>) | Finished

  // `members` are all subscribers there ever were, `subscribers` maps ids to those in place.
  // `published`, `accepted` and `consumed` are history: events offered to the pipe, events it took
  // in, and events handed round.
  datatype State<E> = State(
    events: seq<E>,
    closed: bool,
    consumer: Consumer<E>,
    subscribers: map<string, nat>,
    members: seq<Subscriber<E>>,
    published: seq<E>,
    accepted: seq<E>,
    consumed: seq<E>)

  function Start<E>(): State<E> {
    State([], false, Waiting, map[], [], [], [], [])
  }

  datatype Action<E> =
    | Publish(e: E)
    | Subscribe(id: string, capacity: nat)
    | Unsubscribe(id: string)
    | Receive(member: nat)
    | Take
    | Lock
    | Deliver(id: string)
    | Unlock
    | Close
    | Finish

  // Publishing to a closed pipe is not allowed. The consumer holds the lock while it delivers, so
  // nobody can be added or removed then.
  ghost predicate Enabled<E>(s: State<E>, a: Action<E>) {
    match a
    case Publish(_) => !s.closed
    case Subscribe(_, _) => !s.consumer.Delivering?
    case Unsubscribe(_) => !s.consumer.Delivering?
    case Receive(m) => m < |s.members| && s.members[m].buffer != []
    case Take => s.consumer.Waiting? && s.events != []
    case Lock => s.consumer.Holding?
    case Deliver(id) => s.consumer.Delivering? && id in s.consumer.todo && Registered(s, id)
    case Unlock => s.consumer.Delivering? && s.consumer.todo == {}
    case Close => !s.closed
    case Finish => s.consumer.Waiting? && s.closed && s.events == []
  }

  predicate Registered<E>(s: State<E>, id: string) {
    id in s.subscribers && s.subscribers[id] < |s.members|
  }

  // Takes the member registered under id, if any, out of service.
  function Retire<E>(s: State<E>, id: string, closes: nat): seq<Subscriber<E>> {
    if Registered(s, id) then
      var m := s.members[s.subscribers[id]];
      s.members[s.subscribers[id] := m.(until := Some(|s.consumed|), closes := m.closes + closes)]
    else s.members
  }

  // A non-blocking send: the event is dropped when the buffer is full.
  function Push<E>(m: Subscriber<E>, e: E): Subscriber<E> {
    if |m.buffer| < m.capacity then m.(buffer := m.buffer + [e]) else m.(dropped := m.dropped + 1)
  }

  function Step<E>(s: State<E>, a: Action<E>): State<E>
    requires Enabled(s, a)
  {
    match a
    case Publish(e) =>
      var s' := s.(published := s.published + [e]);
      if |s.events| < PIPE_CAPACITY then s'.(events := s.events + [e], accepted := s.accepted + [e]) else s'
    case Subscribe(id, capacity) =>
      s.(members := Retire(s, id, 0) + [Subscriber(id, capacity, [], [], 0, 0, |s.consumed|, None)],
         subscribers := s.subscribers[id := |s.members|])
    case Unsubscribe(id) =>
      s.(members := Retire(s, id, 1), subscribers := s.subscribers - {id})
    case Receive(m) =>
      var sub := s.members[m];
      s.(members := s.members[m := sub.(received := sub.received + [sub.buffer[0]], buffer := sub.buffer[1..])])
    case Take =>
      s.(events := s.events[1..], consumer := Holding(s.events[0]))
    case Lock =>
      s.(consumer := Delivering(s.consumer.e, s.subscribers.Keys), consumed := s.consumed + [s.consumer.e])
    case Deliver(id) =>
      var h := s.subscribers[id];
      s.(members := s.members[h := Push(s.members[h], s.consumer.e)],
         consumer := Delivering(s.consumer.e, s.consumer.todo - {id}))
    case Unlock =>
      s.(consumer := Waiting)
    case Close =>
      s.(closed := true)
    case Finish =>
      s.(consumer := Finished, subscribers := map[],
         members := seq(|s.members|, i requires 0 <= i < |s.members| => Release(s, i)))
  }

  // What closing the pipe does to a member: those still in place are told to go.
  function Release<E>(s: State<E>, i: nat): Subscriber<E>
    requires i < |s.members|
  {
    var m := s.members[i];
    if m.id in s.subscribers && s.subscribers[m.id] == i then
      m.(until := Some(|s.consumed|), closes := m.closes + 1)
    else
      m
  }

  ghost predicate Legal<E>(s: State<E>, actions: seq<Action<E>>)
    decreases |actions|
  {
    actions != [] ==> Enabled(s, actions[0]) && Legal(Step(s, actions[0]), actions[1..])
  }

  ghost function Final<E>(s: State<E>, actions: seq<Action<E>>): State<E>
    requires Legal(s, actions)
    decreases |actions|
  {
    if actions == [] then s else Final(Step(s, actions[0]), actions[1..])
  }

  // ---- In-order, duplicate-free subsequences ----

  // s is t with some elements left out.
  ghost predicate Subsequence<E>(s: seq<E>, t: seq<E>)
    decreases |t|
  {
    || s == []
    || (t != [] && Subsequence(s, t[..|t| - 1]))
    || (t != [] && s[|s| - 1] == t[|t| - 1] && Subsequence(s[..|s| - 1], t[..|t| - 1]))
  }

  lemma SubsequenceTakes<E>(s: seq<E>, t: seq<E>, e: E)
    requires Subsequence(s, t)
    ensures Subsequence(s, t + [e]) && Subsequence(s + [e], t + [e])
  {
  }

  lemma {:induction false} SubsequenceSelf<E>(s: seq<E>)
    ensures Subsequence(s, s)
  {
    if s != [] {
      SubsequenceSelf(s[..|s| - 1]);
    }
  }

  lemma {:induction false} SubsequenceShorter<E>(s: seq<E>, t: seq<E>)
    requires Subsequence(s, t)
    ensures |s| <= |t| && (|s| == |t| ==> s == t)
    decreases |t|
  {
    if s != [] {
      var t' := t[..|t| - 1];
      if Subsequence(s, t') {
        SubsequenceShorter(s, t');
      } else {
        SubsequenceShorter(s[..|s| - 1], t');
        assert s == s[..|s| - 1] + [s[|s| - 1]] && t == t' + [t[|t| - 1]];
      }
    }
  }

  lemma {:induction false} SubsequenceTrans<E>(s: seq<E>, t: seq<E>, u: seq<E>)
    requires Subsequence(s, t) && Subsequence(t, u)
    ensures Subsequence(s, u)
    decreases |u|
  {
    if s != [] && t != [] {
      var u' := u[..|u| - 1];
      if Subsequence(t, u') {
        SubsequenceTrans(s, t, u');
      } else {
        var t' := t[..|t| - 1];
        if Subsequence(s, t') {
          SubsequenceTrans(s, t', u');
        } else {
          SubsequenceTrans(s[..|s| - 1], t', u');
        }
      }
    }
  }

  lemma {:induction false} SubsequenceSlice<E>(t: seq<E>, i: nat, j: nat)
    requires i <= j <= |t|
    ensures Subsequence(t[i..j], t)
    decreases |t|
  {
    if i < j {
      var t' := t[..|t| - 1];
      if j < |t| {
        assert t'[i..j] == t[i..j];
        SubsequenceSlice(t', i, j);
      } else {
        assert t'[i..j - 1] == t[i..j][..j - 1 - i];
        SubsequenceSlice(t', i, j - 1);
      }
    }
  }

  // ---- The invariant ----

  // How many of the consumed events have been offered to member m so far.
  function Offered<E>(s: State<E>, m: Subscriber<E>): int {
    if m.until.Some? then m.until.value
    else if s.consumer.Delivering? && m.id in s.consumer.todo then |s.consumed| - 1
    else |s.consumed|
  }

  // What a member has received and still has buffered is, in order, what it was offered without
  // what was dropped.
  ghost predicate Faithful<E>(m: Subscriber<E>, offered: seq<E>) {
    && Subsequence(m.received + m.buffer, offered)
    && |m.received| + |m.buffer| + m.dropped == |offered|
    && |m.buffer| <= m.capacity
  }

  ghost predicate MemberInv<E>(s: State<E>, h: nat)
    requires h < |s.members|
  {
    var m := s.members[h];
    && m.since <= Offered(s, m) <= |s.consumed|
    && Faithful(m, s.consumed[m.since..Offered(s, m)])
    && m.closes <= 1
    && (m.until.None? ==> m.closes == 0 && m.id in s.subscribers && s.subscribers[m.id] == h)
  }

  ghost predicate Members<E>(s: State<E>) {
    && (forall h :: 0 <= h < |s.members| ==> MemberInv(s, h))
    && (forall id :: id in s.subscribers ==>
          Registered(s, id) && s.members[s.subscribers[id]].id == id && s.members[s.subscribers[id]].until.None?)
  }

  // Events are consumed in the order in which the pipe took them in.
  ghost predicate Pipe<E>(s: State<E>) {
    && |s.events| <= PIPE_CAPACITY
    && s.accepted == s.consumed + (if s.consumer.Holding? then [s.consumer.e] else []) + s.events
    && Subsequence(s.accepted, s.published)
    && (s.consumer.Delivering? ==>
          s.consumed != [] && s.consumed[|s.consumed| - 1] == s.consumer.e && s.consumer.todo <= s.subscribers.Keys)
    && (s.consumer.Finished? ==> s.closed && s.events == [])
  }

  ghost predicate Inv<E>(s: State<E>) {
    Pipe(s) && Members(s)
  }

  lemma PipeKept<E>(s: State<E>, a: Action<E>)
    requires Pipe(s) && Enabled(s, a)
    ensures Pipe(Step(s, a))
  {
    hide Subsequence;
    if a.Publish? {
      SubsequenceTakes(s.accepted, s.published, a.e);
    } else if a.Take? {
      assert s.events == [s.events[0]] + s.events[1..];
    }
  }

  // A member keeps its invariant when nothing about it changes.
  lemma Untouched<E>(s: State<E>, s': State<E>, h: nat)
    requires h < |s.members| && h < |s'.members| && MemberInv(s, h) && s'.members[h] == s.members[h]
    requires s.consumed <= s'.consumed
    requires Offered(s', s.members[h]) == Offered(s, s.members[h])
    requires var m := s.members[h]; m.until.None? ==> m.id in s'.subscribers && s'.subscribers[m.id] == h
    ensures MemberInv(s', h)
  {
    hide Offered, Faithful;
    var m := s.members[h];
    assert s'.consumed[m.since..Offered(s, m)] == s.consumed[m.since..Offered(s, m)];
  }

  // Taking a member out of service fixes what it was offered.
  lemma Retired<E>(s: State<E>, s': State<E>, h: nat, closes: nat)
    requires h < |s.members| && h < |s'.members| && MemberInv(s, h) && s.members[h].until.None? && closes <= 1
    requires !s.consumer.Delivering? && s'.consumed == s.consumed
    requires s'.members[h] == s.members[h].(until := Some(|s.consumed|), closes := s.members[h].closes + closes)
    ensures MemberInv(s', h)
  {
  }

  lemma SubscribeKeeps<E>(s: State<E>, id: string, capacity: nat)
    requires Members(s) && Enabled(s, Subscribe(id, capacity))
    ensures Members(Step(s, Subscribe(id, capacity)))
  {
    var s' := Step(s, Subscribe(id, capacity));
    hide Subsequence;
    forall h | 0 <= h < |s'.members|
      ensures MemberInv(s', h)
    {
      if h == |s.members| {
        assert s.consumed[|s.consumed|..|s.consumed|] == [];
        assert Subsequence<E>([], []) by { SubsequenceSelf<E>([]); }
      } else {
        assert MemberInv(s, h);
        if id in s.subscribers && s.subscribers[id] == h {
          Retired(s, s', h, 0);
        } else {
          hide MemberInv, Faithful;
          InPlace(s, h);
          if s.members[h].until.None? {
            UniqueIds(s, h, id);
          }
          Untouched(s, s', h);
        }
      }
    }
  }

  lemma InPlace<E>(s: State<E>, h: nat)
    requires Members(s) && h < |s.members|
    ensures var m := s.members[h]; m.until.None? ==> m.id in s.subscribers && s.subscribers[m.id] == h
  {
    assert MemberInv(s, h);
  }

  // Only the member registered under an id carries it while in place.
  lemma UniqueIds<E>(s: State<E>, h: nat, id: string)
    requires Members(s) && h < |s.members| && s.members[h].until.None?
             && !(id in s.subscribers && s.subscribers[id] == h)
    ensures s.members[h].id != id
  {
    InPlace(s, h);
  }

  lemma UnsubscribeKeeps<E>(s: State<E>, id: string)
    requires Members(s) && Enabled(s, Unsubscribe(id))
    ensures Members(Step(s, Unsubscribe(id)))
  {
    var s' := Step(s, Unsubscribe(id));
    hide Subsequence, Faithful;
    forall h | 0 <= h < |s'.members|
      ensures MemberInv(s', h)
    {
      assert MemberInv(s, h);
      if id in s.subscribers && s.subscribers[id] == h {
        Retired(s, s', h, 1);
      } else {
        InPlace(s, h);
        Untouched(s, s', h);
      }
    }
  }

  lemma ReceiveKeeps<E>(s: State<E>, r: nat)
    requires Members(s) && Enabled(s, Receive(r))
    ensures Members(Step(s, Receive(r)))
  {
    var s' := Step(s, Receive(r));
    hide Subsequence;
    forall h | 0 <= h < |s'.members|
      ensures MemberInv(s', h)
    {
      assert MemberInv(s, h);
      var m, m' := s.members[h], s'.members[h];
      assert Offered(s', m') == Offered(s, m);
      if h == r {
        assert m'.received + m'.buffer == m.received + m.buffer;
      }
    }
  }

  // The event just locked in is still to be offered to everybody in place.
  lemma LockKeeps<E>(s: State<E>)
    requires Members(s) && Enabled(s, Lock)
    ensures Members(Step(s, Lock))
  {
    var s' := Step(s, Lock);
    hide Faithful;
    forall h | 0 <= h < |s'.members|
      ensures MemberInv(s', h)
    {
      assert MemberInv(s, h);
      Untouched(s, s', h);
    }
  }

  lemma PushFaithful<E>(m: Subscriber<E>, e: E, offered: seq<E>)
    requires Faithful(m, offered)
    ensures Faithful(Push(m, e), offered + [e])
  {
    SubsequenceTakes(m.received + m.buffer, offered, e);
    assert m.received + (m.buffer + [e]) == (m.received + m.buffer) + [e];
    hide Subsequence;
  }

  lemma DeliveredKeeps<E>(s: State<E>, id: string, h: nat)
    requires Pipe(s) && Members(s) && Enabled(s, Deliver(id)) && h == s.subscribers[id]
    ensures MemberInv(Step(s, Deliver(id)), h)
  {
    var s', m, n := Step(s, Deliver(id)), s.members[h], |s.consumed|;
    hide Faithful, Subsequence;
    assert MemberInv(s, h);
    PushFaithful(m, s.consumer.e, s.consumed[m.since..n - 1]);
    assert s.consumed[m.since..n] == s.consumed[m.since..n - 1] + [s.consumed[n - 1]];
    assert Offered(s', s'.members[h]) == n;
  }

  lemma DeliverKeeps<E>(s: State<E>, id: string)
    requires Pipe(s) && Members(s) && Enabled(s, Deliver(id))
    ensures Members(Step(s, Deliver(id)))
  {
    var s' := Step(s, Deliver(id));
    hide Faithful, Subsequence;
    forall h | 0 <= h < |s'.members|
      ensures MemberInv(s', h)
    {
      assert MemberInv(s, h);
      if h == s.subscribers[id] {
        DeliveredKeeps(s, id, h);
      } else {
        Untouched(s, s', h);
      }
    }
  }

  lemma FinishKeeps<E>(s: State<E>)
    requires Members(s) && Enabled(s, Finish)
    ensures Members(Step(s, Finish))
  {
    var s' := Step(s, Finish);
    hide Faithful, Subsequence;
    forall h | 0 <= h < |s'.members|
      ensures MemberInv(s', h)
    {
      assert MemberInv(s, h);
      var m := s.members[h];
      if m.id in s.subscribers && s.subscribers[m.id] == h {
        Retired(s, s', h, 1);
      } else {
        Untouched(s, s', h);
      }
    }
  }

  // Steps that leave members, their ids and the consumed events alone.
  lemma PipeOnlyKeeps<E>(s: State<E>, a: Action<E>)
    requires Members(s) && Enabled(s, a) && (a.Publish? || a.Take? || a.Unlock? || a.Close?)
    ensures Members(Step(s, a))
  {
    var s' := Step(s, a);
    hide Faithful, Subsequence;
    forall h | 0 <= h < |s'.members|
      ensures MemberInv(s', h)
    {
      assert MemberInv(s, h);
      Untouched(s, s', h);
    }
  }

  lemma StepKeeps<E>(s: State<E>, a: Action<E>)
    requires Inv(s) && Enabled(s, a)
    ensures Inv(Step(s, a))
  {
    PipeKept(s, a);
    hide *;
    match a
    case Subscribe(id, capacity) => SubscribeKeeps(s, id, capacity);
    case Unsubscribe(id) => UnsubscribeKeeps(s, id);
    case Receive(m) => ReceiveKeeps(s, m);
    case Lock => LockKeeps(s);
    case Deliver(id) => DeliverKeeps(s, id);
    case Finish => FinishKeeps(s);
    case _ => PipeOnlyKeeps(s, a);
  }

  lemma StartHolds<E>()
    ensures Inv(Start<E>())
  {
  }

  lemma {:induction false} InvForever<E>(s: State<E>, actions: seq<Action<E>>)
    requires Inv(s) && Legal(s, actions)
    ensures Inv(Final(s, actions))
    decreases |actions|
  {
    hide Inv, Enabled, Step;
    if actions != [] {
      StepKeeps(s, actions[0]);
      InvForever(Step(s, actions[0]), actions[1..]);
    }
  }

  // ---- What subscribers can rely on ----

  /** In every run, what a subscriber has received and still has buffered is an in-order,
      duplicate-free subsequence of the events consumed while it was in place, and that is one of
      the events published; received, buffered and dropped events are all that were consumed in
      that time. */
  lemma InOrder<E>(actions: seq<Action<E>>, h: nat)
    requires Legal(Start<E>(), actions) && h < |Final(Start<E>(), actions).members|
    ensures var s := Final(Start<E>(), actions);
            var m := s.members[h];
            var end := Offered(s, m);
            && m.since <= end <= |s.consumed|
            && Subsequence(m.received + m.buffer, s.consumed[m.since..end])
            && Subsequence(s.consumed[m.since..end], s.published)
            && Subsequence(m.received + m.buffer, s.published)
            && |m.received| + |m.buffer| + m.dropped == end - m.since
  {
    StartHolds<E>();
    InvForever(Start<E>(), actions);
    var s := Final(Start<E>(), actions);
    var m := s.members[h];
    var end := Offered(s, m);
    assert MemberInv(s, h);
    ConsumedInOrder(s, m.since, end);
    SubsequenceTrans(m.received + m.buffer, s.consumed[m.since..end], s.published);
  }

  lemma ConsumedInOrder<E>(s: State<E>, i: nat, j: nat)
    requires Pipe(s) && i <= j <= |s.consumed|
    ensures Subsequence(s.consumed[i..j], s.published)
  {
    hide Subsequence;
    assert s.accepted[i..j] == s.consumed[i..j];
    SubsequenceSlice(s.accepted, i, j);
    SubsequenceTrans(s.consumed[i..j], s.accepted, s.published);
  }

  /** A subscriber that dropped nothing has everything that was consumed in its time. */
  lemma NothingDroppedNothingMissing<E>(actions: seq<Action<E>>, h: nat)
    requires Legal(Start<E>(), actions) && h < |Final(Start<E>(), actions).members|
    ensures var s := Final(Start<E>(), actions);
            var m := s.members[h];
            0 <= m.since <= Offered(s, m) <= |s.consumed| &&
            (m.dropped == 0 <==> m.received + m.buffer == s.consumed[m.since..Offered(s, m)])
  {
    StartHolds<E>();
    InvForever(Start<E>(), actions);
    var s := Final(Start<E>(), actions);
    var m := s.members[h];
    assert MemberInv(s, h);
    SubsequenceShorter(m.received + m.buffer, s.consumed[m.since..Offered(s, m)]);
  }

  // What a member has dropped so far; 0 before it exists.
  function Dropped<E>(s: State<E>, h: nat): nat {
    if h < |s.members| then s.members[h].dropped else 0
  }

  // The step hands an event to member h while its buffer is full.
  ghost predicate MeetsFullBuffer<E>(s: State<E>, a: Action<E>, h: nat) {
    && a.Deliver? && Registered(s, a.id) && s.subscribers[a.id] == h
    && |s.members[h].buffer| >= s.members[h].capacity
  }

  // The step offers an event to the pipe while it holds 64.
  predicate MeetsFullPipe<E>(s: State<E>, a: Action<E>) {
    a.Publish? && |s.events| >= 64
  }

  ghost function FullBuffers<E>(s: State<E>, actions: seq<Action<E>>, h: nat): nat
    requires Legal(s, actions)
    decreases |actions|
  {
    if actions == [] then 0
    else (if MeetsFullBuffer(s, actions[0], h) then 1 else 0) + FullBuffers(Step(s, actions[0]), actions[1..], h)
  }

  ghost function FullPipes<E>(s: State<E>, actions: seq<Action<E>>): nat
    requires Legal(s, actions)
    decreases |actions|
  {
    if actions == [] then 0
    else (if MeetsFullPipe(s, actions[0]) then 1 else 0) + FullPipes(Step(s, actions[0]), actions[1..])
  }

  lemma OneStepDrops<E>(s: State<E>, a: Action<E>, h: nat)
    requires Enabled(s, a)
    ensures Dropped(Step(s, a), h) == Dropped(s, h) + if MeetsFullBuffer(s, a, h) then 1 else 0
    ensures |Step(s, a).published| - |Step(s, a).accepted| ==
            |s.published| - |s.accepted| + if MeetsFullPipe(s, a) then 1 else 0
  {
  }

  lemma {:induction false} DropsAdd<E>(s: State<E>, actions: seq<Action<E>>, h: nat)
    requires Legal(s, actions)
    ensures Dropped(Final(s, actions), h) == Dropped(s, h) + FullBuffers(s, actions, h)
    ensures var s' := Final(s, actions);
            |s'.published| - |s'.accepted| == |s.published| - |s.accepted| + FullPipes(s, actions)
    decreases |actions|
  {
    hide Step, Enabled, Dropped, MeetsFullBuffer, MeetsFullPipe;
    if actions != [] {
      OneStepDrops(s, actions[0], h);
      DropsAdd(Step(s, actions[0]), actions[1..], h);
    }
  }

  /** In every run events are lost in two places only, and there one each time: at a subscriber when an
      event is handed to it while its buffer is full, and at the pipe when one is published while it
      holds 64. */
  lemma DroppedOnlyWhenFull<E>(actions: seq<Action<E>>, h: nat)
    requires Legal(Start<E>(), actions)
    ensures var s := Final(Start<E>(), actions);
            && Dropped(s, h) == FullBuffers(Start<E>(), actions, h)
            && |s.published| - |s.accepted| == FullPipes(Start<E>(), actions)
  {
    DropsAdd(Start<E>(), actions, h);
  }

  // All that a member has received or still has buffered; nothing before it exists.
  function Held<E>(s: State<E>, h: nat): seq<E> {
    if h < |s.members| then s.members[h].received + s.members[h].buffer else []
  }

  // The step hands an event to member h.
  ghost predicate Hands<E>(s: State<E>, a: Action<E>, h: nat) {
    a.Deliver? && Enabled(s, a) && s.subscribers[a.id] == h
  }

  // The events handed to member h in a run, in order.
  ghost function HandedTo<E>(s: State<E>, actions: seq<Action<E>>, h: nat): seq<E>
    requires Legal(s, actions)
    decreases |actions|
  {
    if actions == [] then []
    else
      (if Hands(s, actions[0], h) then [s.consumer.e] else []) + HandedTo(Step(s, actions[0]), actions[1..], h)
  }

  // Those of them that found room in its buffer.
  ghost function FoundRoom<E>(s: State<E>, actions: seq<Action<E>>, h: nat): seq<E>
    requires Legal(s, actions)
    decreases |actions|
  {
    if actions == [] then []
    else
      (if Hands(s, actions[0], h) && |s.members[h].buffer| < s.members[h].capacity then [s.consumer.e] else []) +
      FoundRoom(Step(s, actions[0]), actions[1..], h)
  }

  /** An event handed over is kept if and only if the buffer has room at that moment; otherwise it is
      that event, and no other, that is lost. No other step changes what a member holds. */
  lemma KeptIffRoom<E>(s: State<E>, a: Action<E>, h: nat)
    requires Enabled(s, a)
    ensures Hands(s, a, h) ==>
              (Held(Step(s, a), h) == Held(s, h) + [s.consumer.e] <==> |s.members[h].buffer| < s.members[h].capacity)
    ensures Hands(s, a, h) ==>
              (Held(Step(s, a), h) == Held(s, h) <==> |s.members[h].buffer| >= s.members[h].capacity)
    ensures !Hands(s, a, h) ==> Held(Step(s, a), h) == Held(s, h)
  {
    if Hands(s, a, h) {
      var m := s.members[h];
      assert m.received + (m.buffer + [s.consumer.e]) == (m.received + m.buffer) + [s.consumer.e];
      assert |Held(s, h) + [s.consumer.e]| == |Held(s, h)| + 1;
    } else if a.Receive? && a.member == h {
      var m := s.members[h];
      assert (m.received + [m.buffer[0]]) + m.buffer[1..] == m.received + m.buffer;
    }
  }

  lemma {:induction false} HeldAdds<E>(s: State<E>, actions: seq<Action<E>>, h: nat)
    requires Legal(s, actions)
    ensures Held(Final(s, actions), h) == Held(s, h) + FoundRoom(s, actions, h)
    ensures |HandedTo(s, actions, h)| == |FoundRoom(s, actions, h)| + FullBuffers(s, actions, h)
    ensures FullBuffers(s, actions, h) == 0 ==> FoundRoom(s, actions, h) == HandedTo(s, actions, h)
    decreases |actions|
  {
    if actions != [] {
      var a := actions[0];
      KeptIffRoom(s, a, h);
      assert Hands(s, a, h) ==> (MeetsFullBuffer(s, a, h) <==> |s.members[h].buffer| >= s.members[h].capacity);
      assert !Hands(s, a, h) ==> !MeetsFullBuffer(s, a, h);
      hide Step, Enabled, Held, MeetsFullBuffer, Hands;
      HeldAdds(Step(s, a), actions[1..], h);
    }
  }

  /** In every run, for every capacity, what a subscriber has received and still has buffered is exactly
      the sequence of events that found room when they were handed to it: the older events stay and
      each event that meets a full buffer is lost. So everything handed to it is kept if and only if
      it never meets a full buffer. */
  lemma KeepsWhatFoundRoom<E>(actions: seq<Action<E>>, h: nat)
    requires Legal(Start<E>(), actions)
    ensures Held(Final(Start<E>(), actions), h) == FoundRoom(Start<E>(), actions, h)
    ensures Held(Final(Start<E>(), actions), h) == HandedTo(Start<E>(), actions, h) <==>
            FullBuffers(Start<E>(), actions, h) == 0
  {
    HeldAdds(Start<E>(), actions, h);
    assert Held(Start<E>(), h) == [];
    hide FoundRoom, HandedTo, FullBuffers;
  }

  /** For every capacity and every sequence of events there is a run in which a subscriber that reads
      nothing ends up with the oldest events that fit, and has lost the newer ones. */
  lemma FullBufferKeepsOldest<E>(capacity: nat, events: seq<E>) returns (actions: seq<Action<E>>)
    ensures Legal(Start<E>(), actions)
    ensures var s := Final(Start<E>(), actions);
            && |s.members| == 1 && s.consumed == events
            && s.members[0].buffer == (if |events| <= capacity then events else events[..capacity])
            && s.members[0].dropped == if |events| <= capacity then 0 else |events| - capacity
  {
    var first: Action<E> := Subscribe("s", capacity);
    var s1 := Step(Start<E>(), first);
    var rest: seq<Action<E>>;
    var s2: State<E>;
    rest, s2 := RoundsOf(s1, capacity, events, |events|);
    Prepended(Start<E>(), first, rest);
    actions := [first] + rest;
    assert events[..|events|] == events;
    hide Final, Legal, Enabled, Step;
  }

  // Hands the first n events to the only subscriber, one after the other.
  lemma {:induction false} RoundsOf<E>(s: State<E>, capacity: nat, events: seq<E>, n: nat)
    returns (rounds: seq<Action<E>>, s': State<E>)
    requires s == Step(Start<E>(), Subscribe("s", capacity)) && n <= |events|
    ensures Legal(s, rounds) && Final(s, rounds) == s'
    ensures s'.events == [] && !s'.closed && s'.consumer.Waiting? && s'.subscribers == map["s" := 0]
    ensures |s'.members| == 1 && s'.consumed == events[..n] && s'.members[0].capacity == capacity
    ensures s'.members[0].buffer == if n <= capacity then events[..n] else events[..capacity]
    ensures s'.members[0].dropped == if n <= capacity then 0 else n - capacity
  {
    if n == 0 {
      rounds, s' := [], s;
    } else {
      var before: seq<Action<E>>, one: seq<Action<E>>;
      var t: State<E>;
      before, t := RoundsOf(s, capacity, events, n - 1);
      one, s' := RoundOf(t, events[n - 1]);
      Joined(s, before, one);
      rounds := before + one;
      assert events[..n] == events[..n - 1] + [events[n - 1]];
      hide Final, Legal, Enabled, Step;
    }
  }

  // Publishes one event and hands it to the only subscriber.
  lemma RoundOf<E>(s: State<E>, e: E) returns (round: seq<Action<E>>, s': State<E>)
    requires s.events == [] && !s.closed && s.consumer.Waiting? && s.subscribers == map["s" := 0] && |s.members| == 1
    ensures Legal(s, round) && Final(s, round) == s'
    ensures s'.events == [] && !s'.closed && s'.consumer.Waiting? && s'.subscribers == s.subscribers
    ensures s'.members == [Push(s.members[0], e)] && s'.consumed == s.consumed + [e]
  {
    var s1 := Step(s, Publish(e));
    var s2 := Step(s1, Take);
    var s3 := Step(s2, Lock);
    assert s3.consumer.todo == {"s"};
    var s4 := Step(s3, Deliver("s"));
    s' := Step(s4, Unlock);
    round := [];
    Prepended(s4, Unlock, round);
    round := [Unlock] + round;
    Prepended(s3, Deliver("s"), round);
    round := [Deliver("s")] + round;
    Prepended(s2, Lock, round);
    round := [Lock] + round;
    Prepended(s1, Take, round);
    round := [Take] + round;
    Prepended(s, Publish(e), round);
    round := [Publish(e)] + round;
    hide Enabled, Step;
  }

  lemma Prepended<E>(s: State<E>, a: Action<E>, rest: seq<Action<E>>)
    requires Enabled(s, a) && Legal(Step(s, a), rest)
    ensures Legal(s, [a] + rest) && Final(s, [a] + rest) == Final(Step(s, a), rest)
  {
    hide Enabled, Step;
    assert ([a] + rest)[1..] == rest;
  }

  lemma {:induction false} Joined<E>(s: State<E>, a: seq<Action<E>>, b: seq<Action<E>>)
    requires Legal(s, a) && Legal(Final(s, a), b)
    ensures Legal(s, a + b) && Final(s, a + b) == Final(Final(s, a), b)
    decreases |a|
  {
    hide Enabled, Step;
    if a == [] {
      assert a + b == b;
    } else {
      assert (a + b)[1..] == a[1..] + b;
      Joined(Step(s, a[0]), a[1..], b);
    }
  }

  // ---- Who is told to go ----

  // The step ends the member's time: it is removed, replaced under its id, or the pipe is done.
  ghost predicate Dismisses<E>(s: State<E>, a: Action<E>, h: nat) {
    && h < |s.members| && s.members[h].id in s.subscribers && s.subscribers[s.members[h].id] == h
    && (a.Finish? || ((a.Unsubscribe? || a.Subscribe?) && a.id == s.members[h].id))
  }

  /** A step ends a member's time exactly when it removes it, replaces it or ends the pipe, and gives the
      signal to go to those removed and those left at the end, but not to one replaced. */
  lemma ToldToGoIff<E>(s: State<E>, a: Action<E>, h: nat)
    requires Members(s) && Enabled(s, a) && h < |s.members|
    ensures var m, m' := s.members[h], Step(s, a).members[h];
            && h < |Step(s, a).members| && m'.id == m.id && m'.since == m.since && m'.capacity == m.capacity
            && m'.until == (if Dismisses(s, a, h) then Some(|s.consumed|) else m.until)
            && m'.closes == m.closes + if Dismisses(s, a, h) && !a.Subscribe? then 1 else 0
  {
    hide MemberInv;
    assert forall id :: id in s.subscribers ==> s.members[s.subscribers[id]].id == id;
  }

  // A later member under the same id took its place.
  ghost predicate Replaced<E>(s: State<E>, h: nat) {
    h < |s.members| && exists h' :: h < h' < |s.members| && s.members[h'].id == s.members[h].id &&
                                    Some(s.members[h'].since) == s.members[h].until
  }

  // Whose time is over was told to go once, or was replaced and not told.
  ghost predicate DismissedOnce<E>(s: State<E>) {
    forall h :: 0 <= h < |s.members| && s.members[h].until.Some? ==> s.members[h].closes == 1 || Replaced(s, h)
  }

  lemma DismissedKept<E>(s: State<E>, a: Action<E>)
    requires Inv(s) && DismissedOnce(s) && Enabled(s, a)
    ensures DismissedOnce(Step(s, a))
  {
    var s' := Step(s, a);
    forall h | 0 <= h < |s'.members| && s'.members[h].until.Some?
      ensures s'.members[h].closes == 1 || Replaced(s', h)
    {
      if h < |s.members| {
        assert MemberInv(s, h);
        ToldToGoIff(s, a, h);
        hide MemberInv, Pipe;
        if Dismisses(s, a, h) && a.Subscribe? {
          var last := s'.members[|s.members|];
          assert last.id == a.id && last.since == |s.consumed|;
        } else if Replaced(s, h) {
          var h' :| h < h' < |s.members| && s.members[h'].id == s.members[h].id &&
                    Some(s.members[h'].since) == s.members[h].until;
          ToldToGoIff(s, a, h');
        }
      }
    }
  }

  lemma {:induction false} DismissedForever<E>(s: State<E>, actions: seq<Action<E>>)
    requires Inv(s) && DismissedOnce(s) && Legal(s, actions)
    ensures DismissedOnce(Final(s, actions))
    decreases |actions|
  {
    if actions != [] {
      StepKeeps(s, actions[0]);
      DismissedKept(s, actions[0]);
      hide Inv, Step, DismissedOnce, Enabled;
      DismissedForever(Step(s, actions[0]), actions[1..]);
    }
  }

  lemma {:induction false} ClosedIff<E>(s: State<E>, actions: seq<Action<E>>)
    requires Legal(s, actions)
    ensures Final(s, actions).closed <==> s.closed || exists i :: 0 <= i < |actions| && actions[i].Close?
    decreases |actions|
  {
    if actions != [] {
      var a, rest := actions[0], actions[1..];
      assert Step(s, a).closed <==> s.closed || a.Close?;
      hide Step, Enabled;
      ClosedIff(Step(s, a), rest);
      assert forall i :: 0 < i < |actions| ==> actions[i] == rest[i - 1];
      assert forall i :: 0 <= i < |rest| ==> rest[i] == actions[i + 1];
    }
  }

  /** Closing loses nothing that was taken in: once the consumer has finished, which it does only after a
      Close, every accepted event has been handed round. Everybody whose time is over was told to go exactly
      once, or was replaced; nobody in place was. */
  lemma CloseDrains<E>(actions: seq<Action<E>>)
    requires Legal(Start<E>(), actions)
    ensures var s := Final(Start<E>(), actions);
            && (s.closed <==> exists i :: 0 <= i < |actions| && actions[i].Close?)
            && (s.consumer.Finished? ==> s.closed && s.consumed == s.accepted)
            && (forall h :: 0 <= h < |s.members| ==>
                  var m := s.members[h];
                  && m.closes <= 1
                  && (m.until.None? ==> m.closes == 0 && m.id in s.subscribers && s.subscribers[m.id] == h)
                  && (m.until.Some? ==> m.closes == 1 || Replaced(s, h)))
  {
    StartHolds<E>();
    InvForever(Start<E>(), actions);
    DismissedForever(Start<E>(), actions);
    ClosedIff(Start<E>(), actions);
    var s := Final(Start<E>(), actions);
    hide Subsequence, Faithful, Final, Legal, Replaced;
    forall h | 0 <= h < |s.members|
      ensures s.members[h].closes <= 1
      ensures var m := s.members[h];
              m.until.None? ==> m.closes == 0 && m.id in s.subscribers && s.subscribers[m.id] == h
    {
      assert MemberInv(s, h);
    }
  }
}
