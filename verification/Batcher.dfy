/** Collecting orders into batches: a loop that takes one event at a time (an order, the end of the
    time window, or the stop signal) and hands full or overdue batches on. */
module Batching {

  datatype Event = Incoming(order: int) | WindowOver | Stop

  function Flatten(batches: seq<seq<int>>): seq<int> {
    if batches == [] then [] else Flatten(batches[..|batches| - 1]) + batches[|batches| - 1]
  }

  lemma FlattenAppend(batches: seq<seq<int>>, batch: seq<int>)
    ensures Flatten(batches + [batch]) == Flatten(batches) + batch
  {
  }

  // The orders taken from the channel, in order, up to the stop signal.
  function Taken(events: seq<Event>): seq<int> {
    if events == [] then []
    else
      var before, last := Taken(events[..|events| - 1]), events[|events| - 1];
      if last.Incoming? && Stop !in events then before + [last.order] else before
  }

  lemma NothingYet(events: seq<Event>)
    ensures Flatten([]) + [] == Taken(events[..0])
  {
  }

  lemma TakenStep(events: seq<Event>, n: nat)
    requires n < |events|
    ensures Taken(events[..n + 1]) ==
            Taken(events[..n]) + if events[n].Incoming? && Stop !in events[..n + 1] then [events[n].order] else []
  {
    assert events[..n + 1][..n] == events[..n];
  }

  class BatchCollector {
    const minOrders: int
    var pending: seq<int>
    var batches: seq<seq<int>>
    var closed: bool

    // No batch is empty or larger than the threshold (a threshold below one counts as one), and
    // fewer orders than that are left waiting.
    ghost predicate Valid()
      reads this
    {
      && (forall i :: 0 <= i < |batches| ==> 0 < |batches[i]| <= Threshold())
      && |pending| < Threshold()
    }

    function Threshold(): nat {
      if minOrders < 1 then 1 else minOrders
    }

    // A negative threshold would be a negative capacity, which stops the program.
    constructor (minOrders: int)
      requires minOrders >= 0
      ensures Valid() && batches == [] && pending == [] && !closed && this.minOrders == minOrders
    {
      this.minOrders := minOrders;
      pending, batches, closed := [], [], false;
    }

    method Flush()
      modifies this`pending, this`batches
      ensures pending == [] && Flatten(batches) == old(Flatten(batches) + pending)
      ensures batches == if old(pending) == [] then old(batches) else old(batches) + [old(pending)]
    {
      if |pending| == 0 {
        return;
      }
      var batch := pending;
      FlattenAppend(batches, batch);
      pending := [];
      batches := batches + [batch];
    }

    // One turn of the loop; reports whether the loop goes on.
    method Turn(e: Event) returns (more: bool)
      requires Valid() && !closed
      modifies this
      ensures Valid() && more == !closed && (closed <==> e == Stop)
      ensures Flatten(batches) + pending == old(Flatten(batches) + pending) + if e.Incoming? then [e.order] else []
      ensures e == Stop || e == WindowOver ==> pending == []
      // A batch goes out early only when the window is over or the collector is stopped.
      ensures batches == old(batches) ||
              exists b :: batches == old(batches) + [b] && (e.Incoming? ==> |b| == Threshold())
      ensures var all := old(pending) + if e.Incoming? then [e.order] else [];
              if (e.Incoming? && |all| < minOrders) || all == [] then batches == old(batches) && pending == all
              else batches == old(batches) + [all] && pending == []
    {
      hide Flatten;
      assert pending + [] == pending;
      match e {
        case Stop =>
          Flush();
          closed := true;
          return false;
        case Incoming(o) =>
          assert Flatten(batches) + (pending + [o]) == (Flatten(batches) + pending) + [o];
          pending := pending + [o];
          if |pending| >= minOrders {
            Flush();
          }
        case WindowOver =>
          if |pending| > 0 {
            Flush();
          }
      }
      return true;
    }

    // Over a whole run the batches, one after the other, are the orders taken, in order and each
    // once; what is missing is still pending, and nothing is after a stop.
    method Run(events: seq<Event>) returns (handled: nat)
      requires Valid() && !closed && batches == [] && pending == []
      modifies this
      ensures Valid() && handled <= |events|
      ensures Flatten(batches) + pending == Taken(events[..handled])
      ensures closed ==> pending == [] && handled > 0 && events[handled - 1] == Stop
      ensures !closed ==> handled == |events|
      ensures forall i :: 0 <= i < |batches| ==> 0 < |batches[i]| && (|batches[i]| == 1 || |batches[i]| <= minOrders)
    {
      NothingYet(events);
      hide Flatten, Taken;
      handled := 0;
      var more := true;
      while more && handled < |events|
        invariant 0 <= handled <= |events| && Valid() && more == !closed
        invariant Flatten(batches) + pending == Taken(events[..handled])
        invariant !closed ==> Stop !in events[..handled]
        invariant closed ==> pending == [] && handled > 0 && events[handled - 1] == Stop
      {
        TakenStep(events, handled);
        more := Turn(events[handled]);
        handled := handled + 1;
      }
    }
  }
}
