/** A table of per-key states, where each request updates only the state of its own key. */
module KeyedRuns {
  import opened Collections

  // Requests of one key, in order.
  function Run<S, R>(step: (Option<S>, R) -> S, rs: seq<R>): Option<S> {
    if rs == [] then None else Some(step(Run(step, rs[..|rs| - 1]), rs[|rs| - 1]))
  }

  function Lookup<S>(table: map<string, S>, key: string): Option<S> {
    if key in table then Some(table[key]) else None
  }

  // Requests of all keys, interleaved.
  function RunAll<S, R>(step: (Option<S>, R) -> S, reqs: seq<(string, R)>): map<string, S> {
    if reqs == [] then map[]
    else
      var table, last := RunAll(step, reqs[..|reqs| - 1]), reqs[|reqs| - 1];
      table[last.0 := step(Lookup(table, last.0), last.1)]
  }

  function Of<R>(reqs: seq<(string, R)>, key: string): seq<R> {
    if reqs == [] then []
    else Of(reqs[..|reqs| - 1], key) + if reqs[|reqs| - 1].0 == key then [reqs[|reqs| - 1].1] else []
  }

  /** What a key sees of an interleaved run is the run of its own requests: keys never interfere. */
  lemma {:induction false} KeysAreIndependent<S, R>(step: (Option<S>, R) -> S, reqs: seq<(string, R)>, key: string)
    ensures Lookup(RunAll(step, reqs), key) == Run(step, Of(reqs, key))
  {
    if reqs != [] {
      var last := |reqs| - 1;
      KeysAreIndependent(step, reqs[..last], key);
      if reqs[last].0 == key {
        assert Of(reqs, key)[..|Of(reqs, key)| - 1] == Of(reqs[..last], key);
      } else {
        assert Of(reqs, key) == Of(reqs[..last], key);
      }
    }
  }
}
