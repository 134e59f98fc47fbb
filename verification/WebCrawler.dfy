/** The crawl frontier: workers that share a visited set, a bounded queue and a bounded results
    channel. Every atomic access to one of the three is a step, and steps of different workers
    interleave freely until the queue is closed. */
module WebCrawler {
  import opened Collections

  // ---- The visited set ----

  class VisitedURLs {
    var urls: set<string>

    constructor ()
      ensures urls == {}
    {
      urls := {};
    }

    method TryVisit(rawURL: string) returns (first: bool)
      modifies this
      ensures first <==> rawURL !in old(urls)
      ensures urls == old(urls) + {rawURL}
      ensures |urls| == |old(urls)| + if first then 1 else 0
    {
      if rawURL in urls {
        assert urls + {rawURL} == urls;
        return false;
      }
      urls := urls + {rawURL};
      return true;
    }

    method Len() returns (n: nat)
      ensures n == |urls|
    {
      n := |urls|;
    }
  }

  // ---- The crawl as a state machine ----

  const WORKERS: nat := 3

  // What a fetch returns.
  datatype Page = Page(url: string, status: int, links: seq<string>)

  // Where a worker is in its loop.
  datatype Phase =
    | Idle
    | Fetching(url: string)
    | Sending(page: Page)
    | Scanning(links: seq<string>)
    | Checking(link: string, rest: seq<string>)
    | Enqueuing(link: string, rest: seq<string>)

  // The last three fields are history: URLs in the order they were first visited, every URL ever
  // put on the queue, and every URL ever taken from it.
  datatype State = State(
    max: nat,
    visited: set<string>,
    queue: seq<string>,
    results: seq<Page>,
    workers: seq<Phase>,
    order: seq<string>,
    enqueued: seq<string>,
    taken: seq<string>)

  function Start(seed: string, max: nat): State {
    State(max, {seed}, [seed], [], seq(WORKERS, _ => Idle), [seed], [seed], [])
  }

  datatype Action =
    | Take(w: nat)
    | Fetch(w: nat, page: Page)
    | Send(w: nat)
    | Visit(w: nat)
    | Check(w: nat)
    | Enqueue(w: nat)

  // A receive waits for a queued URL and a send for room in the results channel.
  ghost predicate Enabled(s: State, a: Action) {
    a.w < |s.workers| &&
    match a
    case Take(w) => s.workers[w] == Idle && s.queue != []
    case Fetch(w, page) => s.workers[w] == Fetching(page.url)
    case Send(w) => s.workers[w].Sending? && |s.results| < s.max
    case Visit(w) => s.workers[w].Scanning?
    case Check(w) => s.workers[w].Checking?
    case Enqueue(w) => s.workers[w].Enqueuing?
  }

  function Step(s: State, a: Action): State
    requires Enabled(s, a)
  {
    var p := s.workers[a.w];
    match a
    case Take(w) =>
      s.(queue := s.queue[1..], taken := s.taken + [s.queue[0]], workers := s.workers[w := Fetching(s.queue[0])])
    case Fetch(w, page) =>
      s.(workers := s.workers[w := Sending(page)])
    case Send(w) =>
      s.(results := s.results + [p.page],
         workers := s.workers[w := if p.page.status == 200 then Scanning(p.page.links) else Idle])
    case Visit(w) =>
      if p.links == [] then s.(workers := s.workers[w := Idle])
      else
        var link, rest := p.links[0], p.links[1..];
        if link in s.visited then s.(workers := s.workers[w := Scanning(rest)])
        else s.(visited := s.visited + {link}, order := s.order + [link],
                workers := s.workers[w := Checking(link, rest)])
    case Check(w) =>
      s.(workers := s.workers[w := if |s.visited| <= s.max then Enqueuing(p.link, p.rest) else Scanning(p.rest)])
    case Enqueue(w) =>
      var s' := s.(workers := s.workers[w := Scanning(p.rest)]);
      // The default branch drops the URL when the queue is full.
      if |s.queue| < 2 * s.max then s'.(queue := s.queue + [p.link], enqueued := s.enqueued + [p.link]) else s'
  }

  ghost predicate Legal(s: State, actions: seq<Action>)
    decreases |actions|
  {
    actions != [] ==> Enabled(s, actions[0]) && Legal(Step(s, actions[0]), actions[1..])
  }

  ghost function Final(s: State, actions: seq<Action>): State
    requires Legal(s, actions)
    decreases |actions|
  {
    if actions == [] then s else Final(Step(s, actions[0]), actions[1..])
  }

  // ---- The invariant ----

  // url was among the first max URLs visited.
  ghost predicate Early(s: State, url: string) {
    exists k :: 0 <= k < |s.order| && k < s.max && s.order[k] == url
  }

  // The URL a worker has visited but not yet put on the queue, if any.
  ghost predicate Claims(p: Phase, url: string) {
    (p.Checking? || p.Enqueuing?) && p.link == url
  }

  ghost predicate VisitedInOrder(s: State) {
    && Distinct(s.order) && (forall u :: u in s.order <==> u in s.visited)
    && |s.visited| == |s.order|
  }

  ghost predicate ClaimsAreFresh(s: State) {
    && (forall w, u :: 0 <= w < |s.workers| && Claims(s.workers[w], u) ==> u in s.visited && u !in s.enqueued)
    && (forall w, w', u :: 0 <= w < w' < |s.workers| && Claims(s.workers[w], u) ==> !Claims(s.workers[w'], u))
    && (forall w :: 0 <= w < |s.workers| && s.workers[w].Enqueuing? ==> Early(s, s.workers[w].link))
  }

  ghost predicate QueuedEarly(s: State) {
    && Distinct(s.enqueued)
    && (forall u :: u in s.enqueued ==> u in s.visited && Early(s, u))
    && s.enqueued == s.taken + s.queue
  }

  // A URL that has been taken is either being worked on or its result has been sent.
  function Busy(workers: seq<Phase>): nat {
    if workers == [] then 0
    else
      var last := workers[|workers| - 1];
      Busy(workers[..|workers| - 1]) + if last.Fetching? || last.Sending? then 1 else 0
  }

  ghost predicate ResultsCounted(s: State) {
    |s.results| + Busy(s.workers) == |s.taken|
  }

  ghost predicate Inv(s: State) {
    s.max >= 1 && VisitedInOrder(s) && ClaimsAreFresh(s) && QueuedEarly(s) && ResultsCounted(s)
  }

  // ---- Counting ----

  function Elements(s: seq<string>): set<string> {
    set i | 0 <= i < |s| :: s[i]
  }

  lemma {:induction false} DistinctSize(s: seq<string>)
    requires Distinct(s)
    ensures |Elements(s)| == |s|
  {
    if s != [] {
      var n := |s| - 1;
      DistinctSize(s[..n]);
      assert Elements(s) == Elements(s[..n]) + {s[n]} by {
        forall u | u in Elements(s)
          ensures u in Elements(s[..n]) + {s[n]}
        {
          var i :| 0 <= i < |s| && s[i] == u;
          assert i < n ==> s[..n][i] == u;
        }
        forall u | u in Elements(s[..n])
          ensures u in Elements(s)
        {
          var i :| 0 <= i < n && s[..n][i] == u;
          assert s[i] == u;
        }
      }
    }
  }

  lemma {:induction false} ElementsSize(s: seq<string>)
    ensures |Elements(s)| <= |s|
  {
    if s != [] {
      var n := |s| - 1;
      ElementsSize(s[..n]);
      assert Elements(s) <= Elements(s[..n]) + {s[n]} by {
        forall u | u in Elements(s)
          ensures u in Elements(s[..n]) + {s[n]}
        {
          var i :| 0 <= i < |s| && s[i] == u;
          assert i < n ==> s[..n][i] == u;
        }
      }
      SubsetSize(Elements(s), Elements(s[..n]) + {s[n]});
    }
  }

  /** Distinct URLs that were all among the first max visited are at most max. */
  lemma AtMostMax(s: State, urls: seq<string>)
    requires Distinct(urls) && forall u :: u in urls ==> Early(s, u)
    ensures |urls| <= s.max
  {
    var first := s.order[..if |s.order| < s.max then |s.order| else s.max];
    forall u | u in Elements(urls)
      ensures u in Elements(first)
    {
      assert u in urls;
      var k :| 0 <= k < |s.order| && k < s.max && s.order[k] == u;
      assert first[k] == u;
    }
    DistinctSize(urls);
    SubsetSize(Elements(urls), Elements(first));
    ElementsSize(first);
  }

  lemma {:induction false} BusyChange(ws: seq<Phase>, w: nat, p: Phase)
    requires w < |ws|
    ensures Busy(ws[w := p]) == Busy(ws) + (if p.Fetching? || p.Sending? then 1 else 0)
                                         - (if ws[w].Fetching? || ws[w].Sending? then 1 else 0)
  {
    var n := |ws| - 1;
    if w < n {
      assert ws[w := p][..n] == ws[..n][w := p];
      BusyChange(ws[..n], w, p);
    } else {
      assert ws[w := p][..n] == ws[..n];
    }
  }

  lemma {:induction false} BusyAtLeastOne(ws: seq<Phase>, w: nat)
    requires w < |ws| && (ws[w].Fetching? || ws[w].Sending?)
    ensures Busy(ws) >= 1
  {
    if w < |ws| - 1 {
      BusyAtLeastOne(ws[..|ws| - 1], w);
    }
  }

  // ---- Every step keeps it ----

  lemma StartIsGood(seed: string, max: nat)
    requires max >= 1
    ensures Inv(Start(seed, max))
  {
    var s := Start(seed, max);
    assert s.order[0] == seed;
    NoneBusy(WORKERS);
  }

  lemma {:induction false} NoneBusy(n: nat)
    ensures Busy(seq(n, _ => Idle)) == 0
  {
    if n > 0 {
      assert seq(n, _ => Idle)[..n - 1] == seq(n - 1, _ => Idle);
      NoneBusy(n - 1);
    }
  }

  // A worker that moves to a phase claiming nothing new, with nothing else changed, keeps the claims.
  lemma ClaimsKept(s: State, s': State, w: nat)
    requires ClaimsAreFresh(s) && w < |s.workers|
    requires s'.max == s.max && s'.visited == s.visited && s'.order == s.order && s'.enqueued == s.enqueued
    requires |s'.workers| == |s.workers| && s'.workers == s.workers[w := s'.workers[w]]
    requires forall u :: Claims(s'.workers[w], u) ==> Claims(s.workers[w], u)
    requires s'.workers[w].Enqueuing? ==> Early(s, s'.workers[w].link)
    ensures ClaimsAreFresh(s')
  {
  }

  lemma TakeKeeps(s: State, w: nat)
    requires Inv(s) && Enabled(s, Take(w))
    ensures Inv(Step(s, Take(w)))
  {
    var s' := Step(s, Take(w));
    assert s.taken + s.queue == (s.taken + [s.queue[0]]) + s.queue[1..];
    BusyChange(s.workers, w, s'.workers[w]);
    ClaimsKept(s, s', w);
    hide ClaimsAreFresh, Busy;
  }

  lemma FetchKeeps(s: State, w: nat, page: Page)
    requires Inv(s) && Enabled(s, Fetch(w, page))
    ensures Inv(Step(s, Fetch(w, page)))
  {
    var s' := Step(s, Fetch(w, page));
    BusyChange(s.workers, w, s'.workers[w]);
    ClaimsKept(s, s', w);
    hide ClaimsAreFresh, Busy;
  }

  lemma SendKeeps(s: State, w: nat)
    requires Inv(s) && Enabled(s, Send(w))
    ensures Inv(Step(s, Send(w)))
  {
    var s' := Step(s, Send(w));
    BusyChange(s.workers, w, s'.workers[w]);
    ClaimsKept(s, s', w);
    hide ClaimsAreFresh, Busy;
  }

  lemma EarlyStays(s: State, s': State)
    requires s'.max == s.max && s.order <= s'.order
    ensures forall u :: Early(s, u) ==> Early(s', u)
  {
  }

  lemma VisitKeeps(s: State, w: nat)
    requires Inv(s) && Enabled(s, Visit(w))
    ensures Inv(Step(s, Visit(w)))
  {
    var s' := Step(s, Visit(w));
    BusyChange(s.workers, w, s'.workers[w]);
    EarlyStays(s, s');
    if s'.visited == s.visited {
      ClaimsKept(s, s', w);
      hide ClaimsAreFresh, Busy;
    } else {
      hide Busy, Early;
      FirstVisitKeepsClaims(s, s', w);
    }
  }

  // A first visit: the link is new everywhere, so no other worker claims it.
  lemma FirstVisitKeepsClaims(s: State, s': State, w: nat)
    requires ClaimsAreFresh(s) && w < |s.workers| && s.workers[w].Scanning?
    requires forall u :: u in s.enqueued ==> u in s.visited
    requires s'.max == s.max && s'.enqueued == s.enqueued && s.order <= s'.order
    requires |s'.workers| == |s.workers| && s'.workers == s.workers[w := s'.workers[w]]
    requires s'.workers[w].Checking? && s'.workers[w].link !in s.visited
    requires s'.visited == s.visited + {s'.workers[w].link}
    ensures ClaimsAreFresh(s')
  {
  }

  lemma CheckKeeps(s: State, w: nat)
    requires Inv(s) && Enabled(s, Check(w))
    ensures Inv(Step(s, Check(w)))
  {
    var s' := Step(s, Check(w));
    BusyChange(s.workers, w, s'.workers[w]);
    if s'.workers[w].Enqueuing? {
      // The link was visited before the count was read, so its rank is at most that count.
      var link := s.workers[w].link;
      assert Claims(s.workers[w], link);
      assert link in s.order;
      assert Early(s, link);
    }
    ClaimsKept(s, s', w);
    hide ClaimsAreFresh, Busy;
  }

  lemma EnqueueKeeps(s: State, w: nat)
    requires Inv(s) && Enabled(s, Enqueue(w))
    ensures Inv(Step(s, Enqueue(w)))
  {
    var s', link := Step(s, Enqueue(w)), s.workers[w].link;
    BusyChange(s.workers, w, s'.workers[w]);
    assert Claims(s.workers[w], link);
    EarlyStays(s, s');
    hide Busy, Early;
    assert s.taken + (s.queue + [link]) == (s.taken + s.queue) + [link];
    assert forall u :: !Claims(s'.workers[w], u);
    assert forall w', u :: 0 <= w' < |s.workers| && w' != w && Claims(s.workers[w'], u) ==> u != link;
    assert ClaimsAreFresh(s');
    assert QueuedEarly(s');
  }

  lemma StepKeeps(s: State, a: Action)
    requires Inv(s) && Enabled(s, a)
    ensures Inv(Step(s, a))
  {
    hide Inv, Step;
    match a
    case Take(w) => TakeKeeps(s, w);
    case Fetch(w, page) => FetchKeeps(s, w, page);
    case Send(w) => SendKeeps(s, w);
    case Visit(w) => VisitKeeps(s, w);
    case Check(w) => CheckKeeps(s, w);
    case Enqueue(w) => EnqueueKeeps(s, w);
  }

  lemma {:induction false} InvForever(s: State, actions: seq<Action>)
    requires Inv(s) && Legal(s, actions)
    ensures Inv(Final(s, actions)) && Final(s, actions).max == s.max
    ensures |Final(s, actions).workers| == |s.workers|
    decreases |actions|
  {
    if actions != [] {
      StepKeeps(s, actions[0]);
      assert Step(s, actions[0]).max == s.max && |Step(s, actions[0]).workers| == |s.workers|;
      hide Inv, Step;
      InvForever(Step(s, actions[0]), actions[1..]);
    }
  }

  // ---- Main results ----

  /** Under every interleaving, each URL is enqueued at most once and fetched at most once, and at
      most MaxPages URLs are ever enqueued. */
  lemma FrontierIsBounded(seed: string, max: nat, actions: seq<Action>)
    requires max >= 1 && Legal(Start(seed, max), actions)
    ensures var s := Final(Start(seed, max), actions);
            && Distinct(s.enqueued) && |s.enqueued| <= max
            && Distinct(s.taken) && s.taken <= s.enqueued && s.queue == s.enqueued[|s.taken|..]
            && (forall u :: u in s.enqueued ==> u in s.visited)
            && |s.workers| == 3
  {
    StartIsGood(seed, max);
    InvForever(Start(seed, max), actions);
    var s := Final(Start(seed, max), actions);
    AtMostMax(s, s.enqueued);
    hide Final, Legal;
    forall i, j | 0 <= i < j < |s.taken|
      ensures s.taken[i] != s.taken[j]
    {
      assert s.enqueued[i] == s.taken[i] && s.enqueued[j] == s.taken[j];
    }
  }

  /** So no worker is ever stuck: a finished fetch always finds room for its result, although
      results are only read after all workers are done, and a link is never dropped for a full queue. */
  lemma ChannelsNeverFull(seed: string, max: nat, actions: seq<Action>, w: nat)
    requires max >= 1 && Legal(Start(seed, max), actions)
    requires w < |Final(Start(seed, max), actions).workers|
    ensures var s := Final(Start(seed, max), actions);
            && (s.workers[w].Sending? ==> Enabled(s, Send(w)))
            && (s.workers[w].Enqueuing? ==>
                  |s.queue| < 2 * s.max && Step(s, Enqueue(w)).queue == s.queue + [s.workers[w].link])
            && |s.results| <= max && |s.queue| <= max
  {
    StartIsGood(seed, max);
    InvForever(Start(seed, max), actions);
    var s := Final(Start(seed, max), actions);
    hide Final, Legal;
    AtMostMax(s, s.enqueued);
    if s.workers[w].Sending? {
      BusyAtLeastOne(s.workers, w);
    }
  }

  /** Every result comes from a URL that was taken: results and pages in progress add up. */
  lemma ResultsAreAccountedFor(seed: string, max: nat, actions: seq<Action>)
    requires max >= 1 && Legal(Start(seed, max), actions)
    ensures var s := Final(Start(seed, max), actions);
            |s.results| + Busy(s.workers) + |s.queue| == |s.enqueued|
  {
    StartIsGood(seed, max);
    InvForever(Start(seed, max), actions);
    hide Final, Legal;
  }

  // ---- What is reported ----

  ghost predicate Fetched(actions: seq<Action>, page: Page) {
    exists i :: 0 <= i < |actions| && actions[i].Fetch? && actions[i].page == page
  }

  // The page is among the results, or a worker is about to send it.
  ghost predicate Reported(s: State, page: Page) {
    page in s.results || exists w :: 0 <= w < |s.workers| && s.workers[w] == Sending(page)
  }

  lemma ReportedStep(s: State, a: Action, page: Page)
    requires Enabled(s, a)
    ensures Reported(Step(s, a), page) <==> Reported(s, page) || (a.Fetch? && a.page == page)
  {
    var s', w := Step(s, a), a.w;
    assert forall v :: 0 <= v < |s.workers| && v != w ==> s'.workers[v] == s.workers[v];
    assert page in s.results ==> page in s'.results;
    if a.Fetch? && a.page == page {
      assert s'.workers[w] == Sending(page);
    }
    if s.workers[w] == Sending(page) {
      assert a.Send?;
      assert s'.results[|s.results|] == page;
    }
  }

  lemma {:induction false} ReportedRun(s: State, actions: seq<Action>, page: Page)
    requires Legal(s, actions)
    ensures Reported(Final(s, actions), page) <==> Reported(s, page) || Fetched(actions, page)
    decreases |actions|
  {
    if actions != [] {
      var a, rest := actions[0], actions[1..];
      ReportedStep(s, a, page);
      hide Step, Enabled, Reported;
      ReportedRun(Step(s, a), rest, page);
      assert a.Fetch? && a.page == page ==> Fetched(actions, page);
      if Fetched(rest, page) {
        var i :| 0 <= i < |rest| && rest[i].Fetch? && rest[i].page == page;
        assert actions[i + 1] == rest[i];
      }
      if Fetched(actions, page) {
        var i :| 0 <= i < |actions| && actions[i].Fetch? && actions[i].page == page;
        assert i > 0 ==> rest[i - 1] == actions[i];
      }
    }
  }

  /** In every run the results, with those about to be sent, are exactly the pages fetched, unchanged. */
  lemma FetchedIsReported(seed: string, max: nat, actions: seq<Action>, page: Page)
    requires Legal(Start(seed, max), actions)
    ensures var s := Final(Start(seed, max), actions);
            Fetched(actions, page) <==>
            page in s.results || exists w :: 0 <= w < |s.workers| && s.workers[w] == Sending(page)
  {
    ReportedRun(Start(seed, max), actions, page);
    assert !Reported(Start(seed, max), page);
    hide Legal, Final, Fetched;
  }

  // ---- Nothing is forgotten ----

  // A link that a worker has yet to look at.
  ghost predicate Pending(p: Phase, link: string) {
    (p.Scanning? && link in p.links) || ((p.Checking? || p.Enqueuing?) && link in p.rest)
  }

  // link stands on a page that was fetched with status 200.
  ghost predicate Found(s: State, link: string) {
    exists k :: 0 <= k < |s.results| && s.results[k].status == 200 && link in s.results[k].links
  }

  ghost predicate LinksFollowed(s: State) {
    forall link :: Found(s, link) ==>
                     link in s.visited || exists w :: 0 <= w < |s.workers| && Pending(s.workers[w], link)
  }

  // Nothing but the seed and links found is ever visited.
  ghost predicate OnlyFound(s: State, seed: string) {
    && (forall u :: u in s.visited ==> u == seed || Found(s, u))
    && (forall w, link :: 0 <= w < |s.workers| && Pending(s.workers[w], link) ==> Found(s, link))
  }

  ghost predicate NoneForgotten(s: State) {
    |s.visited| <= s.max ==>
      forall u :: u in s.visited ==>
                    u in s.enqueued || exists w :: 0 <= w < |s.workers| && Claims(s.workers[w], u)
  }

  // The worker has taken url and has not sent its result yet.
  ghost predicate Holds(p: Phase, url: string) {
    (p.Fetching? && p.url == url) || (p.Sending? && p.page.url == url)
  }

  ghost predicate Answered(s: State, url: string) {
    exists k :: 0 <= k < |s.results| && s.results[k].url == url
  }

  ghost predicate TakenAnswered(s: State) {
    forall u :: u in s.taken ==> Answered(s, u) || exists w :: 0 <= w < |s.workers| && Holds(s.workers[w], u)
  }

  ghost predicate Complete(s: State, seed: string) {
    seed in s.visited && LinksFollowed(s) && OnlyFound(s, seed) && NoneForgotten(s) && TakenAnswered(s)
  }

  // What one step of worker w does to the links found and the links pending.
  lemma LinksStep(s: State, a: Action)
    requires Inv(s) && Enabled(s, a)
    ensures var s', w := Step(s, a), a.w;
            && s'.workers == s.workers[w := s'.workers[w]] && s.visited <= s'.visited
            && (forall link :: Found(s', link) <==>
                                 Found(s, link) ||
                                 (a.Send? && s.workers[w].page.status == 200 && link in s.workers[w].page.links))
            && (forall link :: Pending(s'.workers[w], link) ==>
                                 Pending(s.workers[w], link) || (Found(s', link) && a.Send?))
            && (forall link :: Pending(s.workers[w], link) ==>
                                 Pending(s'.workers[w], link) || link in s'.visited)
            && (forall link :: Found(s', link) ==>
                                 Found(s, link) || Pending(s'.workers[w], link))
            && (forall u :: u in s'.visited ==> u in s.visited || Pending(s.workers[w], u))
  {
    var s', w := Step(s, a), a.w;
    if a.Send? {
      forall link
        ensures Found(s', link) <==>
                Found(s, link) || (s.workers[w].page.status == 200 && link in s.workers[w].page.links)
      {
        var n := |s.results|;
        assert s'.results[n] == s.workers[w].page && forall k :: 0 <= k < n ==> s'.results[k] == s.results[k];
      }
    } else {
      assert s'.results == s.results;
    }
  }

  lemma LinksKept(s: State, a: Action, seed: string)
    requires Inv(s) && Enabled(s, a) && LinksFollowed(s) && OnlyFound(s, seed)
    ensures LinksFollowed(Step(s, a)) && OnlyFound(Step(s, a), seed)
  {
    LinksStep(s, a);
    hide Inv, Step, Found, Pending;
    var s', w := Step(s, a), a.w;
    forall link | Found(s', link)
      ensures link in s'.visited || exists w :: 0 <= w < |s'.workers| && Pending(s'.workers[w], link)
    {
      if Found(s, link) && link !in s.visited {
        var v :| 0 <= v < |s.workers| && Pending(s.workers[v], link);
        assert v != w ==> s'.workers[v] == s.workers[v];
      }
    }
    forall v, link | 0 <= v < |s'.workers| && Pending(s'.workers[v], link)
      ensures Found(s', link)
    {
      assert v != w ==> s'.workers[v] == s.workers[v];
    }
  }

  lemma AnswersKept(s: State, a: Action)
    requires Enabled(s, a) && TakenAnswered(s)
    ensures TakenAnswered(Step(s, a))
  {
    var s', w := Step(s, a), a.w;
    forall u | u in s'.taken
      ensures Answered(s', u) || exists v :: 0 <= v < |s'.workers| && Holds(s'.workers[v], u)
    {
      if u !in s.taken {
        assert Holds(s'.workers[w], u);
      } else if Answered(s, u) {
        var k :| 0 <= k < |s.results| && s.results[k].url == u;
        assert s'.results[k].url == u;
      } else {
        var v :| 0 <= v < |s.workers| && Holds(s.workers[v], u);
        assert v != w ==> s'.workers[v] == s.workers[v];
        assert a.Send? ==> s'.results[|s.results|] == s.workers[w].page;
        assert v == w ==> Holds(s'.workers[w], u) || Answered(s', u);
      }
    }
  }

  lemma NoneForgottenKept(s: State, a: Action)
    requires Inv(s) && Enabled(s, a) && NoneForgotten(s)
    ensures NoneForgotten(Step(s, a))
  {
    var s', w := Step(s, a), a.w;
    if |s'.visited| <= s.max {
      SubsetSize(s.visited, s'.visited);
      AtMostMax(s, s.enqueued);
      forall u | u in s'.visited
        ensures u in s'.enqueued || exists v :: 0 <= v < |s'.workers| && Claims(s'.workers[v], u)
      {
        if u in s.visited && u !in s.enqueued {
          var v :| 0 <= v < |s.workers| && Claims(s.workers[v], u);
          assert v != w ==> s'.workers[v] == s.workers[v];
          assert Claims(s'.workers[v], u) || u in s'.enqueued;
        } else if u !in s.visited {
          assert Claims(s'.workers[w], u);
        }
      }
    }
  }

  lemma {:induction false} CompleteForever(s: State, actions: seq<Action>, seed: string)
    requires Inv(s) && Legal(s, actions) && Complete(s, seed)
    ensures Complete(Final(s, actions), seed)
    decreases |actions|
  {
    if actions != [] {
      var a := actions[0];
      StepKeeps(s, a);
      LinksStep(s, a);
      LinksKept(s, a, seed);
      NoneForgottenKept(s, a);
      AnswersKept(s, a);
      hide Inv, Step, LinksFollowed, OnlyFound, NoneForgotten, TakenAnswered;
      CompleteForever(Step(s, a), actions[1..], seed);
    }
  }

  lemma StartIsComplete(seed: string, max: nat)
    ensures Complete(Start(seed, max), seed)
  {
  }

  /** In every reachable state the only URLs visited are the seed and links on pages fetched with status
      200; every such link is visited or still before a worker; and as long as no more than max URLs are
      visited, every one of them has been put on the queue or is about to be. */
  lemma NothingIsForgotten(seed: string, max: nat, actions: seq<Action>)
    requires max >= 1 && Legal(Start(seed, max), actions)
    ensures var s := Final(Start(seed, max), actions);
            && (forall u :: u in s.visited ==> u == seed || Found(s, u))
            && (forall u :: u == seed || Found(s, u) ==>
                              u in s.visited || exists w :: 0 <= w < |s.workers| && Pending(s.workers[w], u))
            && (|s.visited| <= max ==>
                  forall u :: u in s.visited ==>
                                u in s.enqueued || exists w :: 0 <= w < |s.workers| && Claims(s.workers[w], u))
  {
    StartIsGood(seed, max);
    StartIsComplete(seed, max);
    InvForever(Start(seed, max), actions);
    CompleteForever(Start(seed, max), actions, seed);
    hide Final, Legal, Inv;
  }

  // The URLs of some results, one for one.
  function URLs(pages: seq<Page>): (urls: seq<string>)
    ensures |urls| == |pages| && forall k :: 0 <= k < |urls| ==> urls[k] == pages[k].url
  {
    seq(|pages|, k requires 0 <= k < |pages| => pages[k].url)
  }

  /** When the workers are idle and the queue is empty, exactly the seed and the links on pages fetched
      with status 200 are visited, and every URL ever enqueued has exactly one result. If no more than max
      URLs are visited, these are all of them. */
  lemma CrawlIsComplete(seed: string, max: nat, actions: seq<Action>)
    requires max >= 1 && Legal(Start(seed, max), actions)
    requires var s := Final(Start(seed, max), actions);
             s.queue == [] && forall w :: 0 <= w < |s.workers| ==> s.workers[w] == Idle
    ensures var s := Final(Start(seed, max), actions);
            && (forall u :: u in s.visited <==> u == seed || Found(s, u))
            && Distinct(URLs(s.results)) && (forall u :: u in URLs(s.results) <==> u in s.enqueued)
            && (|s.visited| <= max ==> forall u :: u in URLs(s.results) <==> u in s.visited)
  {
    StartIsGood(seed, max);
    StartIsComplete(seed, max);
    InvForever(Start(seed, max), actions);
    CompleteForever(Start(seed, max), actions, seed);
    hide Final, Legal, Found;
    var s := Final(Start(seed, max), actions);
    NoneBusyNow(s.workers);
    assert s.enqueued == s.taken && |URLs(s.results)| == |s.taken|;
    forall u | u in s.taken
      ensures u in URLs(s.results)
    {
      var k :| 0 <= k < |s.results| && s.results[k].url == u;
      assert URLs(s.results)[k] == u;
    }
    SameOnce(URLs(s.results), s.taken);
  }

  lemma {:induction false} NoneBusyNow(ws: seq<Phase>)
    requires forall w :: 0 <= w < |ws| ==> ws[w] == Idle
    ensures Busy(ws) == 0
  {
    if ws != [] {
      NoneBusyNow(ws[..|ws| - 1]);
    }
  }

  // As many as distinct strings that all occur: these strings and no others, each once.
  lemma SameOnce(s: seq<string>, t: seq<string>)
    requires |s| == |t| && Distinct(t) && forall u :: u in t ==> u in s
    ensures Distinct(s) && forall u :: u in s <==> u in t
  {
    DistinctSize(t);
    ElementsSize(s);
    forall u | u in Elements(t)
      ensures u in Elements(s)
    {
      assert u in t;
    }
    SubsetSize(Elements(t), Elements(s));
    AllOfThem(Elements(t), Elements(s));
    forall u
      ensures u in s <==> u in t
    {
      assert u in s <==> u in Elements(s);
      assert u in t <==> u in Elements(t);
    }
    forall i, j | 0 <= i < j < |s|
      ensures s[i] != s[j]
    {
      if s[i] == s[j] {
        WithoutRepeat(s, i, j);
      }
    }
  }

  lemma AllOfThem(a: set<string>, b: set<string>)
    requires a <= b && |a| >= |b|
    ensures a == b
  {
    if u :| u in b && u !in a {
      SubsetSize(a, b - {u});
    }
  }

  lemma WithoutRepeat(s: seq<string>, i: nat, j: nat)
    requires i < j < |s| && s[i] == s[j]
    ensures |Elements(s)| < |s|
  {
    var t := s[..j] + s[j + 1..];
    forall u | u in Elements(s)
      ensures u in Elements(t)
    {
      var k :| 0 <= k < |s| && s[k] == u;
      assert t[if k < j then k else if k == j then i else k - 1] == u;
    }
    SubsetSize(Elements(s), Elements(t));
    ElementsSize(t);
  }
}
