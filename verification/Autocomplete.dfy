/** The autocomplete trie: a tree of nodes with unordered children, updated in place, that answers
    exactly like a plain map from terms to accumulated frequencies. */
module Autocomplete {
  import opened Collections

  datatype Result = Result(term: string, freq: int)

  type Frequencies = map<string, int>

  function Lookup(m: Frequencies, t: string): int {
    if t in m then m[t] else 0
  }

  // ---- The order of results ----

  // Lexicographic order by code point.
  predicate Less(a: string, b: string) {
    if b == [] then false
    else if a == [] then true
    else if a[0] != b[0] then a[0] < b[0]
    else Less(a[1..], b[1..])
  }

  lemma {:induction false} LessTotal(a: string, b: string)
    ensures a != b ==> Less(a, b) || Less(b, a)
    ensures !(Less(a, b) && Less(b, a)) && !Less(a, a)
  {
    if a != [] && b != [] && a[0] == b[0] {
      LessTotal(a[1..], b[1..]);
      assert a == [a[0]] + a[1..] && b == [b[0]] + b[1..];
    }
    if a != [] {
      LessTotal(a[1..], a[1..]);
    }
  }

  lemma {:induction false} LessTransitive(a: string, b: string, c: string)
    requires Less(a, b) && Less(b, c)
    ensures Less(a, c)
  {
    if a != [] && a[0] == b[0] == c[0] {
      LessTransitive(a[1..], b[1..], c[1..]);
    }
  }

  // The first place at which two terms differ has the smaller character in a.
  ghost predicate SmallerAt(a: string, b: string, k: nat) {
    k < |a| && k < |b| && a[..k] == b[..k] && a[k] < b[k]
  }

  /** A term is less than another one if and only if it is a proper prefix of it or has the smaller
      character at the first place at which they differ. */
  lemma {:induction false} LessMeans(a: string, b: string)
    ensures Less(a, b) <==> a < b || exists k: nat :: SmallerAt(a, b, k)
  {
    if a != [] && b != [] && a[0] == b[0] {
      LessMeans(a[1..], b[1..]);
      assert a == [a[0]] + a[1..] && b == [b[0]] + b[1..];
      assert forall k: nat :: SmallerAt(a[1..], b[1..], k) ==> SmallerAt(a, b, k + 1);
      forall k: nat | SmallerAt(a, b, k)
        ensures k > 0 && SmallerAt(a[1..], b[1..], k - 1)
      {
        assert a[1..][..k - 1] == a[..k][1..] && b[1..][..k - 1] == b[..k][1..];
      }
    } else if a != [] && b != [] && a[0] < b[0] {
      assert SmallerAt(a, b, 0);
    }
  }

  // Higher frequency first, then smaller term.
  predicate Before(x: Result, y: Result) {
    if x.freq == y.freq then Less(x.term, y.term) else x.freq > y.freq
  }

  ghost predicate Ordered(s: seq<Result>) {
    forall i, j :: 0 <= i < j < |s| ==> Before(s[i], s[j])
  }

  // No two results for one term.
  ghost predicate DistinctTerms(s: seq<Result>) {
    forall i, j :: 0 <= i < j < |s| ==> s[i].term != s[j].term
  }

  function Insert(x: Result, s: seq<Result>): (r: seq<Result>)
    ensures forall y :: y in r <==> y == x || y in s
  {
    if s == [] || Before(x, s[0]) then [x] + s
    else
      var r := Insert(x, s[1..]);
      assert s == [s[0]] + s[1..];
      [s[0]] + r
  }

  // Sorting: any algorithm gives this result when no two terms are equal.
  function Sort(s: seq<Result>): (r: seq<Result>)
    ensures forall y :: y in r <==> y in s
  {
    if s == [] then []
    else
      assert s == [s[0]] + s[1..];
      Insert(s[0], Sort(s[1..]))
  }

  lemma {:induction false} InsertOrdered(x: Result, s: seq<Result>)
    requires Ordered(s) && forall y :: y in s ==> y.term != x.term
    ensures Ordered(Insert(x, s))
  {
    if s == [] {
    } else if Before(x, s[0]) {
      forall j | 1 <= j < |s|
        ensures Before(x, s[j])
      {
        BeforeTransitive(x, s[0], s[j]);
      }
    } else {
      assert s == [s[0]] + s[1..];
      LessTotal(x.term, s[0].term);
      InsertOrdered(x, s[1..]);
      var r := Insert(x, s[1..]);
      forall j | 0 <= j < |r|
        ensures Before(s[0], r[j])
      {
        assert r[j] in r;
        if r[j] != x {
          var k :| 0 <= k < |s[1..]| && s[1..][k] == r[j];
          assert s[k + 1] == r[j];
        }
      }
    }
  }

  lemma BeforeTransitive(x: Result, y: Result, z: Result)
    requires Before(x, y) && Before(y, z)
    ensures Before(x, z)
  {
    if x.freq == y.freq == z.freq {
      LessTransitive(x.term, y.term, z.term);
    }
  }

  lemma {:induction false} SortOrdered(s: seq<Result>)
    requires DistinctTerms(s)
    ensures Ordered(Sort(s))
  {
    if s != [] {
      SortOrdered(s[1..]);
      forall y | y in Sort(s[1..])
        ensures y.term != s[0].term
      {
        var k :| 0 <= k < |s[1..]| && s[1..][k] == y;
        assert s[k + 1] == y;
      }
      InsertOrdered(s[0], Sort(s[1..]));
    }
  }

  // ---- What a search means, on a plain frequency map ----

  ghost predicate Matches(m: Frequencies, prefix: string, r: Result) {
    prefix <= r.term && r.freq == Lookup(m, r.term) > 0
  }

  // All results for a prefix, best first.
  ghost predicate IsRanking(m: Frequencies, prefix: string, s: seq<Result>) {
    Ordered(s) && forall r :: r in s <==> Matches(m, prefix, r)
  }

  /** A ranking has each matching term once, a higher frequency first and, at equal frequencies, the term
      that is a prefix of the other one or has the smaller character where they first differ. */
  lemma RankingReads(m: Frequencies, prefix: string, s: seq<Result>)
    requires IsRanking(m, prefix, s)
    ensures forall r :: r in s <==> prefix <= r.term && r.term in m && 0 < m[r.term] == r.freq
    ensures forall i, j :: 0 <= i < j < |s| ==> s[i].freq >= s[j].freq && s[i].term != s[j].term
    ensures forall i, j :: 0 <= i < j < |s| && s[i].freq == s[j].freq ==>
                             s[i].term < s[j].term || exists k: nat :: SmallerAt(s[i].term, s[j].term, k)
  {
    forall i, j | 0 <= i < j < |s|
      ensures s[i].freq >= s[j].freq && s[i].term != s[j].term
      ensures s[i].freq == s[j].freq ==>
                s[i].term < s[j].term || exists k: nat :: SmallerAt(s[i].term, s[j].term, k)
    {
      assert Before(s[i], s[j]) && Matches(m, prefix, s[i]) && Matches(m, prefix, s[j]);
      LessMeans(s[i].term, s[j].term);
      LessTotal(s[i].term, s[j].term);
    }
  }

  function Truncate(s: seq<Result>, limit: int): seq<Result> {
    if limit > 0 && |s| > limit then s[..limit] else s
  }

  /** A frequency map has one ranking for a prefix, so a search does not depend on the order in
      which children are visited, nor on how results are sorted. */
  lemma {:induction false} RankingUnique(m: Frequencies, prefix: string, s: seq<Result>, t: seq<Result>)
    requires IsRanking(m, prefix, s) && IsRanking(m, prefix, t)
    ensures s == t
  {
    OrderedUnique(s, t);
  }

  lemma {:induction false} OrderedUnique(s: seq<Result>, t: seq<Result>)
    requires Ordered(s) && Ordered(t) && forall r :: r in s <==> r in t
    ensures s == t
  {
    if t != [] {
      assert t[0] in t;
    }
    if s != [] {
      assert s[0] in t && t != [] && t[0] in s;
      FirstIsSame(s, t);
      forall r
        ensures r in s[1..] <==> r in t[1..]
      {
        TailMember(s, r);
        TailMember(t, r);
      }
      OrderedUnique(s[1..], t[1..]);
      assert s == [s[0]] + s[1..] && t == [t[0]] + t[1..];
    }
  }

  lemma FirstIsSame(s: seq<Result>, t: seq<Result>)
    requires Ordered(s) && Ordered(t) && s != [] && t != [] && s[0] in t && t[0] in s
    ensures s[0] == t[0]
  {
    LessTotal(s[0].term, t[0].term);
  }

  lemma TailMember(s: seq<Result>, r: Result)
    requires Ordered(s) && s != []
    ensures r in s[1..] <==> r in s && r != s[0]
  {
    assert s == [s[0]] + s[1..];
    LessTotal(r.term, r.term);
  }

  /** Truncation keeps the best: a match that is left out comes after every result returned. */
  lemma TruncationKeepsBest(m: Frequencies, prefix: string, s: seq<Result>, limit: int, r: Result, i: nat)
    requires IsRanking(m, prefix, s) && i < |Truncate(s, limit)|
    requires Matches(m, prefix, r) && r !in Truncate(s, limit)
    ensures Before(Truncate(s, limit)[i], r) && |Truncate(s, limit)| == limit
  {
  }

  // ---- Accumulated frequencies ----

  function Accumulate(m: Frequencies, term: string, freq: int): Frequencies {
    m[term := Lookup(m, term) + freq]
  }

  function AccumulateAll(inserts: seq<(string, int)>): Frequencies {
    if inserts == [] then map[]
    else
      var last := inserts[|inserts| - 1];
      Accumulate(AccumulateAll(inserts[..|inserts| - 1]), last.0, last.1)
  }

  function SumFor(inserts: seq<(string, int)>, term: string): int {
    if inserts == [] then 0
    else
      var last := inserts[|inserts| - 1];
      SumFor(inserts[..|inserts| - 1], term) + if last.0 == term then last.1 else 0
  }

  /** After any inserts, in any order, a term's frequency is the sum inserted for it. */
  lemma {:induction false} FrequencyIsSum(inserts: seq<(string, int)>, term: string)
    ensures Lookup(AccumulateAll(inserts), term) == SumFor(inserts, term)
  {
    if inserts != [] {
      FrequencyIsSum(inserts[..|inserts| - 1], term);
    }
  }

  // ---- Listing part of a subtree ----

  // t lies at prefix, or below it through one of the children in `through`.
  ghost predicate Covered(t: string, prefix: string, through: set<char>) {
    prefix <= t && (|t| == |prefix| || t[|prefix|] in through)
  }

  // Every positive term at or below prefix is covered.
  ghost predicate CoversAll(m: Frequencies, prefix: string, through: set<char>) {
    forall t :: prefix <= t && Lookup(m, t) > 0 ==> Covered(t, prefix, through)
  }

  // `s` lists the positive terms covered, each once.
  ghost predicate Lists(m: Frequencies, prefix: string, through: set<char>, s: seq<Result>) {
    && DistinctTerms(s)
    && (forall i :: 0 <= i < |s| ==> Covered(s[i].term, prefix, through) && s[i].freq == Lookup(m, s[i].term) > 0)
    && (forall t :: Covered(t, prefix, through) && Lookup(m, t) > 0 ==> Result(t, Lookup(m, t)) in s)
  }

  lemma ListsHere(m: Frequencies, prefix: string, s: seq<Result>)
    requires s == if Lookup(m, prefix) > 0 then [Result(prefix, Lookup(m, prefix))] else []
    ensures Lists(m, prefix, {}, s)
  {
    assert forall t :: Covered(t, prefix, {}) <==> t == prefix;
  }

  lemma ListsMore(m: Frequencies, prefix: string, through: set<char>, c: char, all: set<char>,
                  s: seq<Result>, below: seq<Result>)
    requires Lists(m, prefix, through, s) && c !in through
    requires Lists(m, prefix + [c], all, below)
    requires CoversAll(m, prefix + [c], all)
    ensures Lists(m, prefix, through + {c}, s + below)
  {
    var r := s + below;
    assert forall t :: prefix + [c] <= t <==> prefix <= t && |t| > |prefix| && t[|prefix|] == c;
    forall i, j | 0 <= i < j < |r|
      ensures r[i].term != r[j].term
    {
      if i < |s| && j >= |s| {
        assert r[i] == s[i] && r[j] == below[j - |s|];
        assert Covered(s[i].term, prefix, through) && prefix + [c] <= below[j - |s|].term;
      } else if i >= |s| {
        assert r[i] == below[i - |s|] && r[j] == below[j - |s|];
      }
    }
    forall t | Covered(t, prefix, through + {c}) && Lookup(m, t) > 0
      ensures Result(t, Lookup(m, t)) in r
    {
      if !Covered(t, prefix, through) {
        assert prefix + [c] <= t;
      }
    }
  }

  lemma Associate(a: seq<Result>, b: seq<Result>, c: seq<Result>)
    ensures a + (b + c) == (a + b) + c
  {
  }

  // ---- The trie ----

  class Node {
    var children: map<char, Node>
    var freq: int

    constructor ()
      ensures children == map[] && freq == 0
    {
      children, freq := map[], 0;
    }
  }

  class Trie {
    const root: Node
    // The node at each path from the root, and the plain frequency map the trie stands for.
    ghost var nodes: map<string, Node>
    ghost var freqs: Frequencies

    // The child c of the node at p is the node at p + [c].
    ghost predicate Linked(p: string, c: char)
      requires p in nodes
      reads this, nodes.Values
    {
      && (c in nodes[p].children <==> p + [c] in nodes)
      && (c in nodes[p].children ==> nodes[p].children[c] == nodes[p + [c]])
    }

    ghost predicate HasParent(p: string)
      reads this
    {
      p != "" ==> p[..|p| - 1] in nodes
    }

    ghost predicate Counted(p: string)
      reads this, nodes.Values
    {
      (p in nodes ==> nodes[p].freq == Lookup(freqs, p)) && (p in freqs ==> p in nodes)
    }

    ghost predicate Tree()
      reads this, nodes.Values
    {
      && "" in nodes && nodes[""] == root
      && (forall p, q {:trigger nodes[p], nodes[q]} :: p in nodes && q in nodes && p != q ==> nodes[p] != nodes[q])
      && (forall p, c {:trigger Linked(p, c)} :: p in nodes ==> Linked(p, c))
      && (forall p {:trigger HasParent(p)} :: p in nodes ==> HasParent(p))
    }

    ghost predicate Valid()
      reads this, nodes.Values
    {
      Tree() && forall p {:trigger Counted(p)} :: Counted(p)
    }

    constructor ()
      ensures Valid() && freqs == map[] && fresh(nodes.Values)
    {
      var r := new Node();
      root := r;
      nodes := map["" := r];
      freqs := map[];
    }

    method Insert(term: string, freq: int)
      requires Valid()
      modifies this, nodes.Values
      ensures Valid() && freqs == Accumulate(old(freqs), term, freq)
      ensures freqs == old(freqs)[term := (if term in old(freqs) then old(freqs)[term] else 0) + freq]
      ensures fresh(nodes.Values - old(nodes.Values))
    {
      var cur := root;
      for i := 0 to |term|
        invariant Valid() && freqs == old(freqs)
        invariant term[..i] in nodes && cur == nodes[term[..i]]
        invariant fresh(nodes.Values - old(nodes.Values))
      {
        var ch := term[i];
        assert term[..i + 1] == term[..i] + [ch];
        assert Linked(term[..i], ch);
        if ch !in cur.children {
          cur := AddChild(cur, term[..i], ch);
        } else {
          cur := cur.children[ch];
        }
      }
      assert term[..|term|] == term;
      AddFrequency(cur, term, freq);
    }

    method AddFrequency(cur: Node, ghost term: string, freq: int)
      requires Valid() && term in nodes && cur == nodes[term]
      modifies this`freqs, cur`freq
      ensures Valid() && freqs == Accumulate(old(freqs), term, freq)
    {
      assert Counted(term);
      cur.freq := cur.freq + freq;
      freqs := Accumulate(freqs, term, freq);
      forall p
        ensures Counted(p)
      {
        assert old(Counted(p));
      }
      forall p, c | p in nodes
        ensures Linked(p, c)
      {
        assert old(Linked(p, c));
      }
      forall p | p in nodes
        ensures HasParent(p)
      {
        assert old(HasParent(p));
      }
    }

    method AddChild(cur: Node, ghost path: string, ch: char) returns (n: Node)
      requires Valid() && path in nodes && cur == nodes[path] && ch !in cur.children
      modifies this`nodes, cur`children
      ensures Valid()
      ensures nodes == old(nodes)[path + [ch] := n] && fresh(n)
    {
      n := new Node();
      assert Linked(path, ch);
      ghost var added := path + [ch];
      assert Counted(added);
      cur.children := cur.children[ch := n];
      nodes := nodes[added := n];
      forall p
        ensures Counted(p)
      {
        assert old(Counted(p));
      }
      forall p, c | p in nodes
        ensures Linked(p, c)
      {
        if p == added {
          NoGrandchild(old(nodes), added, c, old(HasParent(added + [c])));
        } else {
          assert old(Linked(p, c));
          assert p + [c] == added ==> p == path && c == ch by {
            assert |p + [c]| == |p| + 1;
            assert (p + [c])[..|p|] == p && added[..|path|] == path;
            assert (p + [c])[|p|] == c && added[|path|] == ch;
          }
        }
      }
      forall p | p in nodes
        ensures HasParent(p)
      {
        assert old(HasParent(p));
        assert added[..|added| - 1] == path;
      }
    }

    // Below a path that is not in the trie there is nothing.
    static lemma NoGrandchild(nodes: map<string, Node>, path: string, c: char, hasParent: bool)
      requires path !in nodes && (path + [c] in nodes ==> hasParent)
      requires hasParent ==> (path + [c])[..|path|] in nodes
      ensures path + [c] !in nodes
    {
    }

    method Increment(term: string)
      requires Valid()
      modifies this, nodes.Values
      ensures Valid() && freqs == Accumulate(old(freqs), term, 1)
      ensures freqs == old(freqs)[term := (if term in old(freqs) then old(freqs)[term] else 0) + 1]
      ensures fresh(nodes.Values - old(nodes.Values))
    {
      Insert(term, 1);
    }

    ghost function Below(prefix: string): set<string>
      reads this
    {
      set p | p in nodes && prefix <= p
    }

    lemma {:induction false} PrefixClosed(p: string, k: nat)
      requires Valid() && p in nodes && k <= |p|
      ensures p[..k] in nodes
      decreases |p| - k
    {
      if k < |p| {
        PrefixClosed(p, k + 1);
        assert HasParent(p[..k + 1]);
        assert p[..k + 1][..k] == p[..k];
      } else {
        assert p[..k] == p;
      }
    }

    // Every positive term below a node is reached through one of its children.
    lemma CoveredByChildren(prefix: string)
      requires Valid() && prefix in nodes
      ensures CoversAll(freqs, prefix, nodes[prefix].children.Keys)
    {
      forall t | prefix <= t && Lookup(freqs, t) > 0
        ensures Covered(t, prefix, nodes[prefix].children.Keys)
      {
        if |t| > |prefix| {
          assert Counted(t);
          PrefixClosed(t, |prefix| + 1);
          assert Linked(prefix, t[|prefix|]);
          assert t[..|prefix| + 1] == prefix + [t[|prefix|]];
        }
      }
    }

    // Appends the results at and below a node, visiting its children in an arbitrary order.
    method Collect(n: Node, prefix: string, results: seq<Result>) returns (out: seq<Result>, ghost found: seq<Result>)
      requires Valid() && prefix in nodes && n == nodes[prefix]
      ensures out == results + found && Lists(freqs, prefix, n.children.Keys, found)
      decreases |Below(prefix)|, 1
    {
      assert Counted(prefix);
      hide Lists, Covered, CoversAll, Below;
      out, found := results, [];
      if n.freq > 0 {
        out, found := out + [Result(prefix, n.freq)], [Result(prefix, n.freq)];
      }
      ListsHere(freqs, prefix, found);
      hide Valid, Lookup;
      var todo := n.children.Keys;
      ghost var done := {};
      while todo != {}
        invariant todo + done == n.children.Keys && todo !! done
        invariant out == results + found && Lists(freqs, prefix, done, found)
        decreases |todo|
      {
        var ch :| ch in todo;
        ghost var below;
        out, below := CollectChild(n, prefix, ch, out, found, done);
        Associate(results, found, below);
        found := found + below;
        todo, done := todo - {ch}, done + {ch};
      }
    }

    // One turn of the loop over the children: everything below one child, after what was found.
    method CollectChild(n: Node, prefix: string, ch: char, results: seq<Result>,
                        ghost found: seq<Result>, ghost done: set<char>)
      returns (out: seq<Result>, ghost below: seq<Result>)
      requires Valid() && prefix in nodes && n == nodes[prefix]
      requires ch in n.children && ch !in done && Lists(freqs, prefix, done, found)
      ensures out == results + below && Lists(freqs, prefix, done + {ch}, found + below)
      decreases |Below(prefix)|, 0
    {
      hide Lists, Covered, CoversAll, Below, Valid;
      ChildAt(prefix, ch);
      Smaller(prefix, ch);
      var child := n.children[ch];
      out, below := Collect(child, prefix + [ch], results);
      CoveredByChildren(prefix + [ch]);
      ListsMore(freqs, prefix, done, ch, child.children.Keys, found, below);
    }

    lemma ChildAt(prefix: string, ch: char)
      requires Valid() && prefix in nodes && ch in nodes[prefix].children
      ensures prefix + [ch] in nodes && nodes[prefix].children[ch] == nodes[prefix + [ch]]
    {
      assert Linked(prefix, ch);
    }

    lemma Smaller(prefix: string, ch: char)
      requires prefix in nodes
      ensures |Below(prefix + [ch])| < |Below(prefix)|
    {
      assert Below(prefix + [ch]) <= Below(prefix) - {prefix};
      SubsetSize(Below(prefix + [ch]), Below(prefix) - {prefix});
    }

    method Search(prefix: string, limit: int) returns (results: seq<Result>, ghost all: seq<Result>)
      requires Valid()
      ensures IsRanking(freqs, prefix, all) && results == Truncate(all, limit)
      ensures forall r :: r in all <==> prefix <= r.term && r.term in freqs && 0 < freqs[r.term] == r.freq
      ensures results <= all && |results| == if 0 < limit < |all| then limit else |all|
      ensures forall i, j :: 0 <= i < j < |all| ==>
                               all[i].freq >= all[j].freq && all[i].term != all[j].term
      ensures forall i, j :: 0 <= i < j < |all| && all[i].freq == all[j].freq ==>
                               all[i].term < all[j].term || exists k: nat :: SmallerAt(all[i].term, all[j].term, k)
    {
      all := [];
      var cur := root;
      for i := 0 to |prefix|
        invariant prefix[..i] in nodes && cur == nodes[prefix[..i]]
      {
        var ch := prefix[i];
        assert prefix[..i + 1] == prefix[..i] + [ch];
        assert Linked(prefix[..i], ch);
        if ch !in cur.children {
          NothingBelow(prefix, i + 1);
          return [], [];
        }
        cur := cur.children[ch];
      }
      assert prefix[..|prefix|] == prefix;
      var listed, found := Collect(cur, prefix, []);
      assert listed == found;
      CoveredByChildren(prefix);
      assert DistinctTerms(listed);
      SortOrdered(listed);
      results := Sort(listed);
      all := results;
      ListingIsRanking(prefix, cur.children.Keys, listed);
      RankingReads(freqs, prefix, all);
      if limit > 0 && |results| > limit {
        results := results[..limit];
      }
    }

    lemma ListingIsRanking(prefix: string, through: set<char>, s: seq<Result>)
      requires Lists(freqs, prefix, through, s)
      requires CoversAll(freqs, prefix, through)
      ensures forall r :: r in s <==> Matches(freqs, prefix, r)
    {
    }

    lemma NothingBelow(prefix: string, k: nat)
      requires Valid() && k <= |prefix| && prefix[..k] !in nodes
      ensures forall r :: !Matches(freqs, prefix, r)
    {
      forall r
        ensures !Matches(freqs, prefix, r)
      {
        if prefix <= r.term {
          assert r.term[..k] == prefix[..k];
          assert Counted(r.term);
          if r.term in nodes {
            PrefixClosed(r.term, k);
          }
        }
      }
    }
  }
}
