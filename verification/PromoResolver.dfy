/** Choosing which promotions apply: the best rule of each exclusivity group, then stackable rules
    in priority order, each taken from what the previous ones left. */
module PromoResolution {
  import opened Collections
  import opened PromoMoney
  import opened Rounding

  // `limited` says that the rule has usage limits, which the counter service checks.
  datatype Rule = Rule(
    id: string, priority: int, effect: Effect, limited: bool, stackable: bool, group: string, maxStackable: int)

  datatype AppliedRule = AppliedRule(rule: Rule, discountAmount: real)

  // A call to the usage counters for a rule, with its answer.
  datatype Call = Call(id: string, allowed: bool)

  // The usage counters: absent, or an answer for each rule, which depends on the calls before it.
  datatype Counter = NoCounter | Counter(allows: (seq<Call>, string) -> bool)

  datatype ResolveResult = ResolveResult(applied: seq<AppliedRule>, finalAmount: real, totalDiscount: real)

  datatype GroupRule = GroupRule(rule: Rule, discount: real)

  function ByPriority(r: Rule): real {
    r.priority as real
  }

  function ByDiscount(x: GroupRule): real {
    x.discount
  }

  // ---- Sorting, best first ----

  ghost predicate Descending<T>(s: seq<T>, key: T -> real) {
    forall i, j :: 0 <= i < j < |s| ==> key(s[i]) >= key(s[j])
  }

  lemma PrependDescending<T>(a: T, s: seq<T>, key: T -> real)
    requires Descending(s, key) && forall y :: y in s ==> key(a) >= key(y)
    ensures Descending([a] + s, key)
  {
  }

  lemma PrependDistinct<T>(a: T, s: seq<T>)
    requires Distinct(s) && a !in s
    ensures Distinct([a] + s)
  {
  }

  function InsertDescending<T(!new)>(x: T, s: seq<T>, key: T -> real): (r: seq<T>)
    requires Descending(s, key)
    ensures Descending(r, key) && forall y :: y in r <==> y == x || y in s
  {
    if s == [] || key(x) >= key(s[0]) then [x] + s
    else
      var r := InsertDescending(x, s[1..], key);
      assert s == [s[0]] + s[1..];
      PrependDescending(s[0], r, key);
      [s[0]] + r
  }

  function SortDescending<T(!new)>(s: seq<T>, key: T -> real): (r: seq<T>)
    ensures Descending(r, key) && forall y :: y in r <==> y in s
  {
    if s == [] then [] else
      assert s == [s[0]] + s[1..];
      InsertDescending(s[0], SortDescending(s[1..], key), key)
  }

  lemma {:induction false} InsertKeepsDistinct<T(!new)>(x: T, s: seq<T>, key: T -> real)
    requires Descending(s, key) && Distinct(s) && x !in s
    ensures Distinct(InsertDescending(x, s, key))
  {
    hide Distinct;
    if s == [] || key(x) >= key(s[0]) {
      PrependDistinct(x, s);
    } else {
      assert Distinct(s[1..]) by { TailDistinct(s); }
      assert s[0] !in s[1..] by { TailDistinct(s); }
      InsertKeepsDistinct(x, s[1..], key);
      PrependDistinct(s[0], InsertDescending(x, s[1..], key));
    }
  }

  lemma TailDistinct<T>(s: seq<T>)
    requires s != [] && Distinct(s)
    ensures Distinct(s[1..]) && s[0] !in s[1..]
  {
  }

  lemma {:induction false} SortKeepsDistinct<T(!new)>(s: seq<T>, key: T -> real)
    requires Distinct(s)
    ensures Distinct(SortDescending(s, key))
  {
    if s != [] {
      TailDistinct(s);
      SortKeepsDistinct(s[1..], key);
      InsertKeepsDistinct(s[0], SortDescending(s[1..], key), key);
    }
  }

  // ---- What a resolution is ----

  function Effects(applied: seq<AppliedRule>): seq<Effect> {
    seq(|applied|, i requires 0 <= i < |applied| => applied[i].rule.effect)
  }

  // Every reported amount is the rounded discount on what the earlier rules left.
  ghost predicate Chained(cart: real, applied: seq<AppliedRule>) {
    forall i :: 0 <= i < |applied| ==>
                  applied[i].discountAmount == Round2(DiscountAt(cart, Effects(applied), i))
  }

  // The rule is in the group and no validated rule of the group discounts the whole cart more.
  ghost predicate BestOfGroup(cart: real, validated: seq<Rule>, r: Rule) {
    && r.group != "" && r in validated
    && forall o :: o in validated && o.group == r.group ==>
                     CalculateDiscount(o.effect, cart) <= CalculateDiscount(r.effect, cart)
  }

  // The first g applied rules come from different groups and are the best of them; the rest are
  // stackable, in priority order, and within their own limit.
  ghost predicate WellChosen(cart: real, validated: seq<Rule>, applied: seq<AppliedRule>, g: nat) {
    && g <= |applied|
    && (forall i :: 0 <= i < g ==> BestOfGroup(cart, validated, applied[i].rule))
    && (forall i, j :: 0 <= i < j < g ==> applied[i].rule.group != applied[j].rule.group)
    && (forall i :: g <= i < |applied| ==>
          var r := applied[i].rule;
          r in validated && r.group == "" && r.stackable && (r.maxStackable > 0 ==> i - g < r.maxStackable))
    && (forall i, j :: g <= i < j < |applied| ==> applied[i].rule.priority >= applied[j].rule.priority)
  }

  // The rules of each group, with their discounts on the whole cart.
  ghost predicate Grouped(groups: map<string, seq<GroupRule>>, rules: seq<Rule>, cart: real) {
    && "" !in groups
    && (forall g :: g in groups ==> groups[g] != [])
    && (forall g, x :: g in groups ==>
          (x in groups[g] <==>
           x.rule in rules && x.rule.group == g && x.discount == CalculateDiscount(x.rule.effect, cart)))
    && (forall r :: r in rules && r.group != "" ==> r.group in groups)
  }

  lemma GroupedBySet(groups: map<string, seq<GroupRule>>, rules: seq<Rule>, rules': seq<Rule>, cart: real)
    requires Grouped(groups, rules, cart) && forall r :: r in rules <==> r in rules'
    ensures Grouped(groups, rules', cart)
  {
  }

  // ---- The calls to the counters ----

  // Each answer is the counters' own, after the calls before it; without counters nobody is called.
  ghost predicate Genuine(counter: Counter, log: seq<Call>) {
    && (counter.NoCounter? ==> log == [])
    && (counter.Counter? ==> forall i :: 0 <= i < |log| ==> log[i].allowed == counter.allows(log[..i], log[i].id))
  }

  function Granted(log: seq<Call>): seq<string> {
    if log == [] then []
    else Granted(log[..|log| - 1]) + if log[|log| - 1].allowed then [log[|log| - 1].id] else []
  }

  // The applied rules that the counters had to allow.
  function Counted(counter: Counter, applied: seq<AppliedRule>): seq<string> {
    if applied == [] then []
    else
      var last := applied[|applied| - 1].rule;
      Counted(counter, applied[..|applied| - 1]) + if counter.Counter? && last.limited then [last.id] else []
  }

  // Limits are enforced: the calls that granted something are, one for one and in order, those for
  // the limited rules applied.
  ghost predicate Enforced(counter: Counter, log: seq<Call>, applied: seq<AppliedRule>) {
    Genuine(counter, log) && Granted(log) == Counted(counter, applied)
  }

  // One of the calls turned the rule away.
  ghost predicate Refused(log: seq<Call>, r: Rule) {
    r.limited && exists i :: 0 <= i < |log| && log[i] == Call(r.id, false)
  }

  lemma StillEnforced(counter: Counter, log: seq<Call>, applied: seq<AppliedRule>, r: Rule, ok: bool,
                      log': seq<Call>, applied': seq<AppliedRule>)
    requires Enforced(counter, log, applied) && Genuine(counter, log')
    requires log' == if counter.Counter? && r.limited then log + [Call(r.id, ok)] else log
    requires counter.NoCounter? || !r.limited ==> ok
    requires ok ==> |applied'| == |applied| + 1 && applied'[..|applied|] == applied && applied'[|applied|].rule == r
    requires !ok ==> applied' == applied
    ensures Enforced(counter, log', applied') && log <= log' && (!ok ==> Refused(log', r))
  {
    hide Genuine;
    assert log' != log ==> log'[..|log|] == log && log'[|log|] == Call(r.id, ok);
  }

  /** A limited rule is applied only after the counters allowed it: one of the calls for it granted
      it, in the state the calls before had left. */
  lemma AppliedWasGranted(counter: Counter, log: seq<Call>, applied: seq<AppliedRule>, i: nat) returns (k: nat)
    requires Enforced(counter, log, applied) && counter.Counter? && i < |applied| && applied[i].rule.limited
    ensures k < |log| && log[k].id == applied[i].rule.id && counter.allows(log[..k], log[k].id)
  {
    var id := applied[i].rule.id;
    CountedMember(counter, applied, i);
    k := GrantedMember(log, id);
  }

  lemma {:induction false} CountedMember(counter: Counter, applied: seq<AppliedRule>, i: nat)
    requires counter.Counter? && i < |applied| && applied[i].rule.limited
    ensures applied[i].rule.id in Counted(counter, applied)
  {
    if i < |applied| - 1 {
      CountedMember(counter, applied[..|applied| - 1], i);
    }
  }

  lemma {:induction false} GrantedMember(log: seq<Call>, id: string) returns (k: nat)
    requires id in Granted(log)
    ensures k < |log| && log[k] == Call(id, true)
  {
    var last := |log| - 1;
    if log[last] == Call(id, true) {
      k := last;
    } else {
      k := GrantedMember(log[..last], id);
    }
  }

  // ---- No rule is missing without a reason ----

  // Some applied rule belongs to group g, or the best of the group was turned away.
  ghost predicate GroupSettled(log: seq<Call>, cart: real, validated: seq<Rule>, applied: seq<AppliedRule>, g: string) {
    || (exists i :: 0 <= i < |applied| && applied[i].rule.group == g)
    || exists r: Rule :: r.group == g && BestOfGroup(cart, validated, r) && Refused(log, r)
  }

  // As many rules of at least its priority are stacked as the rule allows before it.
  ghost predicate LimitReached(applied: seq<AppliedRule>, g: nat, r: Rule) {
    && 0 < r.maxStackable <= |applied| - g
    && forall i :: g <= i < g + r.maxStackable ==> applied[i].rule.priority >= r.priority
  }

  // A rule outside all groups is applied, or it does not stack, or its limit on how many stack
  // before it is used up, or it was turned away.
  ghost predicate StackSettled(log: seq<Call>, applied: seq<AppliedRule>, g: nat, r: Rule) {
    || !r.stackable
    || (exists i :: g <= i < |applied| && applied[i].rule == r)
    || LimitReached(applied, g, r)
    || Refused(log, r)
  }

  // Every validated rule got its chance.
  ghost predicate AllSettled(log: seq<Call>, cart: real, validated: seq<Rule>, applied: seq<AppliedRule>, g: nat) {
    && (forall r :: r in validated && r.group != "" ==> GroupSettled(log, cart, validated, applied, r.group))
    && (forall r :: r in validated && r.group == "" ==> StackSettled(log, applied, g, r))
  }

  lemma RefusedStays(log: seq<Call>, log': seq<Call>)
    requires log <= log'
    ensures forall r :: Refused(log, r) ==> Refused(log', r)
  {
    assert forall i :: 0 <= i < |log| ==> log'[i] == log[i];
  }

  lemma GroupStaysSettled(log: seq<Call>, log': seq<Call>, cart: real, validated: seq<Rule>,
                          applied: seq<AppliedRule>, applied': seq<AppliedRule>)
    requires applied <= applied' && log <= log'
    ensures forall h :: GroupSettled(log, cart, validated, applied, h) ==>
            GroupSettled(log', cart, validated, applied', h)
  {
    RefusedStays(log, log');
    hide BestOfGroup, Refused;
    assert forall i :: 0 <= i < |applied| ==> applied'[i] == applied[i];
  }

  lemma StackStaysSettled(log: seq<Call>, log': seq<Call>, applied: seq<AppliedRule>, applied': seq<AppliedRule>,
      g: nat)
    requires applied <= applied' && log <= log'
    ensures forall r :: StackSettled(log, applied, g, r) ==> StackSettled(log', applied', g, r)
  {
    RefusedStays(log, log');
    hide Refused;
    assert forall i :: 0 <= i < |applied| ==> applied'[i] == applied[i];
  }

  // No rule is applied twice.
  ghost predicate AppliedOnce(applied: seq<AppliedRule>) {
    forall i, j :: 0 <= i < j < |applied| ==> applied[i].rule != applied[j].rule
  }

  lemma NothingApplied(cart: real, validated: seq<Rule>)
    ensures Chained(cart, []) && WellChosen(cart, validated, [], 0) && RemainingAfter(cart, Effects([])) == cart
  {
  }

  lemma ChooseForGroup(cart: real, validated: seq<Rule>, applied: seq<AppliedRule>, applied': seq<AppliedRule>, r: Rule)
    requires WellChosen(cart, validated, applied, |applied|) && BestOfGroup(cart, validated, r)
    requires forall i :: 0 <= i < |applied| ==> applied[i].rule.group != r.group
    requires |applied'| == |applied| + 1 && applied'[..|applied|] == applied && applied'[|applied|].rule == r
    ensures WellChosen(cart, validated, applied', |applied'|)
  {
  }

  lemma ChooseStackable(cart: real, validated: seq<Rule>, applied: seq<AppliedRule>, applied': seq<AppliedRule>,
      g: nat, r: Rule)
    requires WellChosen(cart, validated, applied, g)
    requires r in validated && r.group == "" && r.stackable && (r.maxStackable > 0 ==> |applied| - g < r.maxStackable)
    requires forall i :: g <= i < |applied| ==> applied[i].rule.priority >= r.priority
    requires |applied'| == |applied| + 1 && applied'[..|applied|] == applied && applied'[|applied|].rule == r
    ensures WellChosen(cart, validated, applied', g)
  {
    hide BestOfGroup;
    assert forall i :: 0 <= i < |applied| ==> applied'[i] == applied[i];
  }

  lemma Extended(cart: real, applied: seq<AppliedRule>, r: Rule)
    requires Chained(cart, applied)
    ensures var before := RemainingAfter(cart, Effects(applied));
            var d := CalculateDiscount(r.effect, before);
            var applied' := applied + [AppliedRule(r, Round2(d))];
            Chained(cart, applied') && RemainingAfter(cart, Effects(applied')) == Round2(before - d)
  {
    var before := RemainingAfter(cart, Effects(applied));
    var d := CalculateDiscount(r.effect, before);
    var applied' := applied + [AppliedRule(r, Round2(d))];
    assert Effects(applied')[..|applied|] == Effects(applied);
    hide RemainingAfter, CalculateDiscount, Round2;
    forall i | 0 <= i < |applied'|
      ensures applied'[i].discountAmount == Round2(DiscountAt(cart, Effects(applied'), i))
    {
      assert i < |applied| ==> Effects(applied')[..i] == Effects(applied)[..i];
      assert DiscountAt(cart, Effects(applied'), i) ==
             if i < |applied| then DiscountAt(cart, Effects(applied), i) else d;
    }
    LastStep(cart, Effects(applied'));
  }

  lemma LastStep(cart: real, effects: seq<Effect>)
    requires effects != []
    ensures var last := |effects| - 1;
            var before := RemainingAfter(cart, effects[..last]);
            RemainingAfter(cart, effects) == Round2(before - CalculateDiscount(effects[last], before))
  {
  }

  /** Whatever the rules and in whatever order groups are taken: for a non-negative whole-cent cart
      and conforming effects the final amount lies between 0 and the cart total, final amount and
      discount make up the cart total, and the reported amounts exceed the discount by at most one
      cent per applied rule. */
  lemma {:induction false} ResolutionConservesMoney(c: int, applied: seq<AppliedRule>)
    requires c >= 0 && Chained(Cents(c), applied)
    requires forall i :: 0 <= i < |applied| ==> Conforming(applied[i].rule.effect)
    ensures var final, total := FinalAmount(Cents(c), Effects(applied)), TotalDiscount(Cents(c), Effects(applied));
            && 0.0 <= final <= Cents(c) && final + total == Cents(c)
            && total <= SumReported(applied) <= total + Cents(|applied|)
  {
    hide Conforming, RemainingAfter, Round2, FinalAmount, TotalDiscount;
    ConformingIsSound(c, Effects(applied));
    ReportedIsSum(Cents(c), applied, |applied|);
    assert applied[..|applied|] == applied;
  }

  function SumReported(applied: seq<AppliedRule>): real {
    if applied == [] then 0.0
    else SumReported(applied[..|applied| - 1]) + applied[|applied| - 1].discountAmount
  }

  lemma {:induction false} ReportedIsSum(cart: real, applied: seq<AppliedRule>, n: nat)
    requires Chained(cart, applied) && n <= |applied|
    ensures SumReported(applied[..n]) == ReportedDiscounts(cart, Effects(applied), n)
  {
    hide Round2, DiscountAt;
    if n > 0 {
      assert applied[..n][..n - 1] == applied[..n - 1];
      ReportedIsSum(cart, applied, n - 1);
    }
  }

  // Everything a resolution promises about the rules it applies and the calls it makes.
  ghost predicate Resolved(counter: Counter, cart: real, validated: seq<Rule>, applied: seq<AppliedRule>, g: nat,
                           log: seq<Call>) {
    && Chained(cart, applied) && WellChosen(cart, validated, applied, g)
    && Enforced(counter, log, applied)
    && AllSettled(log, cart, validated, applied, g)
    && (Distinct(validated) ==> AppliedOnce(applied))
  }

  /** A resolution in plain terms, for the rules applied: each group's rule takes at least as much off the
      whole cart as any of its group, groups come first and once each, the rest stack by falling priority and
      each with fewer than its limit before it, and every amount is rounded from what is left at its turn. */
  lemma AppliedReads(counter: Counter, cart: real, validated: seq<Rule>, applied: seq<AppliedRule>, g: nat,
                     log: seq<Call>)
    requires Resolved(counter, cart, validated, applied, g, log)
    ensures g <= |applied| && forall i :: 0 <= i < |applied| ==> applied[i].rule in validated
    ensures forall i, o :: 0 <= i < g && o in validated && o.group == applied[i].rule.group ==>
                             CalculateDiscount(o.effect, cart) <= CalculateDiscount(applied[i].rule.effect, cart)
    ensures forall i :: 0 <= i < g ==> applied[i].rule.group != ""
    ensures forall i, j :: 0 <= i < j < g ==> applied[i].rule.group != applied[j].rule.group
    ensures forall i :: g <= i < |applied| ==>
                          var r := applied[i].rule;
                          r.group == "" && r.stackable && (r.maxStackable <= 0 || i - g < r.maxStackable)
    ensures forall i, j :: g <= i < j < |applied| ==> applied[i].rule.priority >= applied[j].rule.priority
    ensures forall i :: 0 <= i < |applied| ==>
                          var left := RemainingAfter(cart, Effects(applied)[..i]);
                          applied[i].discountAmount == Round2(CalculateDiscount(applied[i].rule.effect, left))
  {
    hide CalculateDiscount, Round2, RemainingAfter, Enforced, AllSettled, AppliedOnce;
  }

  // A call of the run turned the rule away, as the counters would after the calls before it.
  ghost predicate TurnedAway(counter: Counter, log: seq<Call>, r: Rule) {
    counter.Counter? && r.limited && exists k :: 0 <= k < |log| && log[k].id == r.id && !counter.allows(log[..k], r.id)
  }

  /** And for the rules not applied: a group without a rule had its best one turned away; a rule that stacks
      was turned away itself, or as many as its limit allows of at least its priority were stacked first. No
      rule is applied twice. */
  lemma MissingReads(counter: Counter, cart: real, validated: seq<Rule>, applied: seq<AppliedRule>, g: nat,
                     log: seq<Call>, o: Rule)
    requires Resolved(counter, cart, validated, applied, g, log) && o in validated
    ensures o.group != "" && (forall i :: 0 <= i < |applied| ==> applied[i].rule.group != o.group) ==>
              exists r: Rule :: r in validated && r.group == o.group && TurnedAway(counter, log, r) &&
                                forall x :: x in validated && x.group == o.group ==>
                                              CalculateDiscount(x.effect, cart) <= CalculateDiscount(r.effect, cart)
    ensures o.group == "" && o.stackable && (forall i :: 0 <= i < |applied| ==> applied[i].rule != o) ==>
              || TurnedAway(counter, log, o)
              || (0 < o.maxStackable <= |applied| - g &&
                  forall i :: g <= i < g + o.maxStackable ==> applied[i].rule.priority >= o.priority)
    ensures Distinct(validated) ==> forall i, j :: 0 <= i < j < |applied| ==> applied[i].rule != applied[j].rule
  {
    hide CalculateDiscount, Chained, WellChosen, Granted, Counted;
    forall r | Refused(log, r)
      ensures TurnedAway(counter, log, r)
    {
      var k :| 0 <= k < |log| && log[k] == Call(r.id, false);
    }
    if o.group != "" {
      assert GroupSettled(log, cart, validated, applied, o.group);
    } else {
      assert StackSettled(log, applied, g, o);
    }
  }

  /** The counters grant nothing for nothing: every call they allowed is for a limited rule that is applied. */
  lemma GrantedIsApplied(counter: Counter, log: seq<Call>, applied: seq<AppliedRule>, k: nat)
    returns (i: nat)
    requires Granted(log) == Counted(counter, applied) && k < |log| && log[k].allowed
    ensures i < |applied| && applied[i].rule.limited && applied[i].rule.id == log[k].id && counter.Counter?
  {
    GrantedHas(log, k);
    i := CountedHas(counter, applied, log[k].id);
  }

  lemma {:induction false} GrantedHas(log: seq<Call>, k: nat)
    requires k < |log| && log[k].allowed
    ensures log[k].id in Granted(log)
  {
    if k < |log| - 1 {
      GrantedHas(log[..|log| - 1], k);
    }
  }

  lemma {:induction false} CountedHas(counter: Counter, applied: seq<AppliedRule>, id: string) returns (i: nat)
    requires id in Counted(counter, applied)
    ensures i < |applied| && applied[i].rule.limited && applied[i].rule.id == id && counter.Counter?
  {
    var last := |applied| - 1;
    if counter.Counter? && applied[last].rule.limited && applied[last].rule.id == id {
      i := last;
    } else {
      i := CountedHas(counter, applied[..last], id);
    }
  }

  // ---- Limits on how many rules of a group stack ----

  function InGroup(applied: seq<AppliedRule>, group: string): nat {
    if applied == [] then 0
    else InGroup(applied[..|applied| - 1], group) + if applied[|applied| - 1].rule.group == group then 1 else 0
  }

  // No applied rule has more rules of its group applied, itself included, than its limit. Rules
  // without a group count as one.
  ghost predicate LimitsKept(applied: seq<AppliedRule>) {
    forall i :: 0 <= i < |applied| && applied[i].rule.maxStackable > 0 ==>
                  InGroup(applied, applied[i].rule.group) <= applied[i].rule.maxStackable
  }

  // Different rules, each of one of the given kinds: like it but for the id.
  ghost predicate OfKinds(validated: seq<Rule>, kinds: seq<Rule>) {
    Distinct(validated) && forall r :: r in validated ==> exists k :: k in kinds && r == k.(id := r.id)
  }

  // Both stack outside all groups, a may come before b, and b may still be stacked when a's limit
  // is used up.
  predicate Overruns(a: Rule, b: Rule) {
    && a.group == "" && b.group == "" && a.stackable && b.stackable && a.priority >= b.priority
    && a.maxStackable > 0 && (b.maxStackable <= 0 || b.maxStackable > a.maxStackable)
  }

  lemma {:induction false} UngroupedCount(cart: real, validated: seq<Rule>, applied: seq<AppliedRule>, g: nat, n: nat)
    requires WellChosen(cart, validated, applied, g) && n <= |applied|
    ensures InGroup(applied[..n], "") == if n <= g then 0 else n - g
  {
    if n > 0 {
      UngroupedCount(cart, validated, applied, g, n - 1);
      assert applied[..n][..n - 1] == applied[..n - 1];
      assert n <= g ==> BestOfGroup(cart, validated, applied[n - 1].rule);
    }
  }

  lemma {:induction false} GroupedCount(cart: real, validated: seq<Rule>, applied: seq<AppliedRule>, g: nat, n: nat,
                                        group: string)
    requires WellChosen(cart, validated, applied, g) && n <= |applied| && group != ""
    ensures InGroup(applied[..n], group) <= 1
    ensures (forall i :: 0 <= i < n ==> applied[i].rule.group != group) ==> InGroup(applied[..n], group) == 0
  {
    hide BestOfGroup;
    if n > 0 {
      GroupedCount(cart, validated, applied, g, n - 1, group);
      assert applied[..n][..n - 1] == applied[..n - 1];
    }
  }

  lemma KeptWithoutOverrun(kinds: seq<Rule>, cart: real, validated: seq<Rule>, applied: seq<AppliedRule>, g: nat)
    requires OfKinds(validated, kinds) && WellChosen(cart, validated, applied, g)
    requires forall a, b :: a in kinds && b in kinds ==> !Overruns(a, b)
    ensures LimitsKept(applied)
  {
    forall i | 0 <= i < |applied| && applied[i].rule.maxStackable > 0
      ensures InGroup(applied, applied[i].rule.group) <= applied[i].rule.maxStackable
    {
      var a := applied[i].rule;
      assert applied[..|applied|] == applied;
      if a.group != "" {
        GroupedCount(cart, validated, applied, g, |applied|, a.group);
      } else {
        UngroupedCount(cart, validated, applied, g, |applied|);
        UngroupedIsStacked(cart, validated, applied, g, i);
        if |applied| - g > a.maxStackable {
          NoneAfter(kinds, cart, validated, applied, g, i);
        }
      }
    }
  }

  lemma UngroupedIsStacked(cart: real, validated: seq<Rule>, applied: seq<AppliedRule>, g: nat, i: nat)
    requires WellChosen(cart, validated, applied, g) && i < |applied| && applied[i].rule.group == ""
    ensures g <= i
  {
  }

  // The rule stacked when i's limit is used up overruns it.
  lemma NoneAfter(kinds: seq<Rule>, cart: real, validated: seq<Rule>, applied: seq<AppliedRule>, g: nat, i: nat)
    requires OfKinds(validated, kinds) && WellChosen(cart, validated, applied, g) && g <= i < |applied|
    requires 0 < applied[i].rule.maxStackable < |applied| - g
    ensures exists a, b :: a in kinds && b in kinds && Overruns(a, b)
  {
    hide BestOfGroup, Distinct;
    var last := g + applied[i].rule.maxStackable;
    var r, r' := applied[i].rule, applied[last].rule;
    assert r in validated && r' in validated;
    var a :| a in kinds && r == a.(id := r.id);
    var b :| b in kinds && r' == b.(id := r'.id);
    assert Overruns(a, b);
  }

  // ---- A resolution that overruns a limit ----

  // Applies the rules one after the other.
  ghost function Applying(cart: real, rules: seq<Rule>): (applied: seq<AppliedRule>)
    ensures |applied| == |rules| && forall i :: 0 <= i < |rules| ==> applied[i].rule == rules[i]
  {
    if rules == [] then []
    else
      var last := |rules| - 1;
      var before := Applying(cart, rules[..last]);
      var d := CalculateDiscount(rules[last].effect, RemainingAfter(cart, Effects(before)));
      before + [AppliedRule(rules[last], Round2(d))]
  }

  lemma {:induction false} ApplyingChains(cart: real, rules: seq<Rule>)
    ensures Chained(cart, Applying(cart, rules))
  {
    if rules != [] {
      var last := |rules| - 1;
      ApplyingChains(cart, rules[..last]);
      Extended(cart, Applying(cart, rules[..last]), rules[last]);
      hide Chained, CalculateDiscount, RemainingAfter, Effects, Round2;
    }
  }

  lemma {:induction false} NothingCounted(applied: seq<AppliedRule>)
    ensures Counted(NoCounter, applied) == []
  {
    if applied != [] {
      NothingCounted(applied[..|applied| - 1]);
    }
  }

  function Mark(n: nat): string {
    seq(n, _ => 'x')
  }

  // n rules like a, then one like b.
  function Crowd(a: Rule, n: nat, b: Rule): seq<Rule> {
    seq(n + 1, i requires 0 <= i < n + 1 => if i < n then a.(id := Mark(i)) else b.(id := Mark(n)))
  }

  lemma CrowdIsDistinct(a: Rule, n: nat, b: Rule)
    ensures Distinct(Crowd(a, n, b))
  {
    var c := Crowd(a, n, b);
    forall i, j | 0 <= i < j < |c|
      ensures c[i] != c[j]
    {
      assert |c[i].id| == i && |c[j].id| == j;
    }
  }

  /** Two such rules do overrun: as many of the first as its limit allows, then the second, are all
      applied, without any counters and on every cart. */
  lemma OverrunHappens(cart: real, kinds: seq<Rule>, a: Rule, b: Rule)
    returns (validated: seq<Rule>, applied: seq<AppliedRule>)
    requires a in kinds && b in kinds && Overruns(a, b)
    ensures OfKinds(validated, kinds) && Resolved(NoCounter, cart, validated, applied, 0, []) && !LimitsKept(applied)
  {
    var n := a.maxStackable;
    validated := Crowd(a, n, b);
    applied := Applying(cart, validated);
    ApplyingChains(cart, validated);
    CrowdIsDistinct(a, n, b);
    CrowdOfKinds(kinds, a, n, b);
    CrowdChosen(cart, a, b, applied);
    CrowdSettled(cart, a, b, validated, applied);
    CrowdOverruns(cart, a, b, applied);
    UncountedIsEnforced(applied);
    hide Chained, WellChosen, Enforced, AllSettled, AppliedOnce, Distinct, LimitsKept, OfKinds, Crowd, Overruns;
  }

  lemma UncountedIsEnforced(applied: seq<AppliedRule>)
    ensures Enforced(NoCounter, [], applied)
  {
    NothingCounted(applied);
  }

  lemma CrowdOverruns(cart: real, a: Rule, b: Rule, applied: seq<AppliedRule>)
    requires Overruns(a, b) && WellChosen(cart, Crowd(a, a.maxStackable, b), applied, 0)
    requires var c := Crowd(a, a.maxStackable, b);
             |applied| == |c| && forall i :: 0 <= i < |c| ==> applied[i].rule == c[i]
    ensures !LimitsKept(applied)
  {
    var n := a.maxStackable;
    CrowdFirst(a, n, b);
    UngroupedCount(cart, Crowd(a, n, b), applied, 0, n + 1);
    hide WellChosen, InGroup;
    assert applied[..n + 1] == applied;
    assert applied[0].rule == Crowd(a, n, b)[0];
  }

  lemma CrowdFirst(a: Rule, n: nat, b: Rule)
    requires n > 0
    ensures Crowd(a, n, b)[0].maxStackable == a.maxStackable && Crowd(a, n, b)[0].group == a.group
  {
  }

  lemma CrowdOfKinds(kinds: seq<Rule>, a: Rule, n: nat, b: Rule)
    requires a in kinds && b in kinds && Distinct(Crowd(a, n, b))
    ensures OfKinds(Crowd(a, n, b), kinds)
  {
    var c := Crowd(a, n, b);
    hide Distinct;
    forall r | r in c
      ensures exists k :: k in kinds && r == k.(id := r.id)
    {
      var i :| 0 <= i < |c| && c[i] == r;
      assert r == (if i < n then a else b).(id := r.id);
    }
  }

  lemma CrowdChosen(cart: real, a: Rule, b: Rule, applied: seq<AppliedRule>)
    requires Overruns(a, b)
    requires var c := Crowd(a, a.maxStackable, b);
             |applied| == |c| && forall i :: 0 <= i < |c| ==> applied[i].rule == c[i]
    ensures WellChosen(cart, Crowd(a, a.maxStackable, b), applied, 0)
  {
    var c := Crowd(a, a.maxStackable, b);
    forall i | 0 <= i < |applied|
      ensures applied[i].rule in c
    {
      assert c[i] in c;
    }
  }

  lemma CrowdSettled(cart: real, a: Rule, b: Rule, c: seq<Rule>, applied: seq<AppliedRule>)
    requires WellChosen(cart, c, applied, 0) && Distinct(c)
    requires |applied| == |c| && forall i :: 0 <= i < |c| ==> applied[i].rule == c[i]
    ensures AllSettled([], cart, c, applied, 0) && AppliedOnce(applied)
  {
    forall r | r in c
      ensures r.group == "" && StackSettled([], applied, 0, r)
    {
      var i :| 0 <= i < |c| && c[i] == r;
      assert applied[i].rule == r;
    }
  }

  ghost predicate AlwaysKept(kinds: seq<Rule>) {
    forall counter, cart, validated, applied, g, log ::
      OfKinds(validated, kinds) && Resolved(counter, cart, validated, applied, g, log) ==> LimitsKept(applied)
  }

  /** The stacking limits of a set of kinds of rules are kept in every resolution, for every cart, list of
      such rules and answers of the counters, if and only if no two kinds overrun: none can be stacked
      after another one's limit is used up. */
  lemma LimitsKeptIff(kinds: seq<Rule>)
    ensures AlwaysKept(kinds) <==> forall a, b :: a in kinds && b in kinds ==> !Overruns(a, b)
  {
    hide OfKinds, LimitsKept, Overruns;
    if forall a, b :: a in kinds && b in kinds ==> !Overruns(a, b) {
      forall counter, cart, validated, applied, g, log |
        OfKinds(validated, kinds) && Resolved(counter, cart, validated, applied, g, log)
        ensures LimitsKept(applied)
      {
        hide Chained, WellChosen, Enforced, AllSettled;
        KeptWithoutOverrun(kinds, cart, validated, applied, g);
      }
    } else {
      var a, b :| a in kinds && b in kinds && Overruns(a, b);
      var validated, applied := OverrunHappens(0.0, kinds, a, b);
    }
  }

  // ---- The resolver ----

  class PromoResolver {
    const counter: Counter

    constructor (counter: Counter)
      ensures this.counter == counter
    {
      this.counter := counter;
    }

    // The calls made so far are the state of the counters.
    method TryReserve(rule: Rule, log: seq<Call>) returns (ok: bool, log': seq<Call>)
      requires Genuine(counter, log)
      ensures Genuine(counter, log')
      ensures log' == if counter.Counter? && rule.limited then log + [Call(rule.id, ok)] else log
      ensures counter.NoCounter? || !rule.limited ==> ok
    {
      if counter.NoCounter? {
        return true, log;
      }
      if rule.limited {
        ok := counter.allows(log, rule.id);
        log' := log + [Call(rule.id, ok)];
        assert forall i :: 0 <= i < |log| ==> log'[..i] == log[..i];
        assert log'[..|log|] == log;
        return;
      }
      return true, log;
    }

    // Splits the sorted rules by exclusivity group.
    method Split(rules: seq<Rule>, cart: real) returns (groups: map<string, seq<GroupRule>>, stackable: seq<Rule>)
      ensures Grouped(groups, rules, cart)
      ensures forall r :: r in stackable <==> r in rules && r.group == ""
      ensures Descending(rules, ByPriority) ==> Descending(stackable, ByPriority)
      ensures Distinct(rules) ==> Distinct(stackable)
    {
      groups, stackable := map[], [];
      hide CalculateDiscount;
      for i := 0 to |rules|
        invariant "" !in groups
        invariant forall g :: g in groups ==> groups[g] != []
        invariant forall g, x :: g in groups ==>
                                   (x in groups[g] <==>
                                    x.rule in rules[..i] && x.rule.group == g &&
                                    x.discount == CalculateDiscount(x.rule.effect, cart))
        invariant forall r :: r in rules[..i] && r.group != "" ==> r.group in groups
        invariant forall r :: r in stackable <==> r in rules[..i] && r.group == ""
        invariant Descending(rules, ByPriority) ==> Descending(stackable, ByPriority)
        invariant Distinct(rules) ==> Distinct(stackable)
      {
        var rule := rules[i];
        assert rules[..i + 1] == rules[..i] + [rule];
        if rule.group != "" {
          var disc := CalculateDiscount(rule.effect, cart);
          var sofar := if rule.group in groups then groups[rule.group] else [];
          groups := groups[rule.group := sofar + [GroupRule(rule, disc)]];
        } else {
          stackable := stackable + [rule];
        }
      }
      assert rules[..|rules|] == rules;
    }

    method SortAndSplit(validated: seq<Rule>, cart: real)
      returns (groups: map<string, seq<GroupRule>>, stackable: seq<Rule>)
      ensures Grouped(groups, validated, cart)
      ensures forall r :: r in stackable <==> r in validated && r.group == ""
      ensures Descending(stackable, ByPriority) && (Distinct(validated) ==> Distinct(stackable))
    {
      var sorted := SortDescending(validated, ByPriority);
      groups, stackable := Split(sorted, cart);
      hide CalculateDiscount;
      GroupedBySet(groups, sorted, validated, cart);
      if Distinct(validated) {
        SortKeepsDistinct(validated, ByPriority);
      }
    }

    // What holds between turns of the loop over groups; `todo` are the groups still to come.
    ghost predicate Progress(cart: real, validated: seq<Rule>, groups: map<string, seq<GroupRule>>,
                             applied: seq<AppliedRule>, remaining: real, log: seq<Call>, todo: set<string>) {
      && Chained(cart, applied) && remaining == RemainingAfter(cart, Effects(applied))
      && WellChosen(cart, validated, applied, |applied|) && Enforced(counter, log, applied)
      && (forall i :: 0 <= i < |applied| ==> applied[i].rule.group !in todo)
      && (forall g :: g in groups && g !in todo ==> GroupSettled(log, cart, validated, applied, g))
    }

    // The best rule of each group, groups in an arbitrary order.
    method ApplyGroups(validated: seq<Rule>, groups: map<string, seq<GroupRule>>, cart: real)
      returns (applied: seq<AppliedRule>, remaining: real, log: seq<Call>)
      requires Grouped(groups, validated, cart)
      ensures Progress(cart, validated, groups, applied, remaining, log, {})
    {
      applied, remaining, log := [], cart, [];
      var todo := groups.Keys;
      assert Progress(cart, validated, groups, applied, remaining, log, todo) by {
        NothingApplied(cart, validated);
      }
      hide Progress, Grouped;
      while todo != {}
        invariant todo <= groups.Keys
        invariant Progress(cart, validated, groups, applied, remaining, log, todo)
        decreases |todo|
      {
        var g :| g in todo;
        applied, remaining, log := ApplyGroup(validated, groups, cart, g, applied, remaining, log, todo);
        todo := todo - {g};
      }
    }

    // One turn of that loop.
    method ApplyGroup(validated: seq<Rule>, groups: map<string, seq<GroupRule>>, cart: real, g: string,
                      applied: seq<AppliedRule>, remaining: real, log: seq<Call>, ghost todo: set<string>)
      returns (applied': seq<AppliedRule>, remaining': real, log': seq<Call>)
      requires Grouped(groups, validated, cart) && g in groups && g in todo
      requires Progress(cart, validated, groups, applied, remaining, log, todo)
      ensures Progress(cart, validated, groups, applied', remaining', log', todo - {g})
    {
      hide GroupSettled, WellChosen, Grouped, Genuine;
      var best := BestIn(groups, validated, cart, g);
      var ok;
      ok, log' := TryReserve(best, log);
      applied', remaining' := applied, remaining;
      if ok {
        applied', remaining' := Apply(cart, applied, remaining, best);
      }
      StillEnforced(counter, log, applied, best, ok, log', applied');
      GroupTaken(validated, groups, cart, g, applied, remaining, log, todo, best, ok, applied', remaining', log');
    }

    lemma GroupTaken(validated: seq<Rule>, groups: map<string, seq<GroupRule>>, cart: real, g: string,
                     applied: seq<AppliedRule>, remaining: real, log: seq<Call>, todo: set<string>, best: Rule,
                     ok: bool, applied': seq<AppliedRule>, remaining': real, log': seq<Call>)
      requires g in groups && g in todo && Progress(cart, validated, groups, applied, remaining, log, todo)
      requires best.group == g && BestOfGroup(cart, validated, best)
      requires Enforced(counter, log', applied') && log <= log'
      requires ok ==> Chained(cart, applied') && remaining' == RemainingAfter(cart, Effects(applied'))
      requires ok ==>
               |applied'| == |applied| + 1 && applied'[..|applied|] == applied && applied'[|applied|].rule == best
      requires !ok ==> applied' == applied && remaining' == remaining && Refused(log', best)
      ensures Progress(cart, validated, groups, applied', remaining', log', todo - {g})
    {
      hide WellChosen, Chained, BestOfGroup, RemainingAfter, Refused, Effects, Enforced;
      if ok {
        ChooseForGroup(cart, validated, applied, applied', best);
        assert applied <= applied';
        assert forall i :: 0 <= i < |applied| ==> applied'[i] == applied[i];
      }
      GroupStaysSettled(log, log', cart, validated, applied, applied');
      assert GroupSettled(log', cart, validated, applied', g) by {
        assert ok ==> applied'[|applied|].rule.group == g;
      }
      hide GroupSettled;
    }

    method BestIn(groups: map<string, seq<GroupRule>>, ghost validated: seq<Rule>, ghost cart: real, g: string)
      returns (best: Rule)
      requires Grouped(groups, validated, cart) && g in groups
      ensures best.group == g && BestOfGroup(cart, validated, best)
    {
      var grp := groups[g];
      var sorted := SortDescending(grp, ByDiscount);
      hide CalculateDiscount;
      assert grp[0] in grp;
      assert sorted[0] in grp;
      best := sorted[0].rule;
      forall o | o in validated && o.group == g
        ensures CalculateDiscount(o.effect, cart) <= CalculateDiscount(best.effect, cart)
      {
        assert GroupRule(o, CalculateDiscount(o.effect, cart)) in sorted;
      }
    }

    // Applies one rule to what is left.
    method Apply(ghost cart: real, applied: seq<AppliedRule>, remaining: real, rule: Rule)
      returns (applied': seq<AppliedRule>, remaining': real)
      requires Chained(cart, applied) && remaining == RemainingAfter(cart, Effects(applied))
      ensures Chained(cart, applied') && remaining' == RemainingAfter(cart, Effects(applied'))
      ensures |applied'| == |applied| + 1 && applied'[..|applied|] == applied && applied'[|applied|].rule == rule
    {
      Extended(cart, applied, rule);
      var disc := CalculateDiscount(rule.effect, remaining);
      applied' := applied + [AppliedRule(rule, Round2(disc))];
      remaining' := Round2(remaining - disc);
    }

    // What holds before the i-th turn of the loop over stackable rules.
    ghost predicate Stacking(cart: real, validated: seq<Rule>, stackable: seq<Rule>, g: nat,
                             applied: seq<AppliedRule>, remaining: real, log: seq<Call>, i: nat)
      requires i <= |stackable|
    {
      && Chained(cart, applied) && remaining == RemainingAfter(cart, Effects(applied))
      && WellChosen(cart, validated, applied, g) && Enforced(counter, log, applied)
      && (forall k, l :: g <= k < |applied| && i <= l < |stackable| ==>
            applied[k].rule.priority >= stackable[l].priority)
      && (forall l :: 0 <= l < i ==> StackSettled(log, applied, g, stackable[l]))
      && (Distinct(stackable) ==> AppliedOnce(applied))
      && (Distinct(stackable) ==>
            forall k, l :: g <= k < |applied| && i <= l < |stackable| ==> applied[k].rule != stackable[l])
    }

    // Stackable rules in order, each within its own limit on how many were stacked before it.
    method ApplyStackable(validated: seq<Rule>, stackable: seq<Rule>, cart: real, fromGroups: seq<AppliedRule>,
                          left: real, calls: seq<Call>)
      returns (applied: seq<AppliedRule>, remaining: real, log: seq<Call>)
      requires Chained(cart, fromGroups) && left == RemainingAfter(cart, Effects(fromGroups))
      requires WellChosen(cart, validated, fromGroups, |fromGroups|) && Enforced(counter, calls, fromGroups)
      requires forall r :: r in stackable ==> r in validated && r.group == ""
      requires Descending(stackable, ByPriority)
      ensures fromGroups <= applied && calls <= log
      ensures Stacking(cart, validated, stackable, |fromGroups|, applied, remaining, log, |stackable|)
    {
      applied, remaining, log := fromGroups, left, calls;
      var stackApplied := 0;
      assert Stacking(cart, validated, stackable, |fromGroups|, applied, remaining, log, 0);
      hide Stacking, Descending;
      for i := 0 to |stackable|
        invariant |fromGroups| + stackApplied == |applied| && fromGroups <= applied && calls <= log
        invariant Stacking(cart, validated, stackable, |fromGroups|, applied, remaining, log, i)
      {
        applied, remaining, log, stackApplied :=
          StackOne(validated, stackable, cart, |fromGroups|, applied, remaining, log, stackApplied, i);
      }
    }

    // One turn of that loop.
    method StackOne(validated: seq<Rule>, stackable: seq<Rule>, cart: real, ghost g: nat, applied: seq<AppliedRule>,
                    remaining: real, log: seq<Call>, stackApplied: nat, i: nat)
      returns (applied': seq<AppliedRule>, remaining': real, log': seq<Call>, stackApplied': nat)
      requires i < |stackable| && g + stackApplied == |applied|
      requires Stacking(cart, validated, stackable, g, applied, remaining, log, i)
      requires forall r :: r in stackable ==> r in validated && r.group == ""
      requires Descending(stackable, ByPriority)
      ensures g + stackApplied' == |applied'| && applied <= applied' && log <= log'
      ensures Stacking(cart, validated, stackable, g, applied', remaining', log', i + 1)
    {
      hide Stacking, Descending, Enforced, Genuine, WellChosen;
      var rule := stackable[i];
      applied', remaining', log', stackApplied' := applied, remaining, log, stackApplied;
      if rule.stackable && !(rule.maxStackable > 0 && stackApplied >= rule.maxStackable) {
        StackingParts(cart, validated, stackable, g, applied, remaining, log, i);
        var ok;
        ok, log' := TryReserve(rule, log);
        if ok {
          applied', remaining' := Apply(cart, applied, remaining, rule);
          stackApplied' := stackApplied + 1;
        }
        StillEnforced(counter, log, applied, rule, ok, log', applied');
        if ok {
          Stacked(cart, validated, stackable, g, applied, remaining, log, i, applied', remaining', log');
        } else {
          NotStacked(cart, validated, stackable, g, applied, remaining, log, i, log');
        }
      } else {
        StackingParts(cart, validated, stackable, g, applied, remaining, log, i);
        NotStacked(cart, validated, stackable, g, applied, remaining, log, i, log);
      }
    }

    lemma StackingParts(cart: real, validated: seq<Rule>, stackable: seq<Rule>, g: nat,
                        applied: seq<AppliedRule>, remaining: real, log: seq<Call>, i: nat)
      requires i <= |stackable| && Stacking(cart, validated, stackable, g, applied, remaining, log, i)
      ensures Chained(cart, applied) && remaining == RemainingAfter(cart, Effects(applied))
      ensures Enforced(counter, log, applied) && Genuine(counter, log)
    {
      hide Chained, RemainingAfter, Effects, WellChosen, Genuine, StackSettled;
    }

    lemma NotStacked(cart: real, validated: seq<Rule>, stackable: seq<Rule>, g: nat,
                     applied: seq<AppliedRule>, remaining: real, log: seq<Call>, i: nat, log': seq<Call>)
      requires i < |stackable| && g <= |applied| && Stacking(cart, validated, stackable, g, applied, remaining, log, i)
      requires Enforced(counter, log', applied) && log <= log'
      requires var r := stackable[i];
               !r.stackable || 0 < r.maxStackable <= |applied| - g || Refused(log', r)
      ensures Stacking(cart, validated, stackable, g, applied, remaining, log', i + 1)
    {
      hide WellChosen, Chained, RemainingAfter, Effects, Refused, Distinct, AppliedOnce, Enforced;
      assert StackSettled(log', applied, g, stackable[i]);
      StackStaysSettled(log, log', applied, applied, g);
      hide StackSettled;
    }

    lemma Stacked(cart: real, validated: seq<Rule>, stackable: seq<Rule>, g: nat, applied: seq<AppliedRule>,
                  remaining: real, log: seq<Call>, i: nat,
                  applied': seq<AppliedRule>, remaining': real, log': seq<Call>)
      requires i < |stackable| && g <= |applied| && Stacking(cart, validated, stackable, g, applied, remaining, log, i)
      requires Descending(stackable, ByPriority)
      requires forall r :: r in stackable ==> r in validated && r.group == ""
      requires var r := stackable[i];
               && r.stackable && (r.maxStackable > 0 ==> |applied| - g < r.maxStackable)
               && |applied'| == |applied| + 1 && applied'[..|applied|] == applied && applied'[|applied|].rule == r
      requires Chained(cart, applied') && remaining' == RemainingAfter(cart, Effects(applied'))
      requires Enforced(counter, log', applied') && log <= log'
      ensures Stacking(cart, validated, stackable, g, applied', remaining', log', i + 1)
    {
      hide Chained, RemainingAfter, Effects, Refused, BestOfGroup, Enforced, LimitReached;
      var rule := stackable[i];
      assert forall k :: 0 <= k < |applied| ==> applied'[k] == applied[k];
      assert rule.group == "";
      assert forall k :: 0 <= k < g ==> applied[k].rule.group != "" by {
        GroupsComeFirst(cart, validated, applied, g);
      }
      ChooseStackable(cart, validated, applied, applied', g, rule);
      hide WellChosen;
      assert forall l :: i < l < |stackable| ==> ByPriority(rule) >= ByPriority(stackable[l]);
      assert StackSettled(log', applied', g, rule) by {
        assert applied'[|applied|].rule == rule;
      }
      StackStaysSettled(log, log', applied, applied', g);
      hide StackSettled, Descending;
      if Distinct(stackable) {
        assert forall k :: 0 <= k < |applied| ==> applied[k].rule != rule;
      }
    }

    lemma GroupsComeFirst(cart: real, validated: seq<Rule>, applied: seq<AppliedRule>, g: nat)
      requires WellChosen(cart, validated, applied, g)
      ensures forall k :: 0 <= k < g ==> applied[k].rule.group != ""
    {
    }

    // The counters turned the best rule of the group away, in one of the calls made.
    ghost predicate BestTurnedAway(cart: real, validated: seq<Rule>, log: seq<Call>, group: string) {
      exists r: Rule, k: nat ::
        && r.group == group && BestOfGroup(cart, validated, r) && k < |log| && log[k] == Call(r.id, false)
        && counter.Counter? && !counter.allows(log[..k], r.id)
    }

    /** Every exclusivity group with a validated rule has exactly one rule applied, the one that
        discounts the whole cart most, unless the counters turned that one away. */
    lemma OnePerGroup(cart: real, validated: seq<Rule>, applied: seq<AppliedRule>, g: nat, log: seq<Call>, o: Rule)
      requires Resolved(counter, cart, validated, applied, g, log) && o in validated && o.group != ""
      ensures BestTurnedAway(cart, validated, log, o.group) ||
              exists i :: 0 <= i < g && applied[i].rule.group == o.group
                     && BestOfGroup(cart, validated, applied[i].rule)
      ensures forall i, j :: 0 <= i < j < |applied| && applied[i].rule.group == o.group ==>
              applied[j].rule.group != o.group
    {
      hide Chained, BestOfGroup;
      assert GroupSettled(log, cart, validated, applied, o.group);
      if i :| 0 <= i < |applied| && applied[i].rule.group == o.group {
        assert i < g && BestOfGroup(cart, validated, applied[i].rule);
      } else {
        var r: Rule :| r.group == o.group && BestOfGroup(cart, validated, r) && Refused(log, r);
        var k :| 0 <= k < |log| && log[k] == Call(r.id, false);
        assert counter.Counter? && !counter.allows(log[..k], r.id);
        assert BestTurnedAway(cart, validated, log, o.group);
      }
    }

    // Both loops.
    method ApplyAll(validated: seq<Rule>, cart: real)
      returns (applied: seq<AppliedRule>, remaining: real, ghost g: nat, ghost log: seq<Call>)
      ensures Resolved(counter, cart, validated, applied, g, log) && remaining == RemainingAfter(cart, Effects(applied))
    {
      hide *;
      var groups, stackable := SortAndSplit(validated, cart);
      var fromGroups, left, calls := ApplyGroups(validated, groups, cart);
      g := |fromGroups|;
      ProgressDone(cart, validated, groups, fromGroups, left, calls);
      applied, remaining, log := ApplyStackable(validated, stackable, cart, fromGroups, left, calls);
      StackingDone(cart, validated, groups, stackable, fromGroups, left, calls, applied, remaining, log);
    }

    lemma ProgressDone(cart: real, validated: seq<Rule>, groups: map<string, seq<GroupRule>>,
                       applied: seq<AppliedRule>, remaining: real, log: seq<Call>)
      requires Progress(cart, validated, groups, applied, remaining, log, {})
      ensures Chained(cart, applied) && remaining == RemainingAfter(cart, Effects(applied))
      ensures WellChosen(cart, validated, applied, |applied|) && Enforced(counter, log, applied)
    {
      hide Chained, RemainingAfter, Effects, WellChosen, Enforced, GroupSettled;
    }

    lemma StackingDone(cart: real, validated: seq<Rule>, groups: map<string, seq<GroupRule>>, stackable: seq<Rule>,
                       fromGroups: seq<AppliedRule>, left: real, calls: seq<Call>,
                       applied: seq<AppliedRule>, remaining: real, log: seq<Call>)
      requires Grouped(groups, validated, cart) && Progress(cart, validated, groups, fromGroups, left, calls, {})
      requires forall r :: r in stackable <==> r in validated && r.group == ""
      requires Distinct(validated) ==> Distinct(stackable)
      requires fromGroups <= applied && calls <= log
      requires Stacking(cart, validated, stackable, |fromGroups|, applied, remaining, log, |stackable|)
      ensures Resolved(counter, cart, validated, applied, |fromGroups|, log)
              && remaining == RemainingAfter(cart, Effects(applied))
    {
      hide Chained, RemainingAfter, WellChosen, Effects, GroupSettled, StackSettled, Distinct, AppliedOnce,
           CalculateDiscount, Enforced;
      GroupStaysSettled(calls, log, cart, validated, fromGroups, applied);
      forall r | r in validated && r.group == ""
        ensures StackSettled(log, applied, |fromGroups|, r)
      {
        assert r in stackable;
      }
    }

    lemma NothingToResolve(cart: real)
      ensures Resolved(counter, cart, [], [], 0, [])
    {
    }

    lemma Amounts(cart: real, effects: seq<Effect>)
      ensures var left := RemainingAfter(cart, effects);
              && FinalAmount(cart, effects) == (if left < 0.0 then 0.0 else left)
              && TotalDiscount(cart, effects) == Round2(cart - left)
    {
    }

    // `g` rules are from groups; `log` are the calls made to the counters.
    method Resolve(validated: seq<Rule>, cartTotal: real)
      returns (result: ResolveResult, ghost g: nat, ghost log: seq<Call>)
      ensures Resolved(counter, cartTotal, validated, result.applied, g, log)
      ensures validated == [] ==> result == ResolveResult([], cartTotal, 0.0)
      ensures validated != [] ==>
                && result.finalAmount == FinalAmount(cartTotal, Effects(result.applied))
                && result.totalDiscount == TotalDiscount(cartTotal, Effects(result.applied))
    {
      hide *;
      if |validated| == 0 {
        NothingToResolve(cartTotal);
        return ResolveResult([], cartTotal, 0.0), 0, [];
      }
      var applied, remaining;
      applied, remaining, g, log := ApplyAll(validated, cartTotal);
      Amounts(cartTotal, Effects(applied));
      var totalDiscount := Round2(cartTotal - remaining);
      if remaining < 0.0 {
        remaining := 0.0;
      }
      result := ResolveResult(applied, remaining, totalDiscount);
    }
  }
}
