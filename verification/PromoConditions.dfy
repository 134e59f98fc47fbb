/** Rule conditions: a tree of AND, OR and NOT over leaf conditions, its evaluation, and its JSON
    form with a type discriminator. */
module PromoConditions {
  import opened Collections

  // A slice that may be nil, which JSON keeps apart from an empty one.
  datatype Slice<T> = Nil | Items(items: seq<T>)

  datatype Result<T> = Ok(value: T) | Err(error: Error)

  datatype Error =
    | BadDiscriminator
    | BadPayload
    | AndOrChild(inner: Error)
    | NotChild(inner: Error)
    | MissingMinAmount
    | MissingMaxOrders
    | UnknownType(name: string)

  type Int64 = n: int | -0x8000_0000_0000_0000 <= n < 0x8000_0000_0000_0000

  datatype Condition =
    | Composite(kind: string, children: seq<Condition>, child: Option<Condition>)
    | MinTransaction(minAmount: real)
    | Area(areas: Slice<string>)
    | Category(categories: Slice<string>)
    | FirstNOrder(maxOrders: Int64)
    | TimeSlot(start: string, end: string, days: Slice<Int64>)

  const AND := "and"
  const OR := "or"
  const NOT := "not"
  const MIN_TRANSACTION := "min_transaction"
  const AREA := "area"
  const CATEGORY := "category"
  const FIRST_N_ORDER := "first_n_order"
  const TIME_SLOT := "time_slot"

  datatype Time = Time(weekday: int, hour: int, minute: int)

  // `now` is None for the zero time.
  datatype EvalContext = EvalContext(
    cartTotal: real, area: string, categories: seq<string>, userOrderCount: int, now: Option<Time>)

  // What evaluation takes from outside: the current time, comparison of strings up to case, and
  // the minutes that a clock text such as "08:30" stands for.
  datatype Surroundings = Surroundings(clock: Time, equalFold: (string, string) -> bool, minutes: string -> int)

  // ---- Meaning ----

  // For-all over the children of AND, exists over the children of OR.
  ghost predicate Holds(c: Condition, ctx: EvalContext, env: Surroundings) {
    match c
    case Composite(kind, children, child) =>
      if kind == AND then forall i :: 0 <= i < |children| ==> Holds(children[i], ctx, env)
      else if kind == OR then exists i :: 0 <= i < |children| && Holds(children[i], ctx, env)
      else kind == NOT && (child.None? || !Holds(child.value, ctx, env))
    case MinTransaction(m) => ctx.cartTotal >= m
    case Area(areas) => exists a :: a in Listed(areas) && env.equalFold(a, ctx.area)
    case Category(cs) =>
      || Listed(cs) == []
      || exists a, b :: a in Listed(cs) && b in ctx.categories && env.equalFold(a, b)
    case FirstNOrder(max) => ctx.userOrderCount <= max
    case TimeSlot(start, end, days) =>
      var now := if ctx.now.Some? then ctx.now.value else env.clock;
      && (Listed(days) == [] || now.weekday in Listed(days))
      && (start == "" || end == "" ||
          InSlot(env.minutes(start), env.minutes(end), now.hour * 60 + now.minute))
  }

  function Listed<T>(s: Slice<T>): seq<T> {
    if s.Nil? then [] else s.items
  }

  // Between the two, or, when the slot starts later than it ends, over midnight.
  predicate InSlot(start: int, end: int, m: int) {
    if start <= end then start <= m <= end else start <= m || m <= end
  }

  function Not(c: Condition): Condition {
    Composite(NOT, [], Some(c))
  }

  function AllNot(cs: seq<Condition>): seq<Condition> {
    seq(|cs|, i requires 0 <= i < |cs| => Not(cs[i]))
  }

  /** De Morgan, for any children in any context. */
  lemma DeMorgan(cs: seq<Condition>, ctx: EvalContext, env: Surroundings)
    ensures Holds(Not(Composite(AND, cs, None)), ctx, env) == Holds(Composite(OR, AllNot(cs), None), ctx, env)
    ensures Holds(Not(Composite(OR, cs, None)), ctx, env) == Holds(Composite(AND, AllNot(cs), None), ctx, env)
  {
    var ns := AllNot(cs);
    assert forall i :: 0 <= i < |cs| ==> Holds(ns[i], ctx, env) == !Holds(cs[i], ctx, env);
    assert forall i :: 0 <= i < |cs| ==> Holds(cs[i], ctx, env) == !Holds(ns[i], ctx, env);
  }

  // The negation pushed down to the leaves.
  function Negated(c: Condition): Condition {
    match c
    case Composite(kind, children, child) =>
      if kind == AND then Composite(OR, AllNegated(children), None)
      else if kind == OR then Composite(AND, AllNegated(children), None)
      else if kind == NOT && child.Some? then child.value
      else Not(c)
    case _ => Not(c)
  }

  function AllNegated(cs: seq<Condition>): (r: seq<Condition>)
    ensures |r| == |cs| && forall i :: 0 <= i < |cs| ==> r[i] == Negated(cs[i])
  {
    if cs == [] then [] else
      assert forall i :: 0 < i < |cs| ==> cs[i] == cs[1..][i - 1];
      [Negated(cs[0])] + AllNegated(cs[1..])
  }

  /** De Morgan through a whole tree: pushing a negation down to the leaves negates the meaning. */
  lemma {:induction false} NegatedMeans(c: Condition, ctx: EvalContext, env: Surroundings)
    ensures Holds(Negated(c), ctx, env) == !Holds(c, ctx, env)
  {
    if c.Composite? && (c.kind == AND || c.kind == OR) {
      var ns := AllNegated(c.children);
      forall i | 0 <= i < |c.children|
        ensures Holds(ns[i], ctx, env) == !Holds(c.children[i], ctx, env)
      {
        NegatedMeans(c.children[i], ctx, env);
      }
      assert forall i :: 0 <= i < |ns| ==> Holds(c.children[i], ctx, env) == !Holds(ns[i], ctx, env);
    }
  }

  /** The two slots between a pair of different times cover every minute, and share only their ends. */
  lemma SlotsComplement(a: int, b: int, m: int)
    requires a < b
    ensures InSlot(a, b, m) || InSlot(b, a, m)
    ensures InSlot(a, b, m) && InSlot(b, a, m) <==> m == a || m == b
    ensures a < m < b ==> InSlot(a, b, m)
    ensures InSlot(a, a, m) <==> m == a
  {
  }

  // ---- What the leaves tell apart ----

  /** A minimum with a negated higher one is a price range, and one order limit with the negated limit below
      it is one particular order. */
  lemma RangesFromLimits(a: real, b: real, n: Int64, k: Int64, ctx: EvalContext, env: Surroundings)
    requires k as int == n as int - 1
    ensures Holds(Composite(AND, [MinTransaction(a), Not(MinTransaction(b))], None), ctx, env) <==>
            a <= ctx.cartTotal < b
    ensures Holds(Composite(AND, [FirstNOrder(n), Not(FirstNOrder(k))], None), ctx, env) <==>
            ctx.userOrderCount == n as int
  {
    BothHold(MinTransaction(a), Not(MinTransaction(b)), ctx, env);
    BothHold(FirstNOrder(n), Not(FirstNOrder(k)), ctx, env);
    assert Holds(Not(MinTransaction(b)), ctx, env) <==> !Holds(MinTransaction(b), ctx, env);
    assert Holds(Not(FirstNOrder(k)), ctx, env) <==> !Holds(FirstNOrder(k), ctx, env);
  }

  lemma BothHold(c: Condition, d: Condition, ctx: EvalContext, env: Surroundings)
    ensures Holds(Composite(AND, [c, d], None), ctx, env) <==> Holds(c, ctx, env) && Holds(d, ctx, env)
  {
    assert [c, d][0] == c && [c, d][1] == d;
  }

  /** Listing more areas or categories admits what either list admits. No area is not a list of all areas,
      but no category is no restriction. */
  lemma ListsUnite(xs: seq<string>, ys: seq<string>, x: string, ctx: EvalContext, env: Surroundings)
    ensures Holds(Area(Items(xs + ys)), ctx, env) <==>
            Holds(Area(Items(xs)), ctx, env) || Holds(Area(Items(ys)), ctx, env)
    ensures xs != [] && ys != [] ==>
              (Holds(Category(Items(xs + ys)), ctx, env) <==>
               Holds(Category(Items(xs)), ctx, env) || Holds(Category(Items(ys)), ctx, env))
    ensures Holds(Area(Items([x])), ctx, env) <==> env.equalFold(x, ctx.area)
    ensures Holds(Category(Items([x])), ctx.(categories := [ctx.area]), env) <==> env.equalFold(x, ctx.area)
    ensures !Holds(Area(Nil), ctx, env) && Holds(Category(Nil), ctx, env)
  {
    var zs := xs + ys;
    assert forall z :: z in zs <==> z in xs || z in ys;
    assert x in [x] && ctx.area in [ctx.area];
  }

  /** A slot on listed days is the slot on those days only, and a slot from a time to the same time is that
      minute, of the given moment or else of the clock. Without a start or an end it is the whole day. */
  lemma SlotsMean(start: string, end: string, days: seq<Int64>, ctx: EvalContext, env: Surroundings)
    ensures var now := if ctx.now.Some? then ctx.now.value else env.clock;
            && (days != [] ==>
                  (Holds(TimeSlot(start, end, Items(days)), ctx, env) <==>
                   Holds(TimeSlot(start, end, Nil), ctx, env) && exists d :: d in days && d as int == now.weekday))
            && (start != "" && end != "" && env.minutes(start) == env.minutes(end) ==>
                  (Holds(TimeSlot(start, end, Nil), ctx, env) <==>
                   60 * now.hour + now.minute == env.minutes(start)))
    ensures Holds(TimeSlot("", end, Nil), ctx, env) && Holds(TimeSlot(start, "", Nil), ctx, env)
  {
  }

  // ---- Evaluation, as the nodes do it ----

  method Eval(c: Condition, ctx: EvalContext, env: Surroundings) returns (r: bool)
    ensures r == Holds(c, ctx, env)
    decreases c
  {
    match c {
      case Composite(kind, children, child) =>
        if kind == AND {
          for i := 0 to |children|
            invariant forall k :: 0 <= k < i ==> Holds(children[k], ctx, env)
          {
            var ok := Eval(children[i], ctx, env);
            if !ok {
              return false;
            }
          }
          return true;
        } else if kind == OR {
          for i := 0 to |children|
            invariant forall k :: 0 <= k < i ==> !Holds(children[k], ctx, env)
          {
            var ok := Eval(children[i], ctx, env);
            if ok {
              return true;
            }
          }
          return false;
        } else if kind == NOT {
          if child.None? {
            return true;
          }
          var ok := Eval(child.value, ctx, env);
          return !ok;
        } else {
          return false;
        }
      case MinTransaction(m) => return ctx.cartTotal >= m;
      case Area(areas) => r := EvalArea(areas, ctx, env);
      case Category(categories) => r := EvalCategory(categories, ctx, env);
      case FirstNOrder(max) => return ctx.userOrderCount <= max;
      case TimeSlot(start, end, days) => r := EvalTimeSlot(start, end, days, ctx, env);
    }
  }

  method EvalArea(areas: Slice<string>, ctx: EvalContext, env: Surroundings) returns (r: bool)
    ensures r == Holds(Area(areas), ctx, env)
  {
    var list := Listed(areas);
    for i := 0 to |list|
      invariant forall k :: 0 <= k < i ==> !env.equalFold(list[k], ctx.area)
    {
      if env.equalFold(list[i], ctx.area) {
        return true;
      }
    }
    return false;
  }

  method EvalCategory(categories: Slice<string>, ctx: EvalContext, env: Surroundings) returns (r: bool)
    ensures r == Holds(Category(categories), ctx, env)
  {
    var list := Listed(categories);
    for i := 0 to |list|
      invariant forall k, l :: 0 <= k < i && 0 <= l < |ctx.categories| ==> !env.equalFold(list[k], ctx.categories[l])
    {
      for j := 0 to |ctx.categories|
        invariant forall l :: 0 <= l < j ==> !env.equalFold(list[i], ctx.categories[l])
      {
        if env.equalFold(list[i], ctx.categories[j]) {
          return true;
        }
      }
    }
    return |list| == 0;
  }

  method EvalTimeSlot(start: string, end: string, days: Slice<Int64>, ctx: EvalContext, env: Surroundings)
    returns (r: bool)
    ensures r == Holds(TimeSlot(start, end, days), ctx, env)
  {
    var now := if ctx.now.Some? then ctx.now.value else env.clock;
    var list := Listed(days);
    if |list| > 0 {
      var matched := false;
      for i := 0 to |list|
        invariant !matched && now.weekday !in list[..i]
      {
        if now.weekday == list[i] {
          matched := true;
          break;
        }
      }
      if !matched {
        return false;
      }
    }
    if start != "" && end != "" {
      var startMin, endMin := env.minutes(start), env.minutes(end);
      var curMin := now.hour * 60 + now.minute;
      if startMin <= endMin {
        if curMin < startMin || curMin > endMin {
          return false;
        }
      } else {
        if curMin < startMin && curMin > endMin {
          return false;
        }
      }
    }
    return true;
  }

  // ---- JSON ----

  datatype Json =
    | JNull
    | JBool(b: bool)
    | JNum(n: real)
    | JStr(s: string)
    | JArr(items: seq<Json>)
    | JObj(fields: map<string, Json>)

  // A missing field and a null one both leave the zero value.
  function Field(j: Json, name: string): (r: Json)
    ensures r == JNull || r < j
  {
    if j.JObj? && name in j.fields then j.fields[name] else JNull
  }

  predicate IsInt64(j: Json) {
    j.JNum? && j.n == j.n.Floor as real && -0x8000_0000_0000_0000 <= j.n.Floor < 0x8000_0000_0000_0000
  }

  predicate IsText(j: Json) {
    j.JNull? || j.JStr?
  }

  predicate IsTexts(j: Json) {
    j.JNull? || (j.JArr? && forall x :: x in j.items ==> IsText(x))
  }

  predicate IsInts(j: Json) {
    j.JNull? || (j.JArr? && forall x :: x in j.items ==> x.JNull? || IsInt64(x))
  }

  function Text(j: Json): string
    requires IsText(j)
  {
    if j.JNull? then "" else j.s
  }

  function Texts(j: Json): Slice<string>
    requires IsTexts(j)
  {
    if j.JNull? then Nil else Items(seq(|j.items|, i requires 0 <= i < |j.items| => Text(j.items[i])))
  }

  function Int(j: Json): Int64
    requires j.JNull? || IsInt64(j)
  {
    if j.JNull? then 0 else j.n.Floor
  }

  function Ints(j: Json): Slice<Int64>
    requires IsInts(j)
  {
    if j.JNull? then Nil else Items(seq(|j.items|, i requires 0 <= i < |j.items| => Int(j.items[i])))
  }

  /** A null among the numbers or texts of a list is read as 0 or as the empty text, all others as they are. */
  lemma NullsAreZero(xs: seq<Json>, i: nat)
    requires i < |xs|
    ensures IsInts(JArr(xs)) ==>
              && |Ints(JArr(xs)).items| == |xs|
              && (xs[i] == JNull || xs[i].JNum?)
              && Ints(JArr(xs)).items[i] as real == if xs[i] == JNull then 0.0 else xs[i].n
    ensures IsTexts(JArr(xs)) ==>
              && |Texts(JArr(xs)).items| == |xs|
              && (xs[i] == JNull || xs[i].JStr?)
              && Texts(JArr(xs)).items[i] == if xs[i] == JNull then "" else xs[i].s
  {
    assert xs[i] in xs;
  }

  // The type field is read first, from an object or from null.
  predicate HasDiscriminator(j: Json) {
    (j.JNull? || j.JObj?) && IsText(Field(j, "type"))
  }

  // Every known field has its type, whichever condition it is meant for.
  predicate HasPayload(j: Json) {
    && (Field(j, "conditions").JNull? || Field(j, "conditions").JArr?)
    && (Field(j, "min_amount").JNull? || Field(j, "min_amount").JNum?)
    && IsTexts(Field(j, "areas")) && IsTexts(Field(j, "categories"))
    && (Field(j, "max_orders").JNull? || IsInt64(Field(j, "max_orders")))
    && IsText(Field(j, "start")) && IsText(Field(j, "end"))
    && IsInts(Field(j, "days"))
  }

  function Decode(j: Json): Result<Condition>
    decreases j
  {
    if !HasDiscriminator(j) then Err(BadDiscriminator)
    else if !HasPayload(j) then Err(BadPayload)
    else
      var kind := Text(Field(j, "type"));
      if kind == AND || kind == OR then
        var cs := Field(j, "conditions");
        if cs.JNull? then Ok(Composite(kind, [], None)) else
          var children := DecodeFirst(cs.items, |cs.items|);
          if children.Err? then Err(AndOrChild(children.error)) else Ok(Composite(kind, children.value, None))
      else if kind == NOT then
        var x := Field(j, "condition");
        if x.JNull? then Ok(Composite(NOT, [], None)) else
          var child := Decode(x);
          if child.Err? then Err(NotChild(child.error)) else Ok(Not(child.value))
      else DecodeLeaf(j, kind)
  }

  function DecodeLeaf(j: Json, kind: string): Result<Condition>
    requires HasPayload(j)
  {
    if kind == MIN_TRANSACTION then
      var m := Field(j, "min_amount");
      if m.JNull? then Err(MissingMinAmount) else Ok(MinTransaction(m.n))
    else if kind == AREA then Ok(Area(Texts(Field(j, "areas"))))
    else if kind == CATEGORY then Ok(Category(Texts(Field(j, "categories"))))
    else if kind == FIRST_N_ORDER then
      var m := Field(j, "max_orders");
      if m.JNull? then Err(MissingMaxOrders) else Ok(FirstNOrder(Int(m)))
    else if kind == TIME_SLOT then
      Ok(TimeSlot(Text(Field(j, "start")), Text(Field(j, "end")), Ints(Field(j, "days"))))
    else Err(UnknownType(kind))
  }

  // The first n children, or the error of the first one that has one.
  function DecodeFirst(items: seq<Json>, n: nat): (r: Result<seq<Condition>>)
    requires n <= |items|
    ensures r.Ok? ==> |r.value| == n && forall i :: 0 <= i < n ==> Decode(items[i]) == Ok(r.value[i])
    decreases items, n
  {
    if n == 0 then Ok([]) else
      var before := DecodeFirst(items, n - 1);
      if before.Err? then before else
        var last := Decode(items[n - 1]);
        if last.Err? then Err(last.error) else Ok(before.value + [last.value])
  }

  function EncodeTexts(s: Slice<string>): Json {
    if s.Nil? then JNull else JArr(seq(|s.items|, i requires 0 <= i < |s.items| => JStr(s.items[i])))
  }

  function EncodeInts(s: Slice<Int64>): Json {
    if s.Nil? then JNull else JArr(seq(|s.items|, i requires 0 <= i < |s.items| => JNum(s.items[i] as real)))
  }

  function Encode(c: Condition): Json
    decreases c
  {
    match c
    case Composite(kind, children, child) =>
      var base := map["type" := JStr(kind)];
      var more := if |children| > 0 then base["conditions" := JArr(EncodeAll(children))] else base;
      JObj(if child.Some? then more["condition" := Encode(child.value)] else more)
    case MinTransaction(m) => JObj(map["type" := JStr(MIN_TRANSACTION), "min_amount" := JNum(m)])
    case Area(areas) => JObj(map["type" := JStr(AREA), "areas" := EncodeTexts(areas)])
    case Category(cs) => JObj(map["type" := JStr(CATEGORY), "categories" := EncodeTexts(cs)])
    case FirstNOrder(m) => JObj(map["type" := JStr(FIRST_N_ORDER), "max_orders" := JNum(m as real)])
    case TimeSlot(start, end, days) =>
      JObj(map["type" := JStr(TIME_SLOT), "start" := JStr(start), "end" := JStr(end), "days" := EncodeInts(days)])
  }

  function EncodeAll(cs: seq<Condition>): (r: seq<Json>)
    ensures |r| == |cs| && forall i :: 0 <= i < |cs| ==> r[i] == Encode(cs[i])
    decreases cs
  {
    if cs == [] then [] else
      var last := |cs| - 1;
      EncodeAll(cs[..last]) + [Encode(cs[last])]
  }

  // Only what decoding produces: AND and OR have no single child, NOT has no list of children,
  // and no node has another type.
  predicate WellFormed(c: Condition) {
    c.Composite? ==>
      if c.kind == AND || c.kind == OR then
        c.child.None? && forall i :: 0 <= i < |c.children| ==> WellFormed(c.children[i])
      else
        c.kind == NOT && c.children == [] && (c.child.Some? ==> WellFormed(c.child.value))
  }

  lemma {:induction false} DecodedIsWellFormed(j: Json)
    ensures Decode(j).Ok? ==> WellFormed(Decode(j).value)
    decreases j
  {
    if HasDiscriminator(j) && HasPayload(j) && Decode(j).Ok? {
      var kind := Text(Field(j, "type"));
      if kind == AND || kind == OR {
        var cs := Field(j, "conditions");
        if cs.JArr? {
          forall i | 0 <= i < |cs.items|
            ensures Decode(cs.items[i]).Ok? ==> WellFormed(Decode(cs.items[i]).value)
          {
            DecodedIsWellFormed(cs.items[i]);
          }
        }
      } else if kind == NOT && Field(j, "condition") != JNull {
        DecodedIsWellFormed(Field(j, "condition"));
      }
    }
  }

  lemma TextsRoundTrip(s: Slice<string>)
    ensures IsTexts(EncodeTexts(s)) && Texts(EncodeTexts(s)) == s
  {
  }

  lemma IntRoundTrip(n: Int64)
    ensures IsInt64(JNum(n as real)) && Int(JNum(n as real)) == n
  {
  }

  lemma IntsRoundTrip(s: Slice<Int64>)
    ensures IsInts(EncodeInts(s)) && Ints(EncodeInts(s)) == s
  {
  }

  lemma {:induction false} DecodeFirstOf(items: seq<Json>, cs: seq<Condition>, n: nat)
    requires n <= |items| == |cs| && forall i :: 0 <= i < n ==> Decode(items[i]) == Ok(cs[i])
    ensures DecodeFirst(items, n) == Ok(cs[..n])
  {
    hide Decode;
    if n > 0 {
      DecodeFirstOf(items, cs, n - 1);
      assert cs[..n] == cs[..n - 1] + [cs[n - 1]];
    }
  }

  // The object written for a composite node has its fields and no others.
  lemma CompositeFields(kind: string, children: seq<Condition>, child: Option<Condition>)
    ensures var j := Encode(Composite(kind, children, child));
            && j.JObj? && HasDiscriminator(j) && HasPayload(j) && Text(Field(j, "type")) == kind
            && Field(j, "conditions") == (if |children| > 0 then JArr(EncodeAll(children)) else JNull)
            && Field(j, "condition") == if child.Some? then Encode(child.value) else JNull
  {
    hide Decode, DecodeFirst, EncodeAll;
    var j := Encode(Composite(kind, children, child));
    var raws := JArr(EncodeAll(children));
    assert j.fields.Keys <= {"type", "conditions", "condition"};
    assert Field(j, "type") == JStr(kind);
    assert Field(j, "conditions") == if |children| > 0 then raws else JNull;
    hide Encode;
    assert Field(j, "min_amount") == Field(j, "areas") == Field(j, "categories") == JNull;
    assert Field(j, "max_orders") == Field(j, "start") == Field(j, "end") == Field(j, "days") == JNull;
    hide Field;
  }

  lemma ListDecodes(j: Json, kind: string, children: seq<Condition>)
    requires HasDiscriminator(j) && HasPayload(j) && Text(Field(j, "type")) == kind && (kind == AND || kind == OR)
    requires Field(j, "conditions") == if |children| > 0 then JArr(EncodeAll(children)) else JNull
    requires DecodeFirst(EncodeAll(children), |children|) == Ok(children)
    ensures Decode(j) == Ok(Composite(kind, children, None))
  {
  }

  lemma ListRoundTrip(kind: string, children: seq<Condition>)
    requires kind == AND || kind == OR
    requires forall i :: 0 <= i < |children| ==> Decode(Encode(children[i])) == Ok(children[i])
    ensures Decode(Encode(Composite(kind, children, None))) == Ok(Composite(kind, children, None))
  {
    hide *;
    CompositeFields(kind, children, None);
    DecodeFirstOf(EncodeAll(children), children, |children|);
    assert children[..|children|] == children;
    ListDecodes(Encode(Composite(kind, children, None)), kind, children);
  }

  lemma NotDecodes(j: Json, child: Option<Condition>)
    requires HasDiscriminator(j) && HasPayload(j) && Text(Field(j, "type")) == NOT
    requires Field(j, "condition") == if child.Some? then Encode(child.value) else JNull
    requires child.Some? ==> Encode(child.value) != JNull && Decode(Encode(child.value)) == Ok(child.value)
    ensures Decode(j) == Ok(Composite(NOT, [], child))
  {
  }

  lemma EncodedIsObject(c: Condition)
    ensures Encode(c).JObj?
  {
  }

  lemma NotRoundTrip(child: Option<Condition>)
    requires child.Some? ==> Decode(Encode(child.value)) == Ok(child.value)
    ensures Decode(Encode(Composite(NOT, [], child))) == Ok(Composite(NOT, [], child))
  {
    hide *;
    CompositeFields(NOT, [], child);
    if child.Some? {
      EncodedIsObject(child.value);
    }
    NotDecodes(Encode(Composite(NOT, [], child)), child);
  }

  // A leaf decodes as its type says once its fields are known to be well typed.
  lemma LeafDecodes(j: Json, kind: string)
    requires HasDiscriminator(j) && HasPayload(j) && Text(Field(j, "type")) == kind
    requires kind != AND && kind != OR && kind != NOT
    ensures Decode(j) == DecodeLeaf(j, kind)
  {
  }

  lemma TimeSlotRoundTrip(start: string, end: string, days: Slice<Int64>)
    ensures Decode(Encode(TimeSlot(start, end, days))) == Ok(TimeSlot(start, end, days))
  {
    hide Decode;
    IntsRoundTrip(days);
    LeafDecodes(Encode(TimeSlot(start, end, days)), TIME_SLOT);
  }

  lemma LeafRoundTrip(c: Condition)
    requires !c.Composite?
    ensures Decode(Encode(c)) == Ok(c)
  {
    hide Decode;
    var j := Encode(c);
    match c
    case MinTransaction(_) => LeafDecodes(j, MIN_TRANSACTION);
    case Area(areas) =>
      TextsRoundTrip(areas);
      LeafDecodes(j, AREA);
    case Category(cs) =>
      TextsRoundTrip(cs);
      LeafDecodes(j, CATEGORY);
    case FirstNOrder(m) =>
      IntRoundTrip(m);
      LeafDecodes(j, FIRST_N_ORDER);
    case TimeSlot(start, end, days) => TimeSlotRoundTrip(start, end, days);
  }

  lemma {:induction false} RoundTrip(c: Condition)
    requires WellFormed(c)
    ensures Decode(Encode(c)) == Ok(c)
    decreases c
  {
    hide Decode, Encode;
    if !c.Composite? {
      LeafRoundTrip(c);
    } else if c.kind == NOT {
      if c.child.Some? {
        RoundTrip(c.child.value);
      }
      NotRoundTrip(c.child);
    } else {
      forall i | 0 <= i < |c.children|
        ensures Decode(Encode(c.children[i])) == Ok(c.children[i])
      {
        RoundTrip(c.children[i]);
      }
      ListRoundTrip(c.kind, c.children);
    }
  }

  /** A tree survives encoding and decoding exactly when it is one that decoding can produce. */
  lemma RoundTripIff(c: Condition)
    ensures Decode(Encode(c)) == Ok(c) <==> WellFormed(c)
  {
    if WellFormed(c) {
      RoundTrip(c);
    } else {
      DecodedIsWellFormed(Encode(c));
    }
  }

  /** Whatever text a condition came from, storing it and reading it back gives the same tree, so
      it is granted in the same contexts. */
  lemma StoredMeansTheSame(j: Json, ctx: EvalContext, env: Surroundings)
    requires Decode(j).Ok?
    ensures var c := Decode(j).value;
            Decode(Encode(c)) == Ok(c) && Holds(Decode(Encode(c)).value, ctx, env) == Holds(c, ctx, env)
  {
    DecodedIsWellFormed(j);
    RoundTrip(Decode(j).value);
  }

  // ---- Decoding and encoding, as the code does them ----

  method UnmarshalCondition(raw: Json) returns (r: Result<Condition>)
    ensures r == Decode(raw)
    decreases raw
  {
    if !HasDiscriminator(raw) {
      return Err(BadDiscriminator);
    }
    if !HasPayload(raw) {
      return Err(BadPayload);
    }
    var kind := Text(Field(raw, "type"));
    if kind == AND || kind == OR {
      var conditions := if Field(raw, "conditions").JNull? then [] else Field(raw, "conditions").items;
      var children: seq<Condition> := [];
      for i := 0 to |conditions|
        invariant DecodeFirst(conditions, i) == Ok(children)
      {
        var child := UnmarshalCondition(conditions[i]);
        if child.Err? {
          FirstError(conditions, i, |conditions|);
          return Err(AndOrChild(child.error));
        }
        children := children + [child.value];
      }
      return Ok(Composite(kind, children, None));
    } else if kind == NOT {
      if Field(raw, "condition").JNull? {
        return Ok(Composite(NOT, [], None));
      }
      var child := UnmarshalCondition(Field(raw, "condition"));
      if child.Err? {
        return Err(NotChild(child.error));
      }
      return Ok(Composite(NOT, [], Some(child.value)));
    } else {
      return DecodeLeaf(raw, kind);
    }
  }

  lemma {:induction false} FirstError(items: seq<Json>, i: nat, n: nat)
    requires i < n <= |items| && DecodeFirst(items, i).Ok? && Decode(items[i]).Err?
    ensures DecodeFirst(items, n) == Err(Decode(items[i]).error)
    decreases n
  {
    hide Decode;
    if n > i + 1 {
      FirstError(items, i, n - 1);
    }
  }

  method MarshalCondition(c: Condition) returns (j: Json)
    ensures j == Encode(c)
    decreases c
  {
    match c {
      case Composite(kind, children, child) =>
        var m := map["type" := JStr(kind)];
        if |children| > 0 {
          var raws: seq<Json> := [];
          for i := 0 to |children|
            invariant |raws| == i && forall k :: 0 <= k < i ==> raws[k] == Encode(children[k])
          {
            var raw := MarshalCondition(children[i]);
            raws := raws + [raw];
          }
          assert raws == EncodeAll(children);
          m := m["conditions" := JArr(raws)];
        }
        if child.Some? {
          var raw := MarshalCondition(child.value);
          m := m["condition" := raw];
        }
        j := JObj(m);
      case MinTransaction(m) => j := JObj(map["type" := JStr(MIN_TRANSACTION), "min_amount" := JNum(m)]);
      case Area(areas) => j := JObj(map["type" := JStr(AREA), "areas" := EncodeTexts(areas)]);
      case Category(cs) => j := JObj(map["type" := JStr(CATEGORY), "categories" := EncodeTexts(cs)]);
      case FirstNOrder(m) => j := JObj(map["type" := JStr(FIRST_N_ORDER), "max_orders" := JNum(m as real)]);
      case TimeSlot(start, end, days) =>
        j := JObj(map["type" := JStr(TIME_SLOT), "start" := JStr(start), "end" := JStr(end),
                      "days" := EncodeInts(days)]);
    }
  }
}
