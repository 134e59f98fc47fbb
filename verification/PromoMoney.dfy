/** Promotion effects and the money they move. Amounts are `real`; whole cents are multiples of
    1/100. */
module PromoMoney {
  import opened Reals
  import opened Rounding

  datatype EffectType = Percentage | Fixed | FreeShipping | Cashback | Unknown

  datatype Effect = Effect(kind: EffectType, value: real)

  function CalculateDiscount(e: Effect, amount: real): real {
    match e.kind
    case Percentage => amount * e.value / 100.0
    case Fixed => if e.value > amount then amount else e.value
    case FreeShipping => 0.0
    case Cashback => e.value
    case Unknown => 0.0
  }

  // What is left of a cart after the given effects, each taken from what the previous ones left.
  function RemainingAfter(cart: real, effects: seq<Effect>): real {
    if effects == [] then cart
    else
      var last := |effects| - 1;
      var before := RemainingAfter(cart, effects[..last]);
      Round2(before - CalculateDiscount(effects[last], before))
  }

  // The discount the i-th effect is applied with, before rounding.
  function DiscountAt(cart: real, effects: seq<Effect>, i: nat): real
    requires i < |effects|
  {
    CalculateDiscount(effects[i], RemainingAfter(cart, effects[..i]))
  }

  // The rounded discounts reported for the first n effects.
  function ReportedDiscounts(cart: real, effects: seq<Effect>, n: nat): real
    requires n <= |effects|
  {
    if n == 0 then 0.0 else ReportedDiscounts(cart, effects, n - 1) + Round2(DiscountAt(cart, effects, n - 1))
  }

  // How many of the first n discounts end in exactly half a cent.
  function HalfCents(cart: real, effects: seq<Effect>, n: nat): nat
    requires n <= |effects|
  {
    if n == 0 then 0
    else HalfCents(cart, effects, n - 1) + if IsHalfCent(DiscountAt(cart, effects, n - 1)) then 1 else 0
  }

  predicate IsHalfCent(v: real) {
    var d := v * 100.0;
    d - d.Floor as real == 0.5
  }

  // Effects that never take an amount above what it was nor below zero: a percentage between 0 and
  // 100, a fixed amount that is not negative by half a cent or more, and a cashback that rounds to
  // nothing.
  predicate Conforming(e: Effect) {
    match e.kind
    case Percentage => 0.0 <= e.value <= 100.0
    case Fixed => e.value > -0.005
    case FreeShipping => true
    case Cashback => -0.005 < e.value < 0.005
    case Unknown => true
  }

  // Effects that never take an amount below zero.
  predicate Safe(e: Effect) {
    match e.kind
    case Percentage => e.value <= 100.0
    case Fixed => true
    case FreeShipping => true
    case Cashback => e.value < 0.005
    case Unknown => true
  }

  // ---- Rounding ----

  // Both parts of a whole amount, rounded: they make up the whole, or one more on a half. A part may
  // fall outside the whole by less than a half.
  lemma RoundParts(c: int, d: real)
    requires c >= 0 && -0.5 < d < c as real + 0.5
    ensures RoundHalfAway(d) + RoundHalfAway(c as real - d) == c + if d - d.Floor as real == 0.5 then 1 else 0
    ensures 0 <= RoundHalfAway(d) && 0 <= RoundHalfAway(c as real - d) <= c
  {
    if d < 0.0 {
      FloorOf(-d + 0.5, 0);
      FloorOf(c as real - d + 0.5, c);
      FloorOf(d, -1);
    } else if d > c as real {
      FloorOf(d + 0.5, c);
      FloorOf(d - c as real + 0.5, 0);
      FloorOf(d, c);
    } else {
      RoundInside(c, d, d.Floor, d - d.Floor as real);
    }
  }

  lemma RoundInside(c: int, d: real, k: int, f: real)
    requires 0.0 <= d <= c as real && d == k as real + f && 0.0 <= f < 1.0
    ensures RoundHalfAway(d) + RoundHalfAway(c as real - d) == c + if f == 0.5 then 1 else 0
    ensures 0 <= RoundHalfAway(d) && 0 <= RoundHalfAway(c as real - d) <= c
  {
    if f < 0.5 {
      FloorOf(d + 0.5, k);
      FloorOf(c as real - d + 0.5, c - k);
    } else if f == 0.5 {
      FloorOf(d + 0.5, k + 1);
      FloorOf(c as real - d + 0.5, c - k);
    } else {
      FloorOf(d + 0.5, k + 1);
      FloorOf(c as real - d + 0.5, c - k - 1);
    }
  }

  /** What an effect takes from any amount: a percentage in proportion, a fixed amount in full unless there is
      less, a cashback in full whatever there is, and the others nothing. */
  lemma EffectsTake(e: Effect, amount: real)
    ensures var d := CalculateDiscount(e, amount);
            && (e.kind == Percentage ==> d * 100.0 == amount * e.value)
            && (e.kind == Fixed ==> d <= amount && d <= e.value && (d == amount || d == e.value))
            && (e.kind == Cashback ==> d == e.value)
            && (e.kind == FreeShipping || e.kind == Unknown ==> d == 0.0)
  {
  }

  lemma DiscountWithin(e: Effect, amount: real)
    requires Conforming(e) && amount >= 0.0
    ensures -0.005 < CalculateDiscount(e, amount) < amount + 0.005
    ensures !e.kind.Cashback? && e.value >= 0.0 ==> 0.0 <= CalculateDiscount(e, amount) <= amount
  {
    if e.kind == Percentage {
      PercentageWithin(amount, e.value, amount * e.value);
    }
  }

  lemma PercentageWithin(a: real, v: real, p: real)
    requires a >= 0.0 && p == a * v
    ensures v >= 0.0 ==> p >= 0.0
    ensures v <= 100.0 ==> p <= a * 100.0
  {
    if v >= 0.0 {
      NonNegativeProduct(a, v, p);
    }
    if v <= 100.0 {
      NonNegativeProduct(a, 100.0 - v, a * 100.0 - p);
    }
  }

  // ---- Conservation ----

  /** What is left is always a whole number of cents, whatever the effects. */
  lemma {:induction false} RemainingIsWhole(c: int, effects: seq<Effect>) returns (r: int)
    ensures RemainingAfter(Cents(c), effects) == Cents(r)
  {
    if effects == [] {
      r := c;
    } else {
      var last := |effects| - 1;
      var before := RemainingAfter(Cents(c), effects[..last]);
      r := RoundHalfAway((before - CalculateDiscount(effects[last], before)) * 100.0);
    }
  }

  // One conforming effect on a whole amount of cents.
  lemma OneEffect(c: int, e: Effect) returns (c': int, a: int)
    requires c >= 0 && Conforming(e)
    ensures var d := CalculateDiscount(e, Cents(c));
            && Round2(Cents(c) - d) == Cents(c') && Round2(d) == Cents(a)
            && 0 <= c' <= c && 0 <= a
            && a - (c - c') == if IsHalfCent(d) then 1 else 0
  {
    var d := CalculateDiscount(e, Cents(c));
    DiscountWithin(e, Cents(c));
    var dc := d * 100.0;
    hide CalculateDiscount;
    assert (Cents(c) - d) * 100.0 == c as real - dc;
    RoundParts(c, dc);
    c', a := RoundHalfAway(c as real - dc), RoundHalfAway(dc);
  }

  /** Conservation. A non-negative whole-cent cart under conforming effects stays between 0 and its
      total, and the reported discounts exceed what was really taken off by exactly one cent for
      each discount that ends in half a cent. */
  lemma {:induction false} DiscountsAddUp(c: int, effects: seq<Effect>, n: nat) returns (r: int)
    requires c >= 0 && n <= |effects| && forall i :: 0 <= i < |effects| ==> Conforming(effects[i])
    ensures RemainingAfter(Cents(c), effects[..n]) == Cents(r) && 0 <= r <= c
    ensures ReportedDiscounts(Cents(c), effects, n) - (Cents(c) - Cents(r)) == Cents(HalfCents(Cents(c), effects, n))
    ensures HalfCents(Cents(c), effects, n) <= n
  {
    hide Round2, CalculateDiscount, IsHalfCent, Conforming;
    if n == 0 {
      r := c;
    } else {
      var before := DiscountsAddUp(c, effects, n - 1);
      assert effects[..n][..n - 1] == effects[..n - 1];
      var c', a := OneEffect(before, effects[n - 1]);
      r := c';
    }
  }

  // What the resolver reports as final amount and as total discount.
  function FinalAmount(cart: real, effects: seq<Effect>): real {
    var left := RemainingAfter(cart, effects);
    if left < 0.0 then 0.0 else left
  }

  function TotalDiscount(cart: real, effects: seq<Effect>): real {
    Round2(cart - RemainingAfter(cart, effects))
  }

  ghost predicate Balanced(c: int, effects: seq<Effect>) {
    FinalAmount(Cents(c), effects) + TotalDiscount(Cents(c), effects) == Cents(c)
  }

  // Balanced, never above the cart, and reported amounts within a cent per effect.
  ghost predicate Sound(c: int, effects: seq<Effect>) {
    && Balanced(c, effects)
    && 0.0 <= FinalAmount(Cents(c), effects) <= Cents(c)
    && TotalDiscount(Cents(c), effects) <= ReportedDiscounts(Cents(c), effects, |effects|)
    && ReportedDiscounts(Cents(c), effects, |effects|) <= TotalDiscount(Cents(c), effects) + Cents(|effects|)
  }

  ghost predicate DrawnFrom(effects: seq<Effect>, rules: seq<Effect>) {
    forall e :: e in effects ==> e in rules
  }

  lemma BalancedAt(c: int, effects: seq<Effect>)
    ensures Balanced(c, effects) <==> RemainingAfter(Cents(c), effects) >= 0.0
  {
    var r := RemainingIsWhole(c, effects);
    Round2Whole(c - r);
    assert Cents(c) - Cents(r) == Cents(c - r);
  }

  /** Conforming effects keep the whole promise, in any order and number. */
  lemma ConformingIsSound(c: int, effects: seq<Effect>)
    requires c >= 0 && forall e :: e in effects ==> Conforming(e)
    ensures Sound(c, effects)
  {
    hide Conforming, CalculateDiscount, Round2;
    assert effects[..|effects|] == effects;
    var r := DiscountsAddUp(c, effects, |effects|);
    BalancedAt(c, effects);
    Round2Whole(c - r);
    assert Cents(c) - Cents(r) == Cents(c - r);
  }

  lemma SafeStep(c: int, e: Effect)
    requires c >= 0 && Safe(e)
    ensures Round2(Cents(c) - CalculateDiscount(e, Cents(c))) >= 0.0
  {
    var d := CalculateDiscount(e, Cents(c));
    if e.kind == Percentage {
      PercentageWithin(Cents(c), e.value, Cents(c) * e.value);
    }
    var x := (Cents(c) - d) * 100.0;
    assert x > -0.5;
    if x < 0.0 {
      FloorOf(-x + 0.5, 0);
    }
  }

  lemma {:induction false} SafeStaysAbove(c: int, effects: seq<Effect>)
    requires c >= 0 && forall e :: e in effects ==> Safe(e)
    ensures RemainingAfter(Cents(c), effects) >= 0.0
  {
    hide Safe, CalculateDiscount, Round2;
    if effects != [] {
      var last := |effects| - 1;
      SafeStaysAbove(c, effects[..last]);
      var r := RemainingIsWhole(c, effects[..last]);
      SafeStep(r, effects[last]);
    }
  }

  lemma OneEffectLeaves(c: int, e: Effect, x: real)
    requires x == (Cents(c) - CalculateDiscount(e, Cents(c))) * 100.0
    ensures RemainingAfter(Cents(c), [e]) == Cents(RoundHalfAway(x))
  {
    assert [e][..0] == [];
    hide RoundHalfAway, CalculateDiscount;
  }

  lemma RoundsBelow(x: real)
    requires x <= -0.5
    ensures RoundHalfAway(x) <= -1
  {
  }

  lemma RoundsAbove(c: int, x: real)
    requires c >= 0 && x >= c as real + 0.5
    ensures RoundHalfAway(x) >= c + 1
  {
  }

  // A cart big enough for a positive rate, in percent, to come to a whole cent of it.
  function Enough(rate: real): (c: int)
    requires rate > 0.0
    ensures c > 0 && Cents(c) * rate >= 1.0
  {
    var c := (100.0 / rate).Floor + 1;
    Reaches(c, rate);
    c
  }

  lemma Reaches(c: int, rate: real)
    requires rate > 0.0 && c as real > 100.0 / rate
    ensures c > 0 && Cents(c) * rate >= 1.0
  {
    var q := 100.0 / rate;
    assert q * rate == 100.0;
    var gap := c as real - q;
    NonNegativeProduct(gap, rate, gap * rate);
    assert gap * rate == c as real * rate - 100.0;
    assert Cents(c) * rate == c as real * rate / 100.0;
  }

  lemma PercentLeaves(c: int, e: Effect) returns (x: real)
    requires e.kind == Percentage
    ensures x == (Cents(c) - CalculateDiscount(e, Cents(c))) * 100.0 == c as real - Cents(c) * e.value
  {
    x := (Cents(c) - CalculateDiscount(e, Cents(c))) * 100.0;
  }

  // An unsafe effect and a cart that it takes below zero.
  lemma Unsafe(e: Effect) returns (c: int)
    requires !Safe(e)
    ensures c >= 0 && RemainingAfter(Cents(c), [e]) < 0.0
    ensures FinalAmount(Cents(c), [e]) == 0.0 && TotalDiscount(Cents(c), [e]) > Cents(c)
  {
    var x: real;
    if e.kind == Percentage {
      var rate := e.value - 100.0;
      c := Enough(rate);
      x := PercentLeaves(c, e);
      assert Cents(c) * rate == Cents(c) * e.value - Cents(c) * 100.0;
    } else {
      c := 0;
      x := (Cents(c) - CalculateDiscount(e, Cents(c))) * 100.0;
    }
    hide CalculateDiscount, RemainingAfter, RoundHalfAway;
    OneEffectLeaves(c, e, x);
    RoundsBelow(x);
  }

  // A safe effect that does not conform, and a cart that it raises.
  lemma Raises(e: Effect) returns (c: int)
    requires Safe(e) && !Conforming(e)
    ensures c >= 0 && RemainingAfter(Cents(c), [e]) > Cents(c)
  {
    var x: real;
    if e.kind == Percentage {
      c := Enough(-e.value);
      x := PercentLeaves(c, e);
      assert Cents(c) * -e.value == -(Cents(c) * e.value);
    } else {
      c := 0;
      x := (Cents(c) - CalculateDiscount(e, Cents(c))) * 100.0;
    }
    hide CalculateDiscount, RemainingAfter, RoundHalfAway;
    OneEffectLeaves(c, e, x);
    RoundsAbove(c, x);
  }

  ghost predicate AlwaysBalanced(rules: seq<Effect>) {
    forall c: nat, effects :: DrawnFrom(effects, rules) ==> Balanced(c, effects)
  }

  ghost predicate AlwaysSound(rules: seq<Effect>) {
    forall c: nat, effects :: DrawnFrom(effects, rules) ==> Sound(c, effects)
  }

  /** Final amount and total discount make up every cart, whichever of the effects are applied and in
      whatever order, if and only if every effect is a percentage up to 100, a cashback below half a
      cent, or of another type. */
  lemma AlwaysBalancedIff(rules: seq<Effect>)
    ensures AlwaysBalanced(rules) <==> forall e :: e in rules ==> Safe(e)
  {
    hide Safe, Balanced;
    if forall e :: e in rules ==> Safe(e) {
      forall c: nat, effects | DrawnFrom(effects, rules)
        ensures Balanced(c, effects)
      {
        SafeStaysAbove(c, effects);
        BalancedAt(c, effects);
      }
    } else {
      var e :| e in rules && !Safe(e);
      var c := Unsafe(e);
      BalancedAt(c, [e]);
      assert DrawnFrom([e], rules);
    }
  }

  /** The whole promise (balanced, between 0 and the cart, and reported amounts that exceed the
      discount by at most a cent per effect) holds for every cart, order and choice of effects if and
      only if all of them conform. */
  lemma AlwaysSoundIff(rules: seq<Effect>)
    ensures AlwaysSound(rules) <==> forall e :: e in rules ==> Conforming(e)
  {
    hide Safe, Conforming, Balanced;
    if forall e :: e in rules ==> Conforming(e) {
      forall c: nat, effects | DrawnFrom(effects, rules)
        ensures Sound(c, effects)
      {
        ConformingIsSound(c, effects);
      }
    } else {
      var e :| e in rules && !Conforming(e);
      assert DrawnFrom([e], rules);
      if Safe(e) {
        var c := Raises(e);
        assert !Sound(c, [e]);
      } else {
        var c := Unsafe(e);
        BalancedAt(c, [e]);
        assert !Sound(c, [e]);
      }
    }
  }
}
