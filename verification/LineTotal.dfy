/** The price of one cart line: gross, quantity discount, rounding to the satang. */
module LineTotal {
  import opened Wrappers

  type Satang = int

  /** Percent is in hundredths: 12.5% is 1250. */
  datatype QuantityDiscountRule = QuantityDiscountRule(minQty: Option<nat>, percent: Option<nat>)

  datatype Total = Total(
    unitPrice: Satang, effectiveUnitPrice: Satang, discountPercent: Option<nat>, discountAmount: Satang,
        subtotal: Satang)

  /** n / d to the nearest integer, a tie going away from zero, as Decimal rounds by default. */
  function RoundedQuotient(n: int, d: int): int
    requires d > 0
  {
    if n >= 0 then (2 * n + d) / (2 * d) else -((2 * -n + d) / (2 * d))
  }

  predicate Qualifies(quantity: nat, rule: QuantityDiscountRule) {
    rule.minQty.Some? && rule.percent.Some? && quantity >= rule.minQty.value
  }

  function CalculateLineTotal(unitPrice: Satang, quantity: nat, rule: QuantityDiscountRule): Total {
    var gross := unitPrice * quantity;
    if !Qualifies(quantity, rule) then Total(unitPrice, unitPrice, None, 0, gross)
    else
      var effective := RoundedQuotient(unitPrice * (10_000 - rule.percent.value), 10_000);
      var subtotal := effective * quantity;
      Total(unitPrice, effective, rule.percent, gross - subtotal, subtotal)
  }

  /** The rounded quotient is within half a unit of the exact one, a tie going away from zero. */
  lemma {:induction false} RoundsToNearest(n: int, d: int)
    requires d > 0
    ensures n >= 0 ==> -d < 2 * d * RoundedQuotient(n, d) - 2 * n <= d
    ensures n < 0 ==> -d <= 2 * d * RoundedQuotient(n, d) - 2 * n < d
    ensures n >= 0 ==> RoundedQuotient(n, d) >= 0
  {
    var m := if n >= 0 then n else -n;
    var twice := 2 * d;
    var q := (2 * m + d) / twice;
    assert RoundedQuotient(n, d) == if n >= 0 then q else -q;
    hide RoundedQuotient;
    Division(2 * m + d, twice);
    Regroup(d, q, twice);
  }

  lemma {:induction false} Division(n: int, d: int)
    requires d > 0
    ensures d * (n / d) <= n < d * (n / d) + d
    ensures n >= 0 ==> n / d >= 0
  {
  }

  lemma {:induction false} Regroup(d: int, q: int, twice: int)
    requires twice == 2 * d
    ensures 2 * d * q == twice * q && 2 * d * -q == -(twice * q)
  {
  }

  lemma {:induction false} LessOfAPrice(price: Satang, part: int)
    requires price >= 0 && 0 <= part <= 10_000
    ensures 0 <= price * part <= price * 10_000
  {
  }

  /**
   * A line at this price: below the threshold, or without a rule, the full price;
   * from the threshold on, price * (100 - percent) / 100 to the nearest satang,
   * half a satang up; and the unit price times the quantity is what is paid.
   */
  ghost predicate PricedBy(unitPrice: Satang, subtotal: Satang, price: Satang, quantity: nat,
      rule: QuantityDiscountRule) {
    && subtotal == unitPrice * quantity
    && (rule.minQty.None? || rule.percent.None? || quantity < rule.minQty.value ==> unitPrice == price)
    && (rule.minQty.Some? && rule.percent.Some? && quantity >= rule.minQty.value ==>
          var exact := price * (10_000 - rule.percent.value);
          -10_000 <= 20_000 * unitPrice - 2 * exact <= 10_000
              && (exact >= 0 ==> 20_000 * unitPrice - 2 * exact > -10_000))
  }

  lemma {:induction false} TotalIsPriced(price: Satang, quantity: nat, rule: QuantityDiscountRule)
    ensures
      var t := CalculateLineTotal(price, quantity, rule);
      PricedBy(t.effectiveUnitPrice, t.subtotal, price, quantity, rule)
  {
    if Qualifies(quantity, rule) { RoundsToNearest(price * (10_000 - rule.percent.value), 10_000); }
    hide RoundedQuotient;
  }

  /**
   * The line adds up exactly: what is paid is the discounted unit price times
   * the quantity, discount plus subtotal is the gross, and the discounted unit
   * price is within half a satang of price * (100 - percent) / 100.
   */
  lemma {:induction false} LineAddsUp(price: Satang, quantity: nat, rule: QuantityDiscountRule)
    requires price >= 0 && (rule.percent.Some? ==> rule.percent.value <= 10_000)
    ensures
      var t := CalculateLineTotal(price, quantity, rule);
      && t.subtotal == t.effectiveUnitPrice * quantity
      && t.discountAmount + t.subtotal == price * quantity
      && 0 <= t.effectiveUnitPrice <= price
      && 0 <= t.subtotal && 0 <= t.discountAmount
      && var discounted := rule.minQty.Some? && rule.percent.Some? && quantity >= rule.minQty.value;
      && t.discountPercent == (if discounted then rule.percent else None)
      && (!discounted ==> t.effectiveUnitPrice == price)
      && (discounted ==>
            -10_000 < 20_000 * t.effectiveUnitPrice - 2 * price * (10_000 - rule.percent.value) <= 10_000)
  {
    var t := CalculateLineTotal(price, quantity, rule);
    if Qualifies(quantity, rule) {
      var part := 10_000 - rule.percent.value;
      LessOfAPrice(price, part);
      RoundsToNearest(price * part, 10_000);
      assert 2 * price * part == 2 * (price * part);
      assert 20_000 * t.effectiveUnitPrice <= 20_000 * price + 10_000;
    }
    Product(t.effectiveUnitPrice, quantity);
    Product(price - t.effectiveUnitPrice, quantity);
    assert price * quantity - t.effectiveUnitPrice * quantity == (price - t.effectiveUnitPrice) * quantity;
  }

  lemma {:induction false} Product(a: int, b: int)
    requires a >= 0 && b >= 0
    ensures a * b >= 0
  {
  }

  lemma {:induction false} RoundingKeepsOrder(a: int, b: int, d: int)
    requires d > 0 && a <= b
    ensures RoundedQuotient(a, d) <= RoundedQuotient(b, d)
  {
    RoundsToNearest(a, d);
    RoundsToNearest(b, d);
    var twice := 2 * d;
    var x, y := RoundedQuotient(a, d), RoundedQuotient(b, d);
    hide RoundedQuotient;
    assert twice * x <= 2 * a + d && 2 * b - d <= twice * y;
    Steps(twice, x, y);
    assert x > y ==> a == b;
  }

  lemma {:induction false} Steps(d: int, x: int, y: int)
    requires d > 0
    ensures x > y ==> d * x >= d * y + d
  {
    if x > y {
      Product(d, x - y - 1);
      assert d * x == d * y + d + d * (x - y - 1);
    }
  }

  lemma {:induction false} InOrder(a: int, b: int, factor: int)
    requires a <= b && factor >= 0
    ensures a * factor <= b * factor
  {
    Product(b - a, factor);
    assert b * factor == a * factor + (b - a) * factor;
  }

  /** A dearer unit never makes a cheaper line. */
  lemma {:induction false} PriceIsMonotone(price: Satang, dearer: Satang, quantity: nat, rule: QuantityDiscountRule)
    requires price <= dearer && (rule.percent.Some? ==> rule.percent.value <= 10_000)
    ensures CalculateLineTotal(price, quantity, rule).subtotal <= CalculateLineTotal(dearer, quantity, rule).subtotal
  {
    if Qualifies(quantity, rule) {
      var part := 10_000 - rule.percent.value;
      InOrder(price, dearer, part);
      RoundingKeepsOrder(price * part, dearer * part, 10_000);
      hide RoundedQuotient;
      InOrder(RoundedQuotient(price * part, 10_000), RoundedQuotient(dearer * part, 10_000), quantity);
    } else {
      InOrder(price, dearer, quantity);
    }
  }

  /** A bigger discount never makes a dearer line. */
  lemma {:induction false} DiscountIsMonotone(price: Satang, quantity: nat, minQty: nat, less: nat, more: nat)
    requires price >= 0 && less <= more <= 10_000
    ensures CalculateLineTotal(price, quantity, QuantityDiscountRule(Some(minQty), Some(more))).subtotal
            <= CalculateLineTotal(price, quantity, QuantityDiscountRule(Some(minQty), Some(less))).subtotal
  {
    if quantity >= minQty {
      var a, b := price * (10_000 - more), price * (10_000 - less);
      InOrder(10_000 - more, 10_000 - less, price);
      RoundingKeepsOrder(a, b, 10_000);
      hide RoundedQuotient;
      InOrder(RoundedQuotient(a, 10_000), RoundedQuotient(b, 10_000), quantity);
    }
  }
}
