/** Percentage coupons. Prices count ten-thousandths of a cent, percentages hundredths of a percent. */
module Coupons {
  import opened Common

  const CENT: int := 10_000
  const WHOLE: int := 10_000

  /** A unit price and how many units. */
  datatype Item = Item(price: int, quantity: int)

  datatype Coupon = Coupon(percent: int, currency: string, minimum: int, maxUses: int, used: int, expiresAt: int,
                           active: bool)

  /** The table's check constraint. */
  predicate WithinLimits(c: Coupon) {
    0 < c.percent <= 9_000 && c.minimum >= 0 && c.maxUses > 0 && 0 <= c.used <= c.maxUses
  }

  /** Division that drops the fraction, toward zero. */
  function Truncate(a: int, b: int): int
    requires b > 0
  {
    if a >= 0 then a / b else -((-a) / b)
  }

  /** The discount on one unit, in whole cents. */
  function Off(price: int, percent: int): int {
    CENT * Truncate(price * percent, WHOLE * CENT)
  }

  /** The discounted unit price, at least a cent. */
  function Discounted(price: int, percent: int): (r: int)
    ensures r >= CENT
  {
    var p := price - Off(price, percent);
    if p < CENT then CENT else p
  }

  function Gross(items: seq<Item>): int {
    if items == [] then 0 else Gross(items[..|items| - 1]) + items[|items| - 1].price * items[|items| - 1].quantity
  }

  function Reduced(items: seq<Item>, percent: int): (r: seq<Item>)
    ensures |r| == |items|
    ensures forall i | 0 <= i < |r| :: r[i] == Item(Discounted(items[i].price, percent), items[i].quantity)
  {
    seq(|items|, i requires 0 <= i < |items| => Item(Discounted(items[i].price, percent), items[i].quantity))
  }

  function Net(items: seq<Item>, percent: int): int {
    Gross(Reduced(items, percent))
  }

  function Units(items: seq<Item>): int {
    if items == [] then 0 else Units(items[..|items| - 1]) + items[|items| - 1].quantity
  }

  /** Whole-cent prices of at least a cent, positive quantities. */
  predicate WholeCents(items: seq<Item>) {
    forall i | 0 <= i < |items| :: items[i].price >= CENT && items[i].price % CENT == 0 && items[i].quantity > 0
  }

  lemma GrossAppend(items: seq<Item>, item: Item)
    ensures Gross(items + [item]) == Gross(items) + item.price * item.quantity
    ensures Units(items + [item]) == Units(items) + item.quantity
  {
  }

  /** One whole-cent unit: the floor of a cent does not bind, and the discount is the percentage
      rounded down to a cent. */
  lemma {:induction false} WholeCentUnit(price: int, percent: int)
    requires price >= CENT && price % CENT == 0 && 0 < percent <= 9_000
    ensures Discounted(price, percent) == price - Off(price, percent) && Off(price, percent) % CENT == 0
    ensures 0 <= Off(price, percent)
            && Off(price, percent) * WHOLE <= price * percent < (Off(price, percent) + CENT) * WHOLE
  {
    var cents := price / CENT;
    assert price == cents * CENT;
    var product := price * percent;
    var q := product / (WHOLE * CENT);
    assert product >= 0 by { Product(price, percent); }
    DivisionBounds(product, WHOLE * CENT);
    assert Off(price, percent) == CENT * q;
    assert product <= price * 9_000 by { ProductMonotone(price, percent, 9_000); }
    assert q * (WHOLE * CENT) <= price * 9_000;
    assert q < cents;
  }

  lemma Product(a: int, b: int)
    requires a >= 0 && b >= 0
    ensures a * b >= 0
  {
  }

  lemma ProductMonotone(a: int, b: int, c: int)
    requires a >= 0 && b <= c
    ensures a * b <= a * c
  {
  }

  lemma DivisionBounds(a: int, b: int)
    requires a >= 0 && b > 0
    ensures a / b >= 0 && (a / b) * b <= a < (a / b) * b + b
  {
  }

  /** The floor of a cent binds exactly when the percentage of the price reaches all of its whole cents, and it raises
      the price exactly when there are none. */
  lemma {:induction false} FloorBindsExactlyWhen(price: int, percent: int)
    requires price >= 0 && 0 < percent <= 9_000
    ensures Discounted(price, percent) != price - Off(price, percent) ==> Discounted(price, percent) == CENT
    ensures price - Off(price, percent) < CENT <==> price * percent >= (price / CENT) * CENT * WHOLE
    ensures Discounted(price, percent) > price <==> price < CENT
  {
    var cents, product := price / CENT, price * percent;
    Product(price, percent);
    ProductMonotone(price, percent, 9_000);
    DivisionBounds(product, WHOLE * CENT);
    var q := product / (WHOLE * CENT);
    assert price == cents * CENT + price % CENT;
    assert q <= cents;
    assert price - Off(price, percent) == (cents - q) * CENT + price % CENT;
    QuotientReaches(product, WHOLE * CENT, cents);
  }

  lemma QuotientReaches(a: int, b: int, n: int)
    requires a >= 0 && b > 0
    ensures a / b >= n <==> a >= n * b
  {
    DivisionBounds(a, b);
    if a / b >= n {
      ProductMonotone(b, n, a / b);
    } else {
      ProductMonotone(b, a / b + 1, n);
    }
  }

  /** A price of 1.112 cents at ninety percent: the floor binds above a cent. */
  lemma FloorBindsAboveACent()
    ensures 11_120 - Off(11_120, 9_000) < CENT && Discounted(11_120, 9_000) == CENT
  {
  }

  /** For whole-cent prices the discount is at most the percentage of the total and short of it by less
      than a cent a unit. */
  lemma {:induction false} DiscountBounds(items: seq<Item>, percent: int)
    requires WholeCents(items) && 0 < percent <= 9_000
    ensures var discount := Gross(items) - Net(items, percent);
            && 0 <= discount && discount * WHOLE <= Gross(items) * percent
            && Gross(items) * percent <= (discount + CENT * Units(items)) * WHOLE
            && (items != [] ==> Gross(items) * percent < (discount + CENT * Units(items)) * WHOLE)
    decreases |items|
  {
    if items != [] {
      var n := |items| - 1;
      var front, last := items[..n], items[n];
      DiscountBounds(front, percent);
      WholeCentUnit(last.price, percent);
      var off := Off(last.price, percent);
      assert items == front + [last];
      assert Reduced(items, percent) == Reduced(front, percent) + [Item(last.price - off, last.quantity)];
      GrossAppend(front, last);
      GrossAppend(Reduced(front, percent), Item(last.price - off, last.quantity));
      OneItem(last.price, last.quantity, off, percent);
      Distribute(Gross(front), last.price * last.quantity, percent);
    }
  }

  lemma Distribute(a: int, b: int, c: int)
    ensures (a + b) * c == a * c + b * c
  {
  }

  /** What holds of a unit holds of a quantity of them. */
  lemma OneItem(price: int, quantity: int, off: int, percent: int)
    requires quantity > 0 && off >= 0 && off * WHOLE <= price * percent < (off + CENT) * WHOLE
    ensures price * quantity - (price - off) * quantity == off * quantity >= 0
    ensures (off * quantity) * WHOLE <= (price * quantity) * percent < (off * quantity + CENT * quantity) * WHOLE
  {
  }

  /** The coupon is usable for an order of this total now, its uses included. */
  predicate Usable(k: Coupon, total: int, currency: string, now: int) {
    k.active && now < k.expiresAt && k.currency == currency && k.minimum <= total && k.used < k.maxUses
  }

  lemma NetAppend(items: seq<Item>, n: nat, percent: int)
    requires n < |items|
    ensures Net(items[..n + 1], percent)
            == Net(items[..n], percent) + Discounted(items[n].price, percent) * items[n].quantity
  {
    var item := Item(Discounted(items[n].price, percent), items[n].quantity);
    assert Reduced(items[..n + 1], percent) == Reduced(items[..n], percent) + [item];
    GrossAppend(Reduced(items[..n], percent), item);
  }

  /** The discounted unit prices and what they come to. */
  method Reprice(items: seq<Item>, percent: int) returns (prices: seq<int>, total: int)
    ensures |prices| == |items| && forall i | 0 <= i < |items| :: prices[i] == Discounted(items[i].price, percent)
    ensures total == Net(items, percent)
  {
    prices, total := [], 0;
    for i := 0 to |items|
      invariant |prices| == i && forall j | 0 <= j < i :: prices[j] == Discounted(items[j].price, percent)
      invariant total == Net(items[..i], percent)
    {
      var price := items[i].price - Off(items[i].price, percent);
      price := if price < CENT then CENT else price;
      prices := prices + [price];
      NetAppend(items, i, percent);
      total := total + price * items[i].quantity;
    }
    assert items[..|items|] == items;
  }

  /** An order under checkout, with the coupon row it has locked. */
  class Redeemer {
    var coupon: Option<Coupon>
    var total: int
    var discounts: seq<int>

    /** Applies the coupon: the new unit prices, or `None` for an error, after which the caller rolls back
        and nothing has changed. */
    method ApplyCoupon(items: seq<Item>, currency: string, now: int) returns (effective: Option<seq<int>>)
      modifies this
      ensures effective.Some? <==> old(coupon).Some? && Usable(old(coupon).value, old(total), currency, now)
                                   && Net(items, old(coupon).value.percent) < old(total)
      ensures effective.Some? ==>
                var k := old(coupon).value;
                k.active && now < k.expiresAt && k.currency == currency && k.minimum <= old(total) && k.used < k.maxUses
      ensures old(coupon).Some? && effective.None? ==>
                var k := old(coupon).value;
                || !k.active || now >= k.expiresAt || k.currency != currency || k.minimum > old(total)
                || k.used >= k.maxUses || Net(items, k.percent) >= old(total)
      ensures effective.Some? ==>
                var k := old(coupon).value;
                && |effective.value| == |items|
                && (forall i | 0 <= i < |items| :: effective.value[i] == Discounted(items[i].price, k.percent))
                && coupon == Some(k.(used := k.used + 1)) && total == Net(items, k.percent)
                && discounts == old(discounts) + [old(total) - total]
      ensures effective.None? ==> coupon == old(coupon) && total == old(total) && discounts == old(discounts)
    {
      if coupon.None? || !Usable(coupon.value, total, currency, now) {
        return None;
      }
      var k := coupon.value;
      var prices, discounted := Reprice(items, k.percent);
      if total - discounted <= 0 {
        return None;
      }
      coupon := Some(k.(used := k.used + 1));
      discounts := discounts + [total - discounted];
      total := discounted;
      return Some(prices);
    }
  }
}
