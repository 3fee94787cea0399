/** One checkout from validation to commit, as a program over the tables. Run without interruption
    it is the steps of one transaction in `Checkout`. */
module CheckoutDesk {
  import opened Common
  import opened CheckoutRequests
  import opened Checkout
  import Coupons
  import History = CheckoutHistory

  /** What the outside contributes: the variants found, their quotes, the coupon row and the time. */
  datatype Inputs = Inputs(variants: seq<nat>, prices: map<nat, int>, currency: string, coupon: nat, now: int)

  /** Itemising, charging and committing a priced draft. */
  function Finished(w: World, txn: nat, d: Draft): World {
    if d.amount <= 0 then At(w, txn, Refused) else Committed(w, txn, Debited(WithItems(d)))
  }

  function Priced(w: World, txn: nat, d: Draft, i: Inputs): World {
    if !WithCoupon(d.call) then Finished(w, txn, d)
    else if i.coupon !in w.coupons || !Redeemable(w.coupons[i.coupon], d, i.now) then At(w, txn, Refused)
    else Finished(w, txn, Lowered(d, i.coupon, w.coupons[i.coupon].percent, i.now))
  }

  /** A whole checkout. */
  ghost function CheckedOut(w: World, txn: nat, c: Call, i: Inputs): World {
    var found := Find(w.orders, c.tenant, c.user, StoredKey(c.raw.key));
    if !Acceptable(c) then At(w, txn, Refused)
    else if found.Some? then At(w, txn, Resume(w.orders, found.value, c))
    else if !Quoted(CartOf(c.raw.lines), i.variants, i.prices) then At(w, txn, Refused)
    else Priced(w, txn, NewDraft(c, i.variants, i.prices, i.currency), i)
  }

  /** What the cart comes to at these prices. */
  function Comes(c: Call, i: Inputs, prices: map<nat, int>): int {
    TotalOf(CartOf(c.raw.lines), i.variants, prices)
  }

  /** A new order goes through: every variant found, something to pay, and the coupon, if the request has one, active,
      unexpired, in the currency, with a use left, and worth something to an order that reaches its minimum. */
  ghost predicate GoesThrough(w: World, c: Call, i: Inputs) {
    && Quoted(CartOf(c.raw.lines), i.variants, i.prices)
    && (!WithCoupon(c) ==> Comes(c, i, i.prices) > 0)
    && (WithCoupon(c) ==>
          && i.coupon in w.coupons
          && var k := w.coupons[i.coupon];
             && k.active && i.now < k.expiresAt && k.currency == i.currency && k.used < k.maxUses
             && k.minimum <= Comes(c, i, i.prices)
             && 0 < Comes(c, i, Reduced(i.prices, k.percent)) < Comes(c, i, i.prices))
  }

  /** A priced draft is answered exactly when there is something to pay. */
  lemma FinishedExactly(w: World, txn: nat, d: Draft)
    ensures var w' := Finished(w, txn, d);
            txn in w'.txns && (if d.amount > 0 then w'.txns[txn].Answered? else w'.txns[txn].Refused?)
  {
  }

  /** The coupon can be applied to a new draft exactly under its conditions. */
  lemma RedeemableExactly(k: Coupons.Coupon, c: Call, i: Inputs)
    ensures Redeemable(k, NewDraft(c, i.variants, i.prices, i.currency), i.now) <==>
            && k.active && i.now < k.expiresAt && k.currency == i.currency && k.used < k.maxUses
            && k.minimum <= Comes(c, i, i.prices) && Comes(c, i, Reduced(i.prices, k.percent)) < Comes(c, i, i.prices)
    ensures Lowered(NewDraft(c, i.variants, i.prices, i.currency), i.coupon, k.percent, i.now).amount
            == Comes(c, i, Reduced(i.prices, k.percent))
  {
  }

  lemma PricedExactly(w: World, txn: nat, c: Call, i: Inputs)
    requires Quoted(CartOf(c.raw.lines), i.variants, i.prices)
    ensures var w' := Priced(w, txn, NewDraft(c, i.variants, i.prices, i.currency), i);
            txn in w'.txns && (if GoesThrough(w, c, i) then w'.txns[txn].Answered? else w'.txns[txn].Refused?)
  {
    var d := NewDraft(c, i.variants, i.prices, i.currency);
    if !WithCoupon(c) {
      FinishedExactly(w, txn, d);
    } else if i.coupon in w.coupons {
      RedeemableExactly(w.coupons[i.coupon], c, i);
      FinishedExactly(w, txn, Lowered(d, i.coupon, w.coupons[i.coupon].percent, i.now));
    }
  }

  /** The request is acceptable and either repeats an order or goes through. */
  ghost predicate Succeeds(w: World, c: Call, i: Inputs) {
    && !History.Unacceptable(c)
    && var found := Find(w.orders, c.tenant, c.user, StoredKey(c.raw.key));
       if found.Some? then w.orders[found.value].payload == PayloadOf(c) else GoesThrough(w, c, i)
  }

  /** A checkout is answered exactly then, and refused otherwise. */
  lemma CheckedOutExactlyWhen(w: World, txn: nat, c: Call, i: Inputs)
    ensures var w' := CheckedOut(w, txn, c, i);
            txn in w'.txns && (if Succeeds(w, c, i) then w'.txns[txn].Answered? else w'.txns[txn].Refused?)
  {
    History.UnacceptableExactly(c);
    if Quoted(CartOf(c.raw.lines), i.variants, i.prices) {
      PricedExactly(w, txn, c, i);
    }
  }

  /** The first three steps of a checkout, and the last four. */
  ghost function Opening(w: World, txn: nat, c: Call, i: Inputs): World {
    Next(Next(Next(w, Begin(txn, c)), Lookup(txn)), Place(txn, i.variants, i.prices, i.currency))
  }

  ghost function Closing(w: World, txn: nat, i: Inputs): World {
    Ending(Next(w, Discount(txn, i.coupon, i.now)), txn)
  }

  ghost function Ending(w: World, txn: nat): World {
    Next(Next(Next(w, Itemise(txn)), Charge(txn)), Commit(txn))
  }

  /** A priced draft is itemised, charged and committed. */
  lemma EndingPass(w: World, txn: nat, t: Txn)
    requires t.Discounted? || (t.Placed? && !WithCoupon(t.draft.call))
    ensures Ending(At(w, txn, t), txn) == Finished(w, txn, t.draft)
  {
    var items := WithItems(t.draft);
    ItemisePass(w, txn, t);
    ChargePass(w, txn, items);
    if items.amount > 0 {
      CommitPass(w, txn, Debited(items));
    } else {
      EndedStays(At(w, txn, Refused), txn, Inputs([], map[], "", 0, 0));
    }
  }

  lemma ItemisePass(w: World, txn: nat, t: Txn)
    requires t.Discounted? || (t.Placed? && !WithCoupon(t.draft.call))
    ensures Next(At(w, txn, t), Itemise(txn)) == At(w, txn, Itemised(WithItems(t.draft)))
  {
    assert w.txns[txn := t][txn := Itemised(WithItems(t.draft))] == w.txns[txn := Itemised(WithItems(t.draft))];
  }

  lemma ChargePass(w: World, txn: nat, d: Draft)
    ensures Next(At(w, txn, Itemised(d)), Charge(txn))
            == At(w, txn, if d.amount <= 0 then Refused else Charged(Debited(d)))
  {
    var t := if d.amount <= 0 then Refused else Charged(Debited(d));
    assert w.txns[txn := Itemised(d)][txn := t] == w.txns[txn := t];
  }

  lemma CommitPass(w: World, txn: nat, d: Draft)
    ensures Next(At(w, txn, Charged(d)), Commit(txn)) == Committed(w, txn, d)
  {
    var t := Answered(d.call, |w.orders|);
    assert w.txns[txn := Charged(d)][txn := t] == w.txns[txn := t];
  }

  /** The order is placed and only pricing is left. */
  lemma ClosingPass(w: World, txn: nat, d: Draft, i: Inputs)
    requires txn !in w.txns && CouponFree(w, i.coupon) && d.coupon.None?
    ensures Closing(At(w, txn, Placed(d)), txn, i) == Priced(w, txn, d, i)
  {
    DiscountPass(w, txn, d, i);
    if !WithCoupon(d.call) {
      EndingPass(w, txn, Placed(d));
    } else if i.coupon in w.coupons && Redeemable(w.coupons[i.coupon], d, i.now) {
      EndingPass(w, txn, Discounted(Lowered(d, i.coupon, w.coupons[i.coupon].percent, i.now)));
    } else {
      EndedStays(At(w, txn, Refused), txn, i);
    }
  }

  lemma DiscountPass(w: World, txn: nat, d: Draft, i: Inputs)
    requires txn !in w.txns && CouponFree(w, i.coupon) && d.coupon.None?
    ensures Next(At(w, txn, Placed(d)), Discount(txn, i.coupon, i.now)) ==
            At(w, txn, if !WithCoupon(d.call) then Placed(d)
                       else if i.coupon !in w.coupons || !Redeemable(w.coupons[i.coupon], d, i.now)
                         then Refused
                       else Discounted(Lowered(d, i.coupon, w.coupons[i.coupon].percent, i.now)))
  {
    var v := At(w, txn, Placed(d));
    assert CouponFree(v, i.coupon);
    var t := if i.coupon !in w.coupons || !Redeemable(w.coupons[i.coupon], d, i.now) then Refused
             else Discounted(Lowered(d, i.coupon, w.coupons[i.coupon].percent, i.now));
    assert v.txns[txn := t] == w.txns[txn := t];
  }

  /** Looking up and placing. */
  lemma OpeningPass(w: World, txn: nat, c: Call, i: Inputs)
    requires txn !in w.txns && Acceptable(c) && !InFlight(w, c.tenant, c.user, StoredKey(c.raw.key))
    ensures var found := Find(w.orders, c.tenant, c.user, StoredKey(c.raw.key));
            Opening(w, txn, c, i) == At(w, txn, if found.Some? then Resume(w.orders, found.value, c)
                                                else if !Quoted(CartOf(c.raw.lines), i.variants, i.prices) then Refused
                                                else Placed(NewDraft(c, i.variants, i.prices, i.currency)))
  {
    assert Next(w, Begin(txn, c)) == At(w, txn, Looking(c));
    LookPass(w, txn, c);
    var found := Find(w.orders, c.tenant, c.user, StoredKey(c.raw.key));
    if found.Some? {
      var v := At(w, txn, Resume(w.orders, found.value, c));
      assert Next(v, Place(txn, i.variants, i.prices, i.currency)) == v;
    } else {
      MissedPlaces(w, txn, c, i);
    }
  }

  lemma LookPass(w: World, txn: nat, c: Call)
    ensures var found := Find(w.orders, c.tenant, c.user, StoredKey(c.raw.key));
            Next(At(w, txn, Looking(c)), Lookup(txn)) ==
            At(w, txn, if found.Some? then Resume(w.orders, found.value, c) else Missed(c))
  {
    var found := Find(w.orders, c.tenant, c.user, StoredKey(c.raw.key));
    var looked := if found.Some? then Resume(w.orders, found.value, c) else Missed(c);
    assert At(w, txn, Looking(c)).txns[txn := looked] == w.txns[txn := looked];
  }

  lemma MissedPlaces(w: World, txn: nat, c: Call, i: Inputs)
    requires txn !in w.txns && !InFlight(w, c.tenant, c.user, StoredKey(c.raw.key))
    requires Find(w.orders, c.tenant, c.user, StoredKey(c.raw.key)).None?
    ensures Next(At(w, txn, Missed(c)), Place(txn, i.variants, i.prices, i.currency)) ==
            At(w, txn, if !Quoted(CartOf(c.raw.lines), i.variants, i.prices) then Refused
                       else Placed(NewDraft(c, i.variants, i.prices, i.currency)))
  {
    var v := At(w, txn, Missed(c));
    assert !InFlight(v, c.tenant, c.user, StoredKey(c.raw.key));
    var placed := if !Quoted(CartOf(c.raw.lines), i.variants, i.prices) then Refused
                  else Placed(NewDraft(c, i.variants, i.prices, i.currency));
    assert v.txns[txn := placed] == w.txns[txn := placed];
  }

  /** An ended checkout does not move. */
  lemma EndedStays(w: World, txn: nat, i: Inputs)
    requires txn in w.txns && (w.txns[txn].Refused? || w.txns[txn].Answered?)
    ensures Closing(w, txn, i) == w && Ending(w, txn) == w && Next(w, Commit(txn)) == w
    ensures Next(Next(w, Lookup(txn)), Place(txn, i.variants, i.prices, i.currency)) == w
  {
  }

  /** The seven steps of an undisturbed checkout add up to one decision. */
  lemma CheckoutPass(w: World, txn: nat, c: Call, i: Inputs)
    requires txn !in w.txns && CouponFree(w, i.coupon) && !InFlight(w, c.tenant, c.user, StoredKey(c.raw.key))
    ensures Closing(Opening(w, txn, c, i), txn, i) == CheckedOut(w, txn, c, i)
  {
    if !Acceptable(c) {
      assert Next(w, Begin(txn, c)) == At(w, txn, Refused);
      EndedStays(At(w, txn, Refused), txn, i);
    } else {
      OpeningPass(w, txn, c, i);
      var found := Find(w.orders, c.tenant, c.user, StoredKey(c.raw.key));
      if found.Some? {
        EndedStays(At(w, txn, Resume(w.orders, found.value, c)), txn, i);
      } else if Quoted(CartOf(c.raw.lines), i.variants, i.prices) {
        ClosingPass(w, txn, NewDraft(c, i.variants, i.prices, i.currency), i);
      } else {
        EndedStays(At(w, txn, Refused), txn, i);
      }
    }
  }

  /* ---------- the number of variants found ---------- */

  lemma {:induction false} DistinctCount(xs: seq<nat>)
    requires Distinct(xs)
    ensures |SetOf(xs)| == |xs|
    decreases |xs|
  {
    if xs != [] {
      var n := |xs| - 1;
      SetOfPrefix(xs, n);
      assert xs[..n + 1] == xs;
      DistinctCount(xs[..n]);
    }
  }

  lemma SubsetCount<T>(a: set<T>, b: set<T>)
    requires a <= b
    ensures |a| <= |b| && (|a| == |b| <==> a == b)
  {
    assert b == a + (b - a);
  }

  /** All of the cart was found exactly when as many variants came back as were asked for. */
  lemma AllFoundExactlyWhen(cart: map<nat, int>, variants: seq<nat>, prices: map<nat, int>)
    requires Distinct(variants) && forall i | 0 <= i < |variants| :: variants[i] in cart && variants[i] in prices
    ensures |variants| == |cart| <==> Quoted(cart, variants, prices)
  {
    DistinctCount(variants);
    assert SetOf(variants) <= cart.Keys;
    SubsetCount(SetOf(variants), cart.Keys);
    assert |cart.Keys| == |cart|;
    assert SetOf(variants) == cart.Keys <==> forall v | v in cart :: v in variants;
  }

  /** The sum of prices times quantities, and the lines of an order, as loops. */
  method SumPrices(cart: map<nat, int>, variants: seq<nat>, prices: map<nat, int>) returns (total: int)
    ensures total == TotalOf(cart, variants, prices)
  {
    total := 0;
    for n := 0 to |variants|
      invariant total == TotalOf(cart, variants[..n], prices)
    {
      assert variants[..n + 1][..n] == variants[..n];
      total := total + Entry(prices, variants[n]) * Entry(cart, variants[n]);
    }
    assert variants[..|variants|] == variants;
  }

  method BuildItems(d: Draft, cart: map<nat, int>) returns (items: seq<OrderItem>)
    requires cart == CartOf(d.call.raw.lines)
    ensures items == ItemsOf(d)
  {
    items := [];
    for n := 0 to |d.variants|
      invariant |items| == n && forall j | 0 <= j < n :: items[j] == ItemOf(d, d.variants[j])
    {
      var v := d.variants[n];
      var quantity, unit := Entry(cart, v), Entry(d.effective, v);
      items := items + [OrderItem(v, quantity, unit, unit * quantity, Entry(d.quoted, v))];
    }
  }

  class Desk {
    var orders: seq<Order>
    var debits: seq<Debit>
    var jobs: seq<nat>
    var coupons: map<nat, Coupons.Coupon>
    var redemptions: seq<Redemption>
    ghost var txns: map<nat, Txn>

    ghost function View(): World
      reads this
    {
      World(orders, debits, jobs, coupons, redemptions, txns)
    }

    /** Inserts the items, debits the wallet, stages the job and commits. */
    method Finish(ghost txn: nat, d: Draft, cart: map<nat, int>) returns (answer: Option<nat>)
      requires cart == CartOf(d.call.raw.lines) && d.debits == [] && (d.coupon.Some? ==> d.coupon.value.0 in coupons)
      modifies this
      ensures View() == Finished(old(View()), txn, d)
      ensures answer == if d.amount > 0 then Some(|old(orders)|) else None
      ensures answer.Some? ==>
                && orders == old(orders) + [orders[answer.value]] && orders[answer.value].total == d.order.total
                && debits == old(debits) + [Debit(answer.value, d.amount)]
                && jobs == old(jobs) + if d.call.durable then [answer.value] else []
      ensures answer.None? ==> orders == old(orders) && debits == old(debits) && jobs == old(jobs)
    {
      var items := BuildItems(d, cart);
      if d.amount <= 0 {
        txns := txns[txn := Refused];
        return None;
      }
      var id := |orders|;
      orders := orders + [d.order.(items := items)];
      debits := debits + [Debit(id, d.amount)];
      assert DebitRows(id, [] + [d.amount]) == [Debit(id, d.amount)];
      if d.call.durable {
        jobs := jobs + [id];
      }
      if d.coupon.Some? {
        var coupon, discount, at := d.coupon.value.0, d.coupon.value.1, d.coupon.value.2;
        var k := coupons[coupon];
        coupons := coupons[coupon := k.(used := k.used + 1)];
        redemptions := redemptions + [Redemption(coupon, id, discount, at)];
      }
      txns := txns[txn := Answered(d.call, id)];
      answer := Some(id);
    }

    /** Prices a placed order, with its coupon if it asks for one. */
    method Price(ghost txn: nat, d: Draft, cart: map<nat, int>, i: Inputs) returns (answer: Option<nat>)
      requires cart == CartOf(d.call.raw.lines) && d.debits == [] && d.coupon.None? && d.amount == d.order.total
      modifies this
      ensures View() == Priced(old(View()), txn, d, i)
      ensures txn in txns && txns[txn] == if answer.Some? then Answered(d.call, answer.value) else Refused
      ensures answer.Some? ==>
                && answer.value == |old(orders)| && |orders| == |old(orders)| + 1
                && debits == old(debits) + [Debit(answer.value, orders[answer.value].total)]
                && jobs == old(jobs) + if d.call.durable then [answer.value] else []
      ensures answer.None? ==> orders == old(orders) && debits == old(debits) && jobs == old(jobs)
    {
      if !WithCoupon(d.call) {
        answer := Finish(txn, d, cart);
        return;
      }
      if i.coupon in coupons {
        var k := coupons[i.coupon];
        var effective := Reduced(d.quoted, k.percent);
        var total := SumPrices(cart, d.variants, effective);
        if k.active && i.now < k.expiresAt && k.currency == d.order.currency && k.minimum <= d.order.total
        && k.used < k.maxUses
           && total < d.order.total {
          var lowered := d.(effective := effective, order := d.order.(total := total),
                            coupon := Some((i.coupon, d.order.total - total, i.now)), amount := total);
          answer := Finish(txn, lowered, cart);
          return;
        }
      }
      txns := txns[txn := Refused];
      answer := None;
    }

    /** A checkout: validates, answers a retry, or places, discounts and pays a new order. */
    method CheckoutCart(ghost txn: nat, c: Call, i: Inputs) returns (answer: Option<nat>)
      requires txn !in txns && CouponFree(View(), i.coupon) && !InFlight(View(), c.tenant, c.user, StoredKey(c.raw.key))
      requires Distinct(i.variants)
      requires forall n | 0 <= n < |i.variants| :: Asks(c.raw.lines, i.variants[n]) && i.variants[n] in i.prices
      modifies this
      ensures View() == Closing(Opening(old(View()), txn, c, i), txn, i)
      ensures txn in txns && txns[txn] == (if answer.Some? then Answered(c, answer.value) else Refused)
      ensures answer.Some? && answer.value >= |old(orders)| ==>
                && answer.value == |old(orders)| && |orders| == |old(orders)| + 1
                && debits == old(debits) + [Debit(answer.value, orders[answer.value].total)]
                && jobs == old(jobs) + if c.durable then [answer.value] else []
      ensures answer.None? || answer.value < |old(orders)| ==>
                orders == old(orders) && debits == old(debits) && jobs == old(jobs)
      ensures answer.Some? <==> Succeeds(old(View()), c, i)
    {
      CheckoutPass(View(), txn, c, i);
      CheckedOutExactlyWhen(View(), txn, c, i);
      var merged := MergeCart(c.raw.lines);
      if merged.None? || !Acceptable(c) {
        txns := txns[txn := Refused];
        return None;
      }
      var cart := merged.value;
      MergedOnce(c.raw.lines, cart, CartOf(c.raw.lines));
      var found := Find(orders, c.tenant, c.user, StoredKey(c.raw.key));
      if found.Some? {
        answer := if orders[found.value].payload == PayloadOf(c) then found else None;
        txns := txns[txn := Resume(orders, found.value, c)];
        return;
      }
      AllFoundExactlyWhen(cart, i.variants, i.prices);
      if |i.variants| != |cart| {
        txns := txns[txn := Refused];
        return None;
      }
      var total := SumPrices(cart, i.variants, i.prices);
      var order := Order(c.tenant, c.user, StoredKey(c.raw.key), PayloadOf(c), [], total, i.currency);
      answer := Price(txn, Draft(c, order, i.variants, i.prices, i.prices, None, total, []), cart, i);
    }
  }
}
