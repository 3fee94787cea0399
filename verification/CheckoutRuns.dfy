/** What every interleaving of checkouts keeps, and what follows for customers and coupons. */
module CheckoutRuns {
  import opened Common
  import opened CheckoutRequests
  import opened Checkout
  import Identifiers
  import Coupons

  /* ---------- the figures of a draft ---------- */

  lemma {:induction false} ItemsAddUp(d: Draft, variants: seq<nat>, items: seq<OrderItem>)
    requires |items| == |variants| && forall i | 0 <= i < |items| :: items[i] == ItemOf(d, variants[i])
    ensures Charges(items) == TotalOf(CartOf(d.call.raw.lines), variants, d.effective)
    ensures Quotes(items) == TotalOf(CartOf(d.call.raw.lines), variants, d.quoted)
    decreases |items|
  {
    if items != [] {
      ItemsAddUp(d, variants[..|variants| - 1], items[..|items| - 1]);
    }
  }

  /** The items of a sound draft are the merged cart of its request. */
  lemma ItemsAreTheCart(d: Draft)
    requires DraftSound(d) && d.order.items == ItemsOf(d)
    ensures ItemsOfCart(d.order)
  {
    var cart := CartOf(d.call.raw.lines);
    var o := d.order;
    assert o.payload.items == SortedItems(cart, cart.Keys);
    forall x | x in o.payload.items
      ensures Listed(o.items, x.0, x.1)
    {
      assert x.0 in cart && x.1 == cart[x.0];
      var i :| 0 <= i < |d.variants| && d.variants[i] == x.0;
      assert o.items[i].variant == x.0 && o.items[i].quantity == x.1;
    }
    forall i | 0 <= i < |o.items|
      ensures (o.items[i].variant, o.items[i].quantity) in o.payload.items
    {
      assert d.variants[i] in cart;
      assert (d.variants[i], cart[d.variants[i]]) in SortedItems(cart, cart.Keys);
    }
  }

  lemma NewDraftSound(c: Call, variants: seq<nat>, prices: map<nat, int>, currency: string)
    requires Quoted(CartOf(c.raw.lines), variants, prices)
    ensures DraftSound(NewDraft(c, variants, prices, currency))
  {
  }

  lemma LoweredSound(d: Draft, coupon: nat, k: Coupons.Coupon, now: int)
    requires DraftSound(d) && d.coupon.None? && Redeemable(k, d, now)
    ensures DraftSound(Lowered(d, coupon, k.percent, now))
  {
  }

  /* ---------- steps ---------- */

  lemma UsesAppend(rs: seq<Redemption>, r: Redemption, coupon: nat)
    ensures Uses(rs + [r], coupon) == Uses(rs, coupon) + if r.coupon == coupon then 1 else 0
  {
    assert (rs + [r])[..|rs|] == rs;
  }

  lemma {:induction false} NoUses(rs: seq<Redemption>, coupon: nat)
    requires forall i | 0 <= i < |rs| :: rs[i].coupon != coupon
    ensures Uses(rs, coupon) == 0
    decreases |rs|
  {
    if rs != [] {
      NoUses(rs[..|rs| - 1], coupon);
    }
  }

  predicate SameIndex(a: Order, b: Order) {
    a.tenant == b.tenant && a.user == b.user && a.key == b.key
  }

  /** The move takes no index entry and no coupon from another transaction. */
  ghost predicate Takes(w: World, txn: nat, t: Txn) {
    && (Uncommitted(t) ==>
          || (txn in w.txns && Uncommitted(w.txns[txn]) && SameIndex(w.txns[txn].draft.order, t.draft.order))
          || !InFlight(w, t.draft.order.tenant, t.draft.order.user, t.draft.order.key))
    && (forall k: nat | LocksCoupon(t, k) :: (txn in w.txns && LocksCoupon(w.txns[txn], k)) || CouponFree(w, k))
  }

  lemma OwnStepApart(w: World, txn: nat, t: Txn)
    requires Apart(w.txns) && Takes(w, txn, t)
    ensures Apart(w.txns[txn := t])
  {
    OwnStepIndex(w, txn, t);
    OwnStepCoupon(w, txn, t);
  }

  lemma OwnStepIndex(w: World, txn: nat, t: Txn)
    requires KeysApart(w.txns) && Takes(w, txn, t)
    ensures KeysApart(w.txns[txn := t])
  {
  }

  lemma OwnStepCoupon(w: World, txn: nat, t: Txn)
    requires CouponsApart(w.txns) && Takes(w, txn, t)
    ensures CouponsApart(w.txns[txn := t])
  {
  }

  /** Everything but the transactions is the same. */
  lemma SameTables(w: World, w': World)
    requires Ledger(w) && Redemptions(w) && w' == w.(txns := w'.txns)
    requires forall t | t in w'.txns :: Sound(w, w'.txns[t])
    requires Apart(w'.txns)
    ensures Inv(w')
  {
    forall k | k in w'.coupons
      ensures Counted(w', k)
    {
      assert Counted(w, k);
    }
    forall i | 0 <= i < |w'.redemptions|
      ensures Redeemed(w', w'.redemptions[i])
    {
      assert Redeemed(w, w.redemptions[i]);
    }
  }

  /** A transaction's own move that takes nothing from another. */
  lemma OwnStepKeeps(w: World, txn: nat, t: Txn)
    requires Inv(w) && Sound(w, t) && Takes(w, txn, t)
    ensures Inv(At(w, txn, t))
  {
    OwnStepApart(w, txn, t);
    var w' := At(w, txn, t);
    assert forall s | s in w'.txns :: Sound(w, w'.txns[s]);
    SameTables(w, w');
  }

  lemma IssueKeeps(w: World, coupon: nat, terms: Coupons.Coupon)
    requires Inv(w)
    ensures Inv(Next(w, Issue(coupon, terms)))
  {
    var w' := Next(w, Issue(coupon, terms));
    if w' != w {
      forall i | 0 <= i < |w.redemptions|
        ensures Redeemed(w', w.redemptions[i]) && w.redemptions[i].coupon != coupon
      {
        assert Redeemed(w, w.redemptions[i]);
      }
      NoUses(w.redemptions, coupon);
      forall k | k in w'.coupons
        ensures Counted(w', k)
      {
        assert k != coupon ==> Counted(w, k);
      }
      forall t | t in w.txns
        ensures Sound(w', w.txns[t])
      {
        assert Sound(w, w.txns[t]);
      }
    }
  }

  /** Whether a coupon is switched on matters to nobody who has redeemed it. */
  lemma SwitchKeeps(w: World, coupon: nat, active: bool)
    requires Inv(w)
    ensures Inv(Next(w, Switch(coupon, active)))
  {
    var w' := Next(w, Switch(coupon, active));
    forall i | 0 <= i < |w.redemptions|
      ensures Redeemed(w', w.redemptions[i])
    {
      assert Redeemed(w, w.redemptions[i]);
    }
    forall k | k in w'.coupons
      ensures Counted(w', k)
    {
      assert Counted(w, k);
    }
    forall t | t in w.txns
      ensures Sound(w', w.txns[t])
    {
      assert Sound(w, w.txns[t]);
    }
  }

  lemma BeginKeeps(w: World, e: Event)
    requires Inv(w) && (e.Begin? || e.Rollback?)
    ensures Inv(Next(w, e))
  {
    if Next(w, e) != w {
      OwnStepKeeps(w, e.txn, Next(w, e).txns[e.txn]);
    }
  }

  lemma LookupKeeps(w: World, e: Event)
    requires Inv(w) && e.Lookup?
    ensures Inv(Next(w, e))
  {
    if Next(w, e) != w {
      OwnStepKeeps(w, e.txn, Next(w, e).txns[e.txn]);
    }
  }

  lemma PlacedSound(w: World, c: Call, variants: seq<nat>, prices: map<nat, int>, currency: string)
    requires Quoted(CartOf(c.raw.lines), variants, prices)
             && Find(w.orders, c.tenant, c.user, StoredKey(c.raw.key)).None?
    ensures Sound(w, Placed(NewDraft(c, variants, prices, currency)))
  {
    NewDraftSound(c, variants, prices, currency);
  }

  lemma PlaceKeeps(w: World, txn: nat, variants: seq<nat>, prices: map<nat, int>, currency: string)
    requires Inv(w)
    ensures Inv(Next(w, Place(txn, variants, prices, currency)))
  {
    var w' := Next(w, Place(txn, variants, prices, currency));
    if w' != w {
      if w'.txns[txn].Placed? {
        PlacedSound(w, w.txns[txn].call, variants, prices, currency);
      }
      OwnStepKeeps(w, txn, w'.txns[txn]);
    }
  }

  lemma LoweredKeepsSound(w: World, d: Draft, coupon: nat, now: int)
    requires Sound(w, Placed(d)) && coupon in w.coupons && Redeemable(w.coupons[coupon], d, now)
    ensures Sound(w, Discounted(Lowered(d, coupon, w.coupons[coupon].percent, now)))
  {
    LoweredSound(d, coupon, w.coupons[coupon], now);
  }

  lemma DiscountKeeps(w: World, e: Event)
    requires Inv(w) && e.Discount?
    ensures Inv(Next(w, e))
  {
    if Next(w, e) != w {
      assert Sound(w, w.txns[e.txn]);
      if Next(w, e).txns[e.txn].Discounted? {
        LoweredKeepsSound(w, w.txns[e.txn].draft, e.coupon, e.now);
      }
      OwnStepKeeps(w, e.txn, Next(w, e).txns[e.txn]);
    }
  }

  /** Adding the items, or the debit, to a sound draft. */
  lemma FiguresStaySound(w: World, t: Txn)
    requires Sound(w, t)
    ensures (t.Placed? && t.draft.coupon.None?) || t.Discounted? ==> Sound(w, Itemised(WithItems(t.draft)))
    ensures t.Itemised? && t.draft.amount > 0 ==> Sound(w, Charged(Debited(t.draft)))
  {
    if Uncommitted(t) {
      FiguresStay(t.draft, WithItems(t.draft));
      FiguresStay(t.draft, Debited(t.draft));
    }
  }

  lemma ChargeKeeps(w: World, e: Event)
    requires Inv(w) && (e.Itemise? || e.Charge?)
    ensures Inv(Next(w, e))
  {
    if Next(w, e) != w {
      assert Sound(w, w.txns[e.txn]);
      FiguresStaySound(w, w.txns[e.txn]);
      OwnStepKeeps(w, e.txn, Next(w, e).txns[e.txn]);
    }
  }

  /** Adding the items or the debit leaves the figures alone. */
  lemma FiguresStay(d: Draft, d': Draft)
    requires DraftSound(d) && (d' == WithItems(d) || d' == Debited(d))
    ensures DraftSound(d') && SameIndex(d.order, d'.order) && ItemsOf(d') == ItemsOf(d)
  {
  }

  /* ---------- the commit ---------- */

  /** The order that a charged transaction commits is sound. */
  lemma NewOrderSound(w: World, d: Draft)
    requires Sound(w, Charged(d))
    ensures OrderSound(d.order)
  {
    ItemsAddUp(d, d.variants, ItemsOf(d));
    ItemsAreTheCart(d);
  }

  lemma NewDebit(orders: seq<Order>, debits: seq<Debit>, o: Order)
    requires Matched(orders, debits)
    ensures Matched(orders + [o], debits + [Debit(|orders|, o.total)])
  {
  }

  lemma NewKeyUnique(orders: seq<Order>, o: Order)
    requires KeysUnique(orders) && Find(orders, o.tenant, o.user, o.key).None?
    ensures KeysUnique(orders + [o])
  {
  }

  lemma NewJob(jobs: seq<nat>, n: nat)
    requires Distinct(jobs) && forall i | 0 <= i < |jobs| :: jobs[i] < n
    ensures Distinct(jobs + [n]) && forall i | 0 <= i < |jobs + [n]| :: (jobs + [n])[i] < n + 1
  {
  }

  lemma CommitLedger(w: World, txn: nat, d: Draft)
    requires Ledger(w) && OrderSound(d.order) && d.debits == [d.order.total]
    requires Find(w.orders, d.order.tenant, d.order.user, d.order.key).None?
    ensures Ledger(Committed(w, txn, d))
  {
    NewDebit(w.orders, w.debits, d.order);
    assert DebitRows(|w.orders|, d.debits) == [Debit(|w.orders|, d.order.total)];
    NewKeyUnique(w.orders, d.order);
    NewJob(w.jobs, |w.orders|);
    assert forall i | 0 <= i < |w.orders| :: OrderSound(w.orders[i]);
  }

  lemma NewRedemption(w: World, txn: nat, d: Draft)
    requires Sound(w, Charged(d)) && d.coupon.Some?
    ensures Redeemed(Committed(w, txn, d), Redemption(d.coupon.value.0, |w.orders|, d.coupon.value.1, d.coupon.value.2))
  {
    ItemsAddUp(d, d.variants, ItemsOf(d));
  }

  lemma CommitCounts(w: World, txn: nat, d: Draft, k: nat)
    requires d.coupon.Some? && d.coupon.value.0 in w.coupons ==>
               var c := w.coupons[d.coupon.value.0]; c.used < c.maxUses
    requires k in w.coupons && Counted(w, k)
    ensures k in Committed(w, txn, d).coupons && Counted(Committed(w, txn, d), k)
  {
    if d.coupon.Some? {
      UsesAppend(w.redemptions, Redemption(d.coupon.value.0, |w.orders|, d.coupon.value.1, d.coupon.value.2), k);
    }
  }

  lemma OldRedemption(w: World, txn: nat, d: Draft, r: Redemption)
    requires Sound(w, Charged(d)) && Redeemed(w, r)
    ensures Redeemed(Committed(w, txn, d), r)
  {
  }

  lemma CommitRedemptions(w: World, txn: nat, d: Draft)
    requires Redemptions(w) && Sound(w, Charged(d))
    ensures Redemptions(Committed(w, txn, d))
  {
    var w' := Committed(w, txn, d);
    if d.coupon.Some? {
      NewRedemption(w, txn, d);
    }
    forall k | k in w'.coupons
      ensures Counted(w', k)
    {
      CommitCounts(w, txn, d, k);
    }
    forall i | 0 <= i < |w'.redemptions|
      ensures Redeemed(w', w'.redemptions[i])
      ensures i < |w.redemptions| ==> w'.redemptions[i].order < |w.orders|
    {
      if i < |w.redemptions| {
        assert Redeemed(w, w.redemptions[i]);
        OldRedemption(w, txn, d, w.redemptions[i]);
      }
    }
  }

  lemma FindAppend(orders: seq<Order>, o: Order, tenant: nat, user: nat, key: Option<string>)
    requires Find(orders, tenant, user, key).None? && !Collides(o, tenant, user, key)
    ensures Find(orders + [o], tenant, user, key).None?
  {
    assert (orders + [o])[..|orders|] == orders;
  }

  /** Another transaction sees the new order and stays sound. */
  lemma CommitKeepsOther(w: World, txn: nat, d: Draft, s: Txn)
    requires Sound(w, s)
    requires Uncommitted(s) ==> !Collides(d.order, s.draft.order.tenant, s.draft.order.user, s.draft.order.key)
    requires d.coupon.Some? ==> !LocksCoupon(s, d.coupon.value.0)
    ensures Sound(Committed(w, txn, d), s)
  {
    if Uncommitted(s) {
      FindAppend(w.orders, d.order, s.draft.order.tenant, s.draft.order.user, s.draft.order.key);
    }
  }

  lemma CommitApart(txns: map<nat, Txn>, txn: nat, t: Txn)
    requires Apart(txns) && !Uncommitted(t)
    ensures Apart(txns[txn := t])
  {
  }

  lemma CommitKeeps(w: World, txn: nat)
    requires Inv(w) && txn in w.txns && w.txns[txn].Charged?
    ensures Inv(Committed(w, txn, w.txns[txn].draft))
  {
    var t := w.txns[txn];
    var w' := Committed(w, txn, t.draft);
    assert Sound(w, t);
    NewOrderSound(w, t.draft);
    CommitLedger(w, txn, t.draft);
    CommitRedemptions(w, txn, t.draft);
    forall s | s in w'.txns
      ensures Sound(w', w'.txns[s])
    {
      if s != txn {
        assert Sound(w, w.txns[s]);
        assert t.draft.coupon.Some? ==> LocksCoupon(t, t.draft.coupon.value.0);
        CommitKeepsOther(w, txn, t.draft, w.txns[s]);
      }
    }
    CommitApart(w.txns, txn, Answered(t.draft.call, |w.orders|));
  }

  lemma NextKeeps(w: World, e: Event)
    requires Inv(w)
    ensures Inv(Next(w, e))
  {
    match e
    case Issue(coupon, terms) => IssueKeeps(w, coupon, terms);
    case Switch(coupon, active) => SwitchKeeps(w, coupon, active);
    case Begin(_, _) => BeginKeeps(w, e);
    case Rollback(_) => BeginKeeps(w, e);
    case Lookup(_) => LookupKeeps(w, e);
    case Place(txn, variants, prices, currency) => PlaceKeeps(w, txn, variants, prices, currency);
    case Discount(_, _, _) => DiscountKeeps(w, e);
    case Itemise(_) => ChargeKeeps(w, e);
    case Charge(_) => ChargeKeeps(w, e);
    case Commit(txn) =>
      if txn in w.txns && w.txns[txn].Charged? {
        CommitKeeps(w, txn);
      }
  }

  lemma {:induction false} RunKeeps(events: seq<Event>)
    ensures Inv(Run(EMPTY, events))
    decreases |events|
  {
    if events != [] {
      RunKeeps(events[..|events| - 1]);
      NextKeeps(Run(EMPTY, events[..|events| - 1]), events[|events| - 1]);
    }
  }

  /* ---------- what it promises ---------- */

  /** Successful checkouts with one tenant, user and key all return one order, which is the only one
      with that key, and their requests agree. */
  lemma {:induction false} OneOrderPerKey(events: seq<Event>, s: nat, t: nat)
    requires var w := Run(EMPTY, events);
             && s in w.txns && t in w.txns && w.txns[s].Answered? && w.txns[t].Answered?
             && w.txns[s].call.tenant == w.txns[t].call.tenant && w.txns[s].call.user == w.txns[t].call.user
             && w.txns[s].call.raw.key.Some? && StoredKey(w.txns[s].call.raw.key) == StoredKey(w.txns[t].call.raw.key)
    ensures var w := Run(EMPTY, events);
            var c := w.txns[s].call;
            && w.txns[s].id == w.txns[t].id < |w.orders|
            && PayloadOf(c) == PayloadOf(w.txns[t].call)
            && (forall i: nat | i < |w.orders| && Collides(w.orders[i], c.tenant, c.user, StoredKey(c.raw.key)) ::
                  i == w.txns[s].id)
  {
    RunKeeps(events);
    var w := Run(EMPTY, events);
    assert Sound(w, w.txns[s]) && Sound(w, w.txns[t]);
    OnlyOne(w.orders, w.txns[s].id, w.txns[t].id);
  }

  lemma OnlyOne(orders: seq<Order>, i: nat, j: nat)
    requires KeysUnique(orders) && i < |orders| && j < |orders|
    requires Collides(orders[i], orders[j].tenant, orders[j].user, orders[j].key)
    ensures i == j
  {
    assert Collides(orders[j], orders[i].tenant, orders[i].user, orders[i].key);
  }

  /** What was debited for an order. */
  function DebitsOf(debits: seq<Debit>, id: nat): seq<int>
    decreases |debits|
  {
    if debits == [] then []
    else
      var last := debits[|debits| - 1];
      DebitsOf(debits[..|debits| - 1], id) + if last.order == id then [last.amount] else []
  }

  lemma {:induction false} DebitsInOrder(debits: seq<Debit>, id: nat)
    requires forall i | 0 <= i < |debits| :: debits[i].order == i
    ensures DebitsOf(debits, id) == if id < |debits| then [debits[id].amount] else []
    decreases |debits|
  {
    if debits != [] {
      DebitsInOrder(debits[..|debits| - 1], id);
    }
  }

  /** Every order's lines are the merged cart of its request, their totals add up to the order's total, exactly one
      debit was taken for it, of that total, and it has at most one durable job. */
  lemma {:induction false} PaidExactlyOnce(events: seq<Event>, id: nat)
    requires id < |Run(EMPTY, events).orders|
    ensures var w := Run(EMPTY, events);
            && ItemsOfCart(w.orders[id]) && Charges(w.orders[id].items) == w.orders[id].total > 0
            && DebitsOf(w.debits, id) == [w.orders[id].total]
            && (forall i, j | 0 <= i < j < |w.jobs| :: !(w.jobs[i] == id && w.jobs[j] == id))
  {
    RunKeeps(events);
    var w := Run(EMPTY, events);
    assert OrderSound(w.orders[id]);
    DebitsInOrder(w.debits, id);
  }

  /** A coupon's counter is the number of its redemptions and stays within its limit. */
  lemma {:induction false} CouponsCounted(events: seq<Event>, coupon: nat)
    requires coupon in Run(EMPTY, events).coupons
    ensures var w := Run(EMPTY, events);
            w.coupons[coupon].used == Uses(w.redemptions, coupon) <= w.coupons[coupon].maxUses
  {
    RunKeeps(events);
    assert Counted(Run(EMPTY, events), coupon);
  }

  /** The lines of an order as items of a price list. */
  function Priced(items: seq<OrderItem>): (r: seq<Coupons.Item>)
    ensures |r| == |items| && forall i | 0 <= i < |r| :: r[i] == Coupons.Item(items[i].base, items[i].quantity)
  {
    seq(|items|, i requires 0 <= i < |items| => Coupons.Item(items[i].base, items[i].quantity))
  }

  lemma {:induction false} PricedAddsUp(items: seq<OrderItem>, percent: int)
    requires ReducedItems(items, percent) && forall i | 0 <= i < |items| ::
               items[i].total == items[i].unit * items[i].quantity
    ensures Coupons.Gross(Priced(items)) == Quotes(items) && Coupons.Net(Priced(items), percent) == Charges(items)
    decreases |items|
  {
    if items != [] {
      var n := |items| - 1;
      PricedAddsUp(items[..n], percent);
      assert Priced(items)[..n] == Priced(items[..n]);
      assert Coupons.Reduced(Priced(items), percent)[..n] == Coupons.Reduced(Priced(items)[..n], percent);
    }
  }

  /** A redemption is what its order's quoted prices, times the merged quantities, exceed its total by; and for
      whole-cent prices that is at most the coupon's percentage of them, and short of it by less than a cent a unit. */
  lemma {:induction false} DiscountExplained(events: seq<Event>, i: nat)
    requires i < |Run(EMPTY, events).redemptions|
    ensures var w := Run(EMPTY, events);
            var r := w.redemptions[i];
            && r.order < |w.orders| && r.coupon in w.coupons
            && var o, percent := w.orders[r.order], w.coupons[r.coupon].percent;
               && r.discount > 0 && r.discount + o.total == Quotes(o.items)
               && (Coupons.WholeCents(Priced(o.items)) ==>
                     && r.discount * Coupons.WHOLE <= Quotes(o.items) * percent
                     && Quotes(o.items) * percent
                        < (r.discount + Coupons.CENT * Coupons.Units(Priced(o.items))) * Coupons.WHOLE)
  {
    RunKeeps(events);
    var w := Run(EMPTY, events);
    var r := w.redemptions[i];
    assert Redeemed(w, r) && OrderSound(w.orders[r.order]) && Counted(w, r.coupon);
    PricedAddsUp(w.orders[r.order].items, w.coupons[r.coupon].percent);
    if Coupons.WholeCents(Priced(w.orders[r.order].items)) {
      Coupons.DiscountBounds(Priced(w.orders[r.order].items), w.coupons[r.coupon].percent);
    }
  }

  /** Once a checkout with a key has succeeded, a retry with that key is answered exactly when it asks for
      the same thing: same quantities however listed, same trimmed recipient, same coupon. */
  lemma {:induction false} RetryAnsweredExactlyWhen(events: seq<Event>, s: nat, t: nat)
    requires var w := Run(EMPTY, events);
             && s in w.txns && t in w.txns && w.txns[s].Answered? && w.txns[t].Looking?
             && w.txns[s].call.tenant == w.txns[t].call.tenant && w.txns[s].call.user == w.txns[t].call.user
             && w.txns[s].call.raw.key.Some? && StoredKey(w.txns[s].call.raw.key) == StoredKey(w.txns[t].call.raw.key)
    ensures var w := Run(EMPTY, events);
            var a, b, after := w.txns[s].call.raw, w.txns[t].call.raw, Next(w, Lookup(t)).txns;
            && t in after && (after[t].Answered? || after[t].Refused?)
            && (after[t].Answered? <==>
                  && SameLines(a.lines, b.lines) && Identifiers.Strip(a.recipient) == Identifiers.Strip(b.recipient)
                  && CanonicalCoupon(a.coupon) == CanonicalCoupon(b.coupon))
            && (after[t].Answered? ==> after[t].id == w.txns[s].id)
  {
    RunKeeps(events);
    var w := Run(EMPTY, events);
    var a, b := w.txns[s].call, w.txns[t].call;
    assert Sound(w, w.txns[s]);
    var found := Find(w.orders, b.tenant, b.user, StoredKey(b.raw.key));
    var id := w.txns[s].id;
    assert Collides(w.orders[id], b.tenant, b.user, StoredKey(b.raw.key));
    OnlyOne(w.orders, id, found.value);
    SameRequestExactlyWhen(a.raw, b.raw, CartOf(a.raw.lines), CartOf(b.raw.lines));
  }
}
