/** Checkouts that interleave at every database step and meet at the unique index on (tenant, user,
    idempotency key) and at the coupon's row lock. A checkout prices its order, inserts the items and debits the wallet
    in separate steps of one transaction; what it writes becomes visible when it commits. */
module Checkout {
  import opened Common
  import opened CheckoutRequests
  import Identifiers
  import Coupons

  datatype Call = Call(tenant: nat, user: nat, raw: Raw, durable: bool, sync: bool)

  /** A line of an order: merged quantity, unit price charged, the line's own total, and the quoted unit price. */
  datatype OrderItem = OrderItem(variant: nat, quantity: int, unit: int, total: int, base: int)
  datatype Order = Order(tenant: nat, user: nat, key: Option<string>, payload: Payload, items: seq<OrderItem>,
                         total: int, currency: string)
  datatype Debit = Debit(order: nat, amount: int)
  datatype Redemption = Redemption(coupon: nat, order: nat, discount: int, at: int)

  /** What a checkout has written and not yet committed: `quoted` and `effective` are unit prices before and after a
      coupon, `coupon` the redeemed one with its discount and the time, `amount` what the ledger will be asked for,
      `debits` what it has taken. */
  datatype Draft = Draft(call: Call, order: Order, variants: seq<nat>, quoted: map<nat, int>, effective: map<nat, int>,
                         coupon: Option<(nat, int, int)>, amount: int, debits: seq<int>)

  datatype Txn =
    | Looking(call: Call)
    | Missed(call: Call)
    | Placed(draft: Draft)
    | Discounted(draft: Draft)
    | Itemised(draft: Draft)
    | Charged(draft: Draft)
    | Answered(call: Call, id: nat)
    | Refused

  datatype World = World(orders: seq<Order>, debits: seq<Debit>, jobs: seq<nat>, coupons: map<nat, Coupons.Coupon>,
                         redemptions: seq<Redemption>, txns: map<nat, Txn>)

  const EMPTY := World([], [], [], map[], [], map[])

  datatype Event =
    | Issue(coupon: nat, terms: Coupons.Coupon)
    | Switch(coupon: nat, active: bool)
    | Begin(txn: nat, call: Call)
    | Lookup(txn: nat)
    | Place(txn: nat, variants: seq<nat>, prices: map<nat, int>, currency: string)
    | Discount(txn: nat, coupon: nat, now: int)
    | Itemise(txn: nat)
    | Charge(txn: nat)
    | Commit(txn: nat)
    | Rollback(txn: nat)

  /* ---------- the request ---------- */

  function StoredKey(key: Option<string>): Option<string> {
    if key.None? then None else Some(Identifiers.Strip(key.value))
  }

  /** The checks made before the database is touched. */
  predicate Acceptable(c: Call) {
    && !(c.sync && c.durable)
    && Identifiers.Strip(c.raw.recipient) != "" && 1 <= |c.raw.lines| <= 50 && AllPositive(c.raw.lines)
    && (c.raw.key.Some? ==> 1 <= |Identifiers.Strip(c.raw.key.value)| <= 100)
    && (CanonicalCoupon(c.raw.coupon).Some? ==> |CanonicalCoupon(c.raw.coupon).value| <= 40)
  }

  function Variants(lines: seq<Line>): set<nat> {
    set i | 0 <= i < |lines| :: lines[i].variant
  }

  function CartOf(lines: seq<Line>): (cart: map<nat, int>)
    ensures Merges(lines, cart)
  {
    map v | v in Variants(lines) :: Quantity(lines, v)
  }

  function PayloadOf(c: Call): Payload {
    Canonical(CartOf(c.raw.lines), c.raw.recipient, c.raw.coupon)
  }

  predicate WithCoupon(c: Call) { CanonicalCoupon(c.raw.coupon).Some? }

  /* ---------- the index and the lock ---------- */

  /** Two rows collide in the unique index; rows without a key never do. */
  predicate Collides(a: Order, tenant: nat, user: nat, key: Option<string>) {
    key.Some? && a.tenant == tenant && a.user == user && a.key == key
  }

  function Find(orders: seq<Order>, tenant: nat, user: nat, key: Option<string>): (r: Option<nat>)
    ensures r.Some? ==> r.value < |orders| && Collides(orders[r.value], tenant, user, key)
    ensures r.None? ==> forall i | 0 <= i < |orders| :: !Collides(orders[i], tenant, user, key)
    decreases |orders|
  {
    if orders == [] then None
    else if Collides(orders[|orders| - 1], tenant, user, key) then Some(|orders| - 1)
    else Find(orders[..|orders| - 1], tenant, user, key)
  }

  predicate Uncommitted(t: Txn) { t.Placed? || t.Discounted? || t.Itemised? || t.Charged? }

  /** The index entry belongs to an uncommitted row: the insertion waits. */
  ghost predicate InFlight(w: World, tenant: nat, user: nat, key: Option<string>) {
    exists t | t in w.txns :: Uncommitted(w.txns[t]) && Collides(w.txns[t].draft.order, tenant, user, key)
  }

  predicate LocksCoupon(t: Txn, coupon: nat) {
    Uncommitted(t) && t.draft.coupon.Some? && t.draft.coupon.value.0 == coupon
  }

  ghost predicate CouponFree(w: World, coupon: nat) {
    forall t | t in w.txns :: !LocksCoupon(w.txns[t], coupon)
  }

  /** An existing order answers the same request and refuses another one. */
  function Resume(orders: seq<Order>, id: nat, c: Call): Txn
    requires id < |orders|
  {
    if orders[id].payload == PayloadOf(c) then Answered(c, id) else Refused
  }

  /* ---------- prices, items and the debit ---------- */

  /** Every variant of the cart was found once and quoted. */
  ghost predicate Quoted(cart: map<nat, int>, variants: seq<nat>, prices: map<nat, int>) {
    && Distinct(variants) && (forall i | 0 <= i < |variants| :: variants[i] in cart && variants[i] in prices)
    && (forall v | v in cart :: v in variants)
  }

  function Entry(m: map<nat, int>, v: nat): int { if v in m then m[v] else 0 }

  /** Prices times merged quantities, over the variants found. */
  function TotalOf(cart: map<nat, int>, variants: seq<nat>, prices: map<nat, int>): int
    decreases |variants|
  {
    if variants == [] then 0
    else
      var v := variants[|variants| - 1];
      TotalOf(cart, variants[..|variants| - 1], prices) + Entry(prices, v) * Entry(cart, v)
  }

  /** The order row is inserted with the total of the quoted prices and no items yet. */
  function NewDraft(c: Call, variants: seq<nat>, prices: map<nat, int>, currency: string): Draft {
    var total := TotalOf(CartOf(c.raw.lines), variants, prices);
    Draft(c, Order(c.tenant, c.user, StoredKey(c.raw.key), PayloadOf(c), [], total, currency), variants, prices, prices,
          None, total, [])
  }

  function Reduced(prices: map<nat, int>, percent: int): map<nat, int> {
    map v | v in prices :: Coupons.Discounted(prices[v], percent)
  }

  /** The coupon can be applied to this draft now, uses included, and lowers its total. */
  predicate Redeemable(k: Coupons.Coupon, d: Draft, now: int) {
    && k.active && now < k.expiresAt && k.currency == d.order.currency && k.minimum <= d.order.total
    && k.used < k.maxUses
    && TotalOf(CartOf(d.call.raw.lines), d.variants, Reduced(d.quoted, k.percent)) < d.order.total
  }

  /** The coupon replaces the prices, the order's total and the amount to debit, and records the difference. */
  function Lowered(d: Draft, coupon: nat, percent: int, now: int): Draft {
    var effective := Reduced(d.quoted, percent);
    var total := TotalOf(CartOf(d.call.raw.lines), d.variants, effective);
    d.(effective := effective, order := d.order.(total := total), coupon := Some((coupon, d.order.total - total, now)),
       amount := total)
  }

  function ItemOf(d: Draft, v: nat): OrderItem {
    var quantity, unit := Entry(CartOf(d.call.raw.lines), v), Entry(d.effective, v);
    OrderItem(v, quantity, unit, unit * quantity, Entry(d.quoted, v))
  }

  function ItemsOf(d: Draft): (r: seq<OrderItem>)
    ensures |r| == |d.variants| && forall i | 0 <= i < |r| :: r[i] == ItemOf(d, d.variants[i])
  {
    seq(|d.variants|, i requires 0 <= i < |d.variants| => ItemOf(d, d.variants[i]))
  }

  function WithItems(d: Draft): Draft { d.(order := d.order.(items := ItemsOf(d))) }

  function Debited(d: Draft): Draft { d.(debits := d.debits + [d.amount]) }

  /* ---------- steps ---------- */

  function At(w: World, txn: nat, t: Txn): World { w.(txns := w.txns[txn := t]) }

  /** The rows of the debits taken for an order. */
  function DebitRows(id: nat, amounts: seq<int>): (r: seq<Debit>)
    ensures |r| == |amounts| && forall i | 0 <= i < |r| :: r[i] == Debit(id, amounts[i])
  {
    seq(|amounts|, i requires 0 <= i < |amounts| => Debit(id, amounts[i]))
  }

  /** Committing: whatever the transaction wrote becomes visible. */
  function Committed(w: World, txn: nat, d: Draft): World {
    var id := |w.orders|;
    var w1 := w.(orders := w.orders + [d.order], debits := w.debits + DebitRows(id, d.debits),
                 jobs := if d.call.durable then w.jobs + [id] else w.jobs, txns := w.txns[txn := Answered(d.call, id)]);
    if d.coupon.Some? && d.coupon.value.0 in w.coupons then
      var k := w.coupons[d.coupon.value.0];
      w1.(coupons := w.coupons[d.coupon.value.0 := k.(used := k.used + 1)],
          redemptions := w.redemptions + [Redemption(d.coupon.value.0, id, d.coupon.value.1, d.coupon.value.2)])
    else w1
  }

  /** One step; a step that waits, or is not the transaction's next, changes nothing. */
  ghost function Next(w: World, e: Event): World {
    match e
    case Issue(coupon, terms) =>
      if coupon in w.coupons || !Coupons.WithinLimits(terms) || terms.used != 0 then w
      else w.(coupons := w.coupons[coupon := terms])
    case Switch(coupon, active) =>
      if coupon in w.coupons && CouponFree(w, coupon)
      then w.(coupons := w.coupons[coupon := w.coupons[coupon].(active := active)]) else w
    case Begin(txn, call) =>
      if txn in w.txns then w else At(w, txn, if Acceptable(call) then Looking(call) else Refused)
    case Lookup(txn) =>
      if txn !in w.txns || !w.txns[txn].Looking? then w
      else
        var c := w.txns[txn].call;
        var found := Find(w.orders, c.tenant, c.user, StoredKey(c.raw.key));
        At(w, txn, if found.Some? then Resume(w.orders, found.value, c) else Missed(c))
    case Place(txn, variants, prices, currency) =>
      if txn !in w.txns || !w.txns[txn].Missed? then w
      else
        var c := w.txns[txn].call;
        var found := Find(w.orders, c.tenant, c.user, StoredKey(c.raw.key));
        if !Quoted(CartOf(c.raw.lines), variants, prices) then At(w, txn, Refused)
        else if InFlight(w, c.tenant, c.user, StoredKey(c.raw.key)) then w
        else if found.Some? then At(w, txn, Resume(w.orders, found.value, c))
        else At(w, txn, Placed(NewDraft(c, variants, prices, currency)))
    case Discount(txn, coupon, now) =>
      if txn !in w.txns || !w.txns[txn].Placed? || !WithCoupon(w.txns[txn].draft.call) || !CouponFree(w, coupon) then w
      else if coupon !in w.coupons || !Redeemable(w.coupons[coupon], w.txns[txn].draft, now)
        then At(w, txn, Refused)
      else At(w, txn, Discounted(Lowered(w.txns[txn].draft, coupon, w.coupons[coupon].percent, now)))
    case Itemise(txn) =>
      if txn in w.txns && (w.txns[txn].Discounted? || (w.txns[txn].Placed? && !WithCoupon(w.txns[txn].draft.call)))
      then At(w, txn, Itemised(WithItems(w.txns[txn].draft))) else w
    case Charge(txn) =>
      if txn !in w.txns || !w.txns[txn].Itemised? then w
      else if w.txns[txn].draft.amount <= 0 then At(w, txn, Refused)
      else At(w, txn, Charged(Debited(w.txns[txn].draft)))
    case Commit(txn) =>
      if txn in w.txns && w.txns[txn].Charged? then Committed(w, txn, w.txns[txn].draft) else w
    case Rollback(txn) =>
      if txn in w.txns && !w.txns[txn].Answered? then At(w, txn, Refused) else w
  }

  ghost function Run(w: World, events: seq<Event>): World
    decreases |events|
  {
    if events == [] then w else Next(Run(w, events[..|events| - 1]), events[|events| - 1])
  }

  /* ---------- the run invariant ---------- */

  ghost predicate KeysUnique(orders: seq<Order>) {
    forall i, j | 0 <= i < j < |orders| :: !Collides(orders[i], orders[j].tenant, orders[j].user, orders[j].key)
  }

  /** What the lines of an order add up to, as charged and as quoted. */
  function Charges(items: seq<OrderItem>): int
    decreases |items|
  {
    if items == [] then 0 else Charges(items[..|items| - 1]) + items[|items| - 1].total
  }

  function Quotes(items: seq<OrderItem>): int
    decreases |items|
  {
    if items == [] then 0 else Quotes(items[..|items| - 1]) + items[|items| - 1].base * items[|items| - 1].quantity
  }

  ghost predicate Listed(items: seq<OrderItem>, variant: nat, quantity: int) {
    exists i | 0 <= i < |items| :: items[i].variant == variant && items[i].quantity == quantity
  }

  /** The lines are the merged cart of the request: each variant once, in its quantity. */
  ghost predicate ItemsOfCart(o: Order) {
    && (forall i | 0 <= i < |o.items| :: (o.items[i].variant, o.items[i].quantity) in o.payload.items)
    && (forall i, j | 0 <= i < j < |o.items| :: o.items[i].variant != o.items[j].variant)
    && (forall x | x in o.payload.items :: Listed(o.items, x.0, x.1))
    && (forall i | 0 <= i < |o.items| :: o.items[i].total == o.items[i].unit * o.items[i].quantity)
  }

  /** An order's lines are its cart and add up to its total. */
  ghost predicate OrderSound(o: Order) {
    ItemsOfCart(o) && o.total == Charges(o.items) > 0
  }

  /** The debits are one for each order, of its total. */
  ghost predicate Matched(orders: seq<Order>, debits: seq<Debit>) {
    |debits| == |orders| && forall i {:trigger debits[i]} | 0 <= i < |orders| :: debits[i] == Debit(i, orders[i].total)
  }

  function Uses(redemptions: seq<Redemption>, coupon: nat): nat
    decreases |redemptions|
  {
    if redemptions == [] then 0
    else Uses(redemptions[..|redemptions| - 1], coupon) + if redemptions[|redemptions| - 1].coupon == coupon then 1
      else 0
  }

  ghost predicate Counted(w: World, coupon: nat)
    requires coupon in w.coupons
  {
    var k := w.coupons[coupon];
    Coupons.WithinLimits(k) && k.used == Uses(w.redemptions, coupon)
  }

  /** A redemption is what the quoted prices of its order lost by the coupon's percentage, by a coupon in the order's
      currency, for at least its minimum and before it expired. */
  ghost predicate Redeemed(w: World, r: Redemption) {
    && r.order < |w.orders| && r.coupon in w.coupons
    && r.discount > 0 && r.discount + w.orders[r.order].total == Quotes(w.orders[r.order].items)
    && ReducedItems(w.orders[r.order].items, w.coupons[r.coupon].percent)
    && var k := w.coupons[r.coupon];
       && k.currency == w.orders[r.order].currency && k.minimum <= Quotes(w.orders[r.order].items)
       && r.at < k.expiresAt
  }

  ghost predicate ReducedItems(items: seq<OrderItem>, percent: int) {
    forall i | 0 <= i < |items| :: items[i].unit == Coupons.Discounted(items[i].base, percent)
  }

  ghost predicate Fits(o: Order, c: Call) {
    o.tenant == c.tenant && o.user == c.user && o.key == StoredKey(c.raw.key) && o.payload == PayloadOf(c)
  }

  /** A draft's figures agree with each other and with its request. */
  ghost predicate DraftSound(d: Draft) {
    var cart := CartOf(d.call.raw.lines);
    && Fits(d.order, d.call) && Quoted(cart, d.variants, d.quoted)
    && d.amount == d.order.total == TotalOf(cart, d.variants, d.effective)
    && (d.coupon.None? ==> d.effective == d.quoted)
    && (d.coupon.Some? ==> d.coupon.value.1 > 0 && d.coupon.value.1 + d.order.total == TotalOf(cart, d.variants,
           d.quoted))
  }

  ghost predicate Sound(w: World, t: Txn) {
    && (Uncommitted(t) ==>
          && DraftSound(t.draft)
          && Find(w.orders, t.draft.order.tenant, t.draft.order.user, t.draft.order.key).None?
          && (t.draft.coupon.Some? ==>
                && t.draft.coupon.value.0 in w.coupons
                && var k := w.coupons[t.draft.coupon.value.0];
                   && k.used < k.maxUses && t.draft.effective == Reduced(t.draft.quoted, k.percent)
                   && k.active && k.currency == t.draft.order.currency
                   && k.minimum <= t.draft.coupon.value.1 + t.draft.order.total
                   && t.draft.coupon.value.2 < k.expiresAt))
    && (t.Placed? ==> t.draft.coupon.None? && t.draft.debits == [])
    && (t.Discounted? ==> t.draft.debits == [])
    && (t.Itemised? || t.Charged? ==> t.draft.order.items == ItemsOf(t.draft))
    && (t.Itemised? ==> t.draft.debits == [])
    && (t.Charged? ==> t.draft.debits == [t.draft.amount] && t.draft.amount > 0)
    && (t.Answered? ==> t.id < |w.orders| && Fits(w.orders[t.id], t.call))
  }

  /** Uncommitted rows differ in their index entries. */
  ghost predicate KeysApart(txns: map<nat, Txn>) {
    forall s, t | s in txns && t in txns && Uncommitted(txns[s]) && Uncommitted(txns[t])
                  && Collides(txns[s].draft.order, txns[t].draft.order.tenant, txns[t].draft.order.user,
                              txns[t].draft.order.key) :: s == t
  }

  /** A coupon is locked by one transaction at a time. */
  ghost predicate CouponsApart(txns: map<nat, Txn>) {
    forall s, t, k: nat | s in txns && t in txns && LocksCoupon(txns[s], k) && LocksCoupon(txns[t], k) :: s == t
  }

  ghost predicate Apart(txns: map<nat, Txn>) {
    KeysApart(txns) && CouponsApart(txns)
  }

  ghost predicate Ledger(w: World) {
    && KeysUnique(w.orders) && Matched(w.orders, w.debits)
    && (forall i {:trigger OrderSound(w.orders[i])} | 0 <= i < |w.orders| :: OrderSound(w.orders[i]))
    && Distinct(w.jobs) && (forall i | 0 <= i < |w.jobs| :: w.jobs[i] < |w.orders|)
  }

  ghost predicate Redemptions(w: World) {
    && (forall k | k in w.coupons :: Counted(w, k))
    && (forall i | 0 <= i < |w.redemptions| :: Redeemed(w, w.redemptions[i]))
    && (forall i, j | 0 <= i < j < |w.redemptions| :: w.redemptions[i].order != w.redemptions[j].order)
  }

  ghost predicate Inv(w: World) {
    Ledger(w) && Redemptions(w) && (forall t | t in w.txns :: Sound(w, w.txns[t])) && Apart(w.txns)
  }
}
