/** Which call placed which order, over every interleaving, and what that call asked for. */
module CheckoutHistory {
  import opened Common
  import opened CheckoutRequests
  import opened Checkout
  import opened CheckoutRuns
  import Identifiers

  /** The call that each transaction began with. */
  ghost function Begun(events: seq<Event>): map<nat, Call>
    decreases |events|
  {
    if events == [] then map[]
    else
      var before, e := events[..|events| - 1], events[|events| - 1];
      Heard(Run(EMPTY, before), e, Begun(before))
  }

  ghost function Heard(w: World, e: Event, begun: map<nat, Call>): map<nat, Call> {
    if e.Begin? && e.txn !in w.txns then begun[e.txn := e.call] else begun
  }

  /** The transactions that committed an order, in that order. */
  ghost function Placers(events: seq<Event>): seq<nat>
    decreases |events|
  {
    if events == [] then []
    else
      var before, e := events[..|events| - 1], events[|events| - 1];
      Placed(Run(EMPTY, before), e, Placers(before))
  }

  ghost predicate Commits(w: World, e: Event) {
    e.Commit? && e.txn in w.txns && w.txns[e.txn].Charged?
  }

  ghost function Placed(w: World, e: Event, placers: seq<nat>): seq<nat> {
    if Commits(w, e) then placers + [e.txn] else placers
  }

  /** A transaction works on the call it began with. */
  ghost predicate WorksOn(t: Txn, c: Call) {
    match t
    case Looking(call) => call == c
    case Missed(call) => call == c
    case Answered(call, _) => call == c
    case Refused => true
    case _ => t.draft.call == c
  }

  /** An order was placed by a transaction that returned it, and has a job exactly when that call was durable. */
  ghost predicate Traced(w: World, begun: map<nat, Call>, txn: nat, id: nat) {
    && txn in begun && txn in w.txns && w.txns[txn] == Answered(begun[txn], id)
    && (id in w.jobs <==> begun[txn].durable)
  }

  ghost predicate Story(w: World, begun: map<nat, Call>, placers: seq<nat>) {
    && |placers| == |w.orders|
    && (forall t | t in w.txns :: t in begun && WorksOn(w.txns[t], begun[t]))
    && (forall i {:trigger placers[i]} | 0 <= i < |placers| :: Traced(w, begun, placers[i], i))
  }

  lemma OthersStay(w: World, e: Event, t: nat)
    requires e.Issue? || e.Switch? || e.txn != t
    ensures t in Next(w, e).txns <==> t in w.txns
    ensures t in w.txns ==> Next(w, e).txns[t] == w.txns[t]
  {
  }

  lemma CallStays(w: World, e: Event, begun: map<nat, Call>, t: nat)
    requires t in Next(w, e).txns && (t in w.txns ==> t in begun && WorksOn(w.txns[t], begun[t]))
    ensures t in Heard(w, e, begun) && WorksOn(Next(w, e).txns[t], Heard(w, e, begun)[t])
  {
    if e.Issue? || e.Switch? || e.txn != t {
      OthersStay(w, e, t);
    } else {
      OwnCallStays(w, e, begun, t);
    }
  }

  lemma OwnCallStays(w: World, e: Event, begun: map<nat, Call>, t: nat)
    requires !e.Issue? && !e.Switch? && e.txn == t
    requires t in Next(w, e).txns && (t in w.txns ==> t in begun && WorksOn(w.txns[t], begun[t]))
    ensures t in Heard(w, e, begun) && WorksOn(Next(w, e).txns[t], Heard(w, e, begun)[t])
  {
  }

  lemma OldOrderStays(w: World, e: Event, begun: map<nat, Call>, txn: nat, id: nat)
    requires Traced(w, begun, txn, id) && id < |w.orders|
    ensures Traced(Next(w, e), Heard(w, e, begun), txn, id)
  {
  }

  lemma NewOrderTraced(w: World, e: Event, begun: map<nat, Call>)
    requires Commits(w, e) && e.txn in begun && w.txns[e.txn].draft.call == begun[e.txn]
    requires forall i | 0 <= i < |w.jobs| :: w.jobs[i] < |w.orders|
    ensures Traced(Next(w, e), begun, e.txn, |w.orders|)
    ensures |Next(w, e).orders| == |w.orders| + 1
  {
    assert |w.orders| !in w.jobs;
  }

  lemma OrdersOnlyByCommit(w: World, e: Event)
    ensures !Commits(w, e) ==> Next(w, e).orders == w.orders && Next(w, e).jobs == w.jobs
    ensures Commits(w, e) ==> |Next(w, e).orders| == |w.orders| + 1
  {
  }

  lemma StepStory(w: World, e: Event, begun: map<nat, Call>, placers: seq<nat>)
    requires Inv(w) && Story(w, begun, placers)
    ensures Story(Next(w, e), Heard(w, e, begun), Placed(w, e, placers))
  {
    var w', begun', placers' := Next(w, e), Heard(w, e, begun), Placed(w, e, placers);
    OrdersOnlyByCommit(w, e);
    forall t | t in w'.txns
      ensures t in begun' && WorksOn(w'.txns[t], begun'[t])
    {
      CallStays(w, e, begun, t);
    }
    if Commits(w, e) {
      NewOrderTraced(w, e, begun);
    }
    forall i | 0 <= i < |placers'|
      ensures Traced(w', begun', placers'[i], i)
    {
      if i < |placers| {
        assert Traced(w, begun, placers[i], i);
        OldOrderStays(w, e, begun, placers[i], i);
      }
    }
  }

  lemma {:induction false} RunStory(events: seq<Event>)
    ensures Story(Run(EMPTY, events), Begun(events), Placers(events))
    decreases |events|
  {
    if events != [] {
      var before := events[..|events| - 1];
      RunStory(before);
      RunKeeps(before);
      StepStory(Run(EMPTY, before), events[|events| - 1], Begun(before), Placers(before));
    }
  }

  lemma {:induction false} CountDistinct(xs: seq<nat>, x: nat)
    requires Distinct(xs)
    ensures multiset(xs)[x] == if x in xs then 1 else 0
    decreases |xs|
  {
    if xs != [] {
      var n := |xs| - 1;
      CountDistinct(xs[..n], x);
      assert xs == xs[..n] + [xs[n]];
    }
  }

  /** Over every run, each order was placed by one call, which was acceptable and got it as its answer; it has exactly
      one job if that call was durable and none otherwise. */
  lemma {:induction false} JobExactlyWhenDurable(events: seq<Event>, id: nat)
    requires id < |Run(EMPTY, events).orders|
    ensures id < |Placers(events)| && Placers(events)[id] in Begun(events)
    ensures var w, call := Run(EMPTY, events), Begun(events)[Placers(events)[id]];
            && Placers(events)[id] in w.txns && w.txns[Placers(events)[id]] == Answered(call, id)
            && multiset(w.jobs)[id] == if call.durable then 1 else 0
  {
    RunStory(events);
    RunKeeps(events);
    assert Traced(Run(EMPTY, events), Begun(events), Placers(events)[id], id);
    CountDistinct(Run(EMPTY, events).jobs, id);
  }

  /* ---------- the prices quoted ---------- */

  /** The prices and the currency that each transaction was quoted when it placed its order. */
  ghost function Offers(events: seq<Event>): map<nat, (map<nat, int>, string)>
    decreases |events|
  {
    if events == [] then map[]
    else
      var before, e := events[..|events| - 1], events[|events| - 1];
      Offered(Run(EMPTY, before), e, Offers(before))
  }

  ghost function Offered(w: World, e: Event, offers: map<nat, (map<nat, int>, string)>)
    : map<nat, (map<nat, int>, string)>
  {
    if e.Place? && e.txn in w.txns && w.txns[e.txn].Missed? then offers[e.txn := (e.prices, e.currency)] else offers
  }

  /** A draft is priced as quoted. */
  ghost predicate DraftAsOffered(t: Txn, offer: (map<nat, int>, string)) {
    Uncommitted(t) ==> t.draft.quoted == offer.0 && t.draft.order.currency == offer.1
  }

  /** An order charges the quoted prices, or has a redemption. */
  ghost predicate OrderAsOffered(w: World, id: nat, offer: (map<nat, int>, string))
    requires id < |w.orders|
  {
    && w.orders[id].currency == offer.1
    && (forall i | 0 <= i < |w.orders[id].items| ::
          && w.orders[id].items[i].variant in offer.0
          && w.orders[id].items[i].base == offer.0[w.orders[id].items[i].variant])
    && (HasRedemption(w.redemptions, id)
        || forall i | 0 <= i < |w.orders[id].items| :: w.orders[id].items[i].unit == w.orders[id].items[i].base)
  }

  ghost predicate HasRedemption(redemptions: seq<Redemption>, id: nat) {
    exists i | 0 <= i < |redemptions| :: redemptions[i].order == id
  }

  ghost predicate AsOffered(w: World, placers: seq<nat>, offers: map<nat, (map<nat, int>, string)>) {
    && |placers| == |w.orders|
    && (forall t | t in w.txns && Uncommitted(w.txns[t]) :: t in offers && DraftAsOffered(w.txns[t], offers[t]))
    && (forall i {:trigger placers[i]} | 0 <= i < |placers| ::
          PlacedAsOffered(w, placers[i], i, offers))
  }

  ghost predicate PlacedAsOffered(w: World, txn: nat, id: nat, offers: map<nat, (map<nat, int>, string)>) {
    txn in w.txns && w.txns[txn].Answered? && txn in offers && id < |w.orders| && OrderAsOffered(w, id, offers[txn])
  }

  lemma PlacedIsOffered(w: World, e: Event, t: nat)
    requires e.Place? && e.txn == t && t in Next(w, e).txns && Uncommitted(Next(w, e).txns[t])
    ensures Next(w, e) == w || (t in w.txns && w.txns[t].Missed?
                                && Next(w, e).txns[t].draft.quoted == e.prices
                                && Next(w, e).txns[t].draft.order.currency == e.currency)
  {
  }

  lemma WorkKeepsOffer(w: World, e: Event, t: nat)
    requires !e.Issue? && !e.Switch? && !e.Place? && e.txn == t
    requires t in Next(w, e).txns && Uncommitted(Next(w, e).txns[t])
    ensures t in w.txns && Uncommitted(w.txns[t])
    ensures Next(w, e).txns[t].draft.quoted == w.txns[t].draft.quoted
    ensures Next(w, e).txns[t].draft.order.currency == w.txns[t].draft.order.currency
  {
  }

  lemma DraftStaysAsOffered(w: World, e: Event, offers: map<nat, (map<nat, int>, string)>, t: nat)
    requires t in Next(w, e).txns && Uncommitted(Next(w, e).txns[t])
    requires t in w.txns && Uncommitted(w.txns[t]) ==> t in offers && DraftAsOffered(w.txns[t], offers[t])
    ensures t in Offered(w, e, offers) && DraftAsOffered(Next(w, e).txns[t], Offered(w, e, offers)[t])
  {
    if e.Issue? || e.Switch? || e.txn != t {
      OthersStay(w, e, t);
    } else if e.Place? {
      PlacedIsOffered(w, e, t);
    } else {
      WorkKeepsOffer(w, e, t);
    }
  }

  lemma OrderStaysAsOffered(w: World, e: Event, offers: map<nat, (map<nat, int>, string)>, txn: nat, id: nat)
    requires PlacedAsOffered(w, txn, id, offers)
    ensures PlacedAsOffered(Next(w, e), txn, id, Offered(w, e, offers))
  {
    var w' := Next(w, e);
    assert w'.orders[id] == w.orders[id];
    RedemptionsOnlyByCommit(w, e);
    if HasRedemption(w.redemptions, id) {
      var i :| 0 <= i < |w.redemptions| && w.redemptions[i].order == id;
      assert w'.redemptions[i] == w.redemptions[i];
    }
  }

  lemma NewOrderAsOffered(w: World, txn: nat, d: Draft, offers: map<nat, (map<nat, int>, string)>)
    requires Sound(w, Charged(d)) && txn in offers && DraftAsOffered(Charged(d), offers[txn])
    ensures PlacedAsOffered(Committed(w, txn, d), txn, |w.orders|, offers)
  {
    var w' := Committed(w, txn, d);
    if d.coupon.Some? {
      assert w'.redemptions[|w.redemptions|].order == |w.orders|;
    }
  }

  lemma OrdersAsOffered(w: World, e: Event, placers: seq<nat>, offers: map<nat, (map<nat, int>, string)>, i: nat)
    requires |placers| == |w.orders| && i < |Placed(w, e, placers)|
    requires forall i {:trigger placers[i]} | 0 <= i < |placers| :: PlacedAsOffered(w, placers[i], i, offers)
    requires Commits(w, e) ==>
               Sound(w, w.txns[e.txn]) && e.txn in offers && DraftAsOffered(w.txns[e.txn], offers[e.txn])
    ensures PlacedAsOffered(Next(w, e), Placed(w, e, placers)[i], i, Offered(w, e, offers))
  {
    if i < |placers| {
      OrderStaysAsOffered(w, e, offers, placers[i], i);
    } else {
      NewOrderAsOffered(w, e.txn, w.txns[e.txn].draft, offers);
    }
  }

  lemma StepAsOffered(w: World, e: Event, placers: seq<nat>, offers: map<nat, (map<nat, int>, string)>)
    requires Inv(w) && AsOffered(w, placers, offers)
    ensures AsOffered(Next(w, e), Placed(w, e, placers), Offered(w, e, offers))
  {
    forall t | t in Next(w, e).txns && Uncommitted(Next(w, e).txns[t])
      ensures t in Offered(w, e, offers) && DraftAsOffered(Next(w, e).txns[t], Offered(w, e, offers)[t])
    {
      DraftStaysAsOffered(w, e, offers, t);
    }
    if Commits(w, e) {
      assert Sound(w, w.txns[e.txn]);
    }
    OrdersOnlyByCommit(w, e);
    forall i | 0 <= i < |Placed(w, e, placers)|
      ensures PlacedAsOffered(Next(w, e), Placed(w, e, placers)[i], i, Offered(w, e, offers))
    {
      OrdersAsOffered(w, e, placers, offers, i);
    }
  }

  /** Over every run, an order is in the currency and at the prices that its transaction was quoted, line by line; only
      with a redemption on record does a line charge less than its quote. */
  lemma {:induction false} ChargedAsQuoted(events: seq<Event>)
    ensures AsOffered(Run(EMPTY, events), Placers(events), Offers(events))
    decreases |events|
  {
    if events != [] {
      var before := events[..|events| - 1];
      ChargedAsQuoted(before);
      RunKeeps(before);
      StepAsOffered(Run(EMPTY, before), events[|events| - 1], Placers(before), Offers(before));
    }
  }

  /** A request that is refused before anything is looked up. */
  predicate Unacceptable(c: Call) {
    || (c.sync && c.durable)
    || (forall i | 0 <= i < |c.raw.recipient| :: Identifiers.IsBlank(c.raw.recipient[i]))
    || c.raw.lines == [] || |c.raw.lines| > 50 || (exists i | 0 <= i < |c.raw.lines| :: c.raw.lines[i].quantity <= 0)
    || (c.raw.key.Some? && (|Identifiers.Strip(c.raw.key.value)| == 0 || |Identifiers.Strip(c.raw.key.value)| > 100))
    || (c.raw.coupon.Some? && |Identifiers.Strip(c.raw.coupon.value)| > 40)
  }

  lemma RefusedAtOnceExactlyWhen(w: World, txn: nat, c: Call)
    requires txn !in w.txns
    ensures Next(w, Begin(txn, c)) == w.(txns := w.txns[txn := if Unacceptable(c) then Refused else Looking(c)])
  {
    UnacceptableExactly(c);
  }

  lemma UnacceptableExactly(c: Call)
    ensures Unacceptable(c) <==> !Acceptable(c)
  {
    Identifiers.StripEmpty(c.raw.recipient);
    if exists i | 0 <= i < |c.raw.lines| :: c.raw.lines[i].quantity <= 0 {
      var i :| 0 <= i < |c.raw.lines| && c.raw.lines[i].quantity <= 0;
      assert !AllPositive(c.raw.lines);
    }
  }

  /* ---------- redemptions ---------- */

  lemma RedemptionsOnlyByCommit(w: World, e: Event)
    ensures Next(w, e).redemptions != w.redemptions ==>
              && Commits(w, e) && w.txns[e.txn].draft.coupon.Some?
              && |Next(w, e).redemptions| == |w.redemptions| + 1
              && w.redemptions == Next(w, e).redemptions[..|w.redemptions|]
              && Next(w, e).redemptions[|w.redemptions|].coupon == w.txns[e.txn].draft.coupon.value.0
              && Next(w, e).redemptions[|w.redemptions|].at == w.txns[e.txn].draft.coupon.value.2
  {
  }

  /** Every redemption of every run was committed while its coupon was active and had a use left, was made before the
      coupon expired, and is for an order in its currency whose quoted total reaches its minimum. */
  lemma {:induction false} RedeemedWhileUsable(events: seq<Event>, i: nat) returns (n: nat)
    requires i < |Run(EMPTY, events).redemptions|
    ensures n < |events| && events[n].Commit? && |Run(EMPTY, events[..n]).redemptions| == i
    ensures var w, r := Run(EMPTY, events), Run(EMPTY, events).redemptions[i];
            && r.order < |w.orders| && r.coupon in w.coupons && r.coupon in Run(EMPTY, events[..n]).coupons
            && Run(EMPTY, events[..n]).coupons[r.coupon].active
            && Run(EMPTY, events[..n]).coupons[r.coupon].used < Run(EMPTY, events[..n]).coupons[r.coupon].maxUses
            && r.at < w.coupons[r.coupon].expiresAt
            && w.coupons[r.coupon].currency == w.orders[r.order].currency
            && w.coupons[r.coupon].minimum <= Quotes(w.orders[r.order].items)
    decreases |events|
  {
    RunKeeps(events);
    assert Redeemed(Run(EMPTY, events), Run(EMPTY, events).redemptions[i]);
    var last := |events| - 1;
    var before := Run(EMPTY, events[..last]);
    RedemptionsOnlyByCommit(before, events[last]);
    if i < |before.redemptions| {
      n := RedeemedWhileUsable(events[..last], i);
      assert events[..last][..n] == events[..n];
      assert before.redemptions[i] == Run(EMPTY, events).redemptions[i];
    } else {
      n := last;
      RunKeeps(events[..last]);
      assert Sound(before, before.txns[events[last].txn]);
    }
  }
}
