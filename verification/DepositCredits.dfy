/** What a credited deposit was credited with, over every run: the rate, the cap, and the amount received. */
module DepositCredits {
  import opened Common
  import opened Deposits
  import opened DepositRuns

  /** What is left of the amount received: all of it on a gross basis, and on a net basis all but the fee. */
  function Left(d: Deposit): int
    requires d.received.Some?
  {
    d.received.value - (if d.terms.basis == NetAfterFee && d.fee.Some? then d.fee.value else 0)
  }

  lemma NetIsLeft(d: Deposit)
    requires d.received.Some?
    ensures NetAmount(d) == if Left(d) > 0 then Option.Some(Left(d)) else Option.None
  {
  }

  /** `cents` is what `policy` gives for what is left of `d`: nearest cent, within the cap. */
  ghost predicate FairFor(d: Deposit, policy: FxPolicy, cents: int) {
    && policy.enabled && policy.tenant == d.tenant && d.asset == Option.Some(policy.asset)
    && (policy.network == "ANY" || d.network == Option.Some(policy.network))
    && d.creditedCurrency == Option.Some(policy.currency)
    && d.creditedAmount == Option.Some(Units(cents)) && cents > 0
    && d.received.Some? && Left(d) > 0
    && -CENT_PRODUCT <= 2 * (Left(d) * policy.rate - cents * CENT_PRODUCT) < CENT_PRODUCT
    && (policy.cap.Some? ==> cents * 10_000 <= policy.cap.value)
  }

  /** The credit of `d` was asked for, went where its terms say, and is what its own evidence is worth under the
      policies of `book`. */
  ghost predicate Worth(book: Book, d: Deposit) {
    && d.terms.autoCredit && d.received.Some? && d.received.value > 0 && Left(d) > 0
    && (d.terms.target == SettlementTarget <==> d.creditedCurrency.Some?)
    && (d.creditedCurrency.Some? ==> exists policy, cents | policy in book.policies :: FairFor(d, policy, cents))
    && (d.creditedCurrency.None? ==> d.creditedAmount == Option.Some(Left(d)))
  }

  lemma WalletWorth(book: Book, id: nat)
    requires id in book.deposits && !book.deposits[id].credited && Untouched(book, id)
    requires var d := book.deposits[id];
             && d.received.Some? && d.received.value > 0 && d.asset.Some? && d.network.Some? && NetAmount(d).Some?
             && d.terms.autoCredit && d.terms.target == SettlementTarget
    ensures var d := book.deposits[id];
            var posted := SettleIntoWallet(book, id, d.asset.value, d.network.value, NetAmount(d).value);
            id in posted.book.deposits
            && (posted.ending == Normal && posted.book.deposits[id].credited ==> Worth(book, posted.book.deposits[id]))
  {
    var d := book.deposits[id];
    if Given(d.terms.currency).Some? && NormalCurrency(d.terms.currency.value).Some? {
      var key := FiatKey(d.tenant, d.user, NormalCurrency(d.terms.currency.value).value);
      var policy := Resolve(book, d, d.asset.value, d.network.value, key.currency);
      NetIsLeft(d);
      if policy.Some? && WithinCap(policy.value, Convert(policy.value, NetAmount(d).value)) {
        var cents := Convert(policy.value, NetAmount(d).value);
        FiatAtWithin(book.rows, key, id);
        if cents > 0 {
          PostFiatFacts(book, id, key, policy.value.id, cents);
          assert FairFor(PostFiat(book, id, key, policy.value.id, cents).book.deposits[id], policy.value, cents);
        }
      }
    }
  }

  lemma SettleWorth(book: Book, id: nat)
    requires id in book.deposits && !book.deposits[id].credited && Untouched(book, id)
    ensures var posted := Settle(book, id);
            id in posted.book.deposits
            && (posted.ending == Normal && posted.book.deposits[id].credited ==> Worth(book, posted.book.deposits[id]))
  {
    var d := book.deposits[id];
    if d.status == CREDITED || d.received.None? || d.received.value <= 0 || d.asset.None? || d.network.None?
       || !d.terms.autoCredit || NetAmount(d).None? {
    } else if d.terms.target == AssetTarget {
      if NormalAsset(d.asset.value).Some? && NormalNetwork(d.network.value).Some? {
        var key := AssetKey(d.tenant, d.user, NormalAsset(d.asset.value).value, NormalNetwork(d.network.value).value);
        PostAssetFacts(book, id, key, NetAmount(d).value);
      }
    } else {
      WalletWorth(book, id);
    }
  }

  /** The reconciliation that turns `credited` on credits what the deposit is worth at that moment. */
  lemma ReconcileWorth(book: Book, tenant: nat, id: nat, answer: Answer)
    requires Inv(book) && id in book.deposits && !book.deposits[id].credited
    ensures var book' := Reconcile(book, tenant, id, answer);
            id in book'.deposits && (book'.deposits[id].credited ==> Worth(book, book'.deposits[id]))
  {
    assert Coherent(book, id);
    var d := book.deposits[id];
    if d.tenant == tenant && !Closed(d.status) && answer.Observed? && answer.evidence.providerId == d.providerId {
      var e := answer.evidence;
      ObserveShape(d, e);
      var b1 := WithDeposit(book, id, Observe(d, e).deposit);
      ObservedUntouched(book, id, Observe(d, e).deposit);
      if Observe(d, e).ending == Normal && e.status == SETTLED_REVIEW {
        SettleWorth(b1, id);
        SettleUncredited(b1, id);
      }
    }
  }

  /** A settlement that does not end normally credits nothing. */
  lemma SettleUncredited(book: Book, id: nat)
    requires id in book.deposits && !book.deposits[id].credited && Untouched(book, id)
    ensures var posted := Settle(book, id);
            posted.ending != Normal ==> id in posted.book.deposits && posted.book.deposits[id] == book.deposits[id]
  {
  }

  /** A credited deposit keeps its worth. */
  lemma WorthFrozen(book: Book, d: Deposit, d': Deposit)
    requires d.credited && Evolves(d, d') && Worth(book, d)
    ensures Worth(book, d')
  {
    if d.creditedCurrency.Some? {
      var policy, cents :| policy in book.policies && FairFor(d, policy, cents);
      assert FairFor(d', policy, cents);
    }
  }

  lemma ReconcileElsewhere(book: Book, tenant: nat, id: nat, answer: Answer, x: nat)
    requires id in book.deposits ==> Coherent(book, id) && Named(book.deposits[id])
    ensures var book' := Reconcile(book, tenant, id, answer);
            book'.deposits.Keys == book.deposits.Keys
            && (x in book.deposits && x != id ==> book'.deposits[x] == book.deposits[x])
  {
    if id in book.deposits && book.deposits[id].tenant == tenant && !Closed(book.deposits[id].status) {
      AnsweredGood(book, id, answer);
    }
  }

  /** What one step can do to one deposit: create it, reconcile it, or leave it alone. */
  lemma NextTouches(book: Book, event: Event, id: nat)
    requires Inv(book) && id in Next(book, event).deposits
    ensures id !in book.deposits ==>
              event.Creation? && event.id == id
              && Next(book, event).deposits[id] == Fresh(event.request, event.evidence)
    ensures id in book.deposits && Next(book, event).deposits[id] != book.deposits[id] ==>
              event.Reconciliation? && event.id == id
  {
    if event.Reconciliation? {
      assert event.id in book.deposits ==> Coherent(book, event.id) && Named(book.deposits[event.id]);
      ReconcileElsewhere(book, event.tenant, event.id, event.answer, id);
    }
  }

  /** Only the reconciliation of an uncredited deposit credits it. */
  lemma NextWorth(book: Book, event: Event, id: nat)
    requires Inv(book) && id in Next(book, event).deposits && Next(book, event).deposits[id].credited
    requires id !in book.deposits || !book.deposits[id].credited
    ensures Worth(book, Next(book, event).deposits[id])
  {
    NextTouches(book, event, id);
    assert id in book.deposits && event.Reconciliation?;
    ReconcileWorth(book, event.tenant, id, event.answer);
  }

  /** Every credited deposit was worth its credit at some step of the run, and still is. */
  lemma {:induction false} CreditedIsWorth(events: seq<Event>, id: nat) returns (n: nat)
    requires id in Run(EMPTY, events).deposits && Run(EMPTY, events).deposits[id].credited
    ensures n < |events| && Worth(Run(EMPTY, events[..n]), Run(EMPTY, events).deposits[id])
    decreases |events|
  {
    var last := |events| - 1;
    var before := events[..last];
    var book := Run(EMPTY, before);
    RunKeeps(before);
    if id in book.deposits && book.deposits[id].credited {
      n := CreditedIsWorth(before, id);
      assert before[..n] == events[..n];
      NextKeeps(book, events[last]);
      WorthFrozen(Run(EMPTY, events[..n]), book.deposits[id], Run(EMPTY, events).deposits[id]);
    } else {
      n := last;
      NextWorth(book, events[last], id);
    }
  }

  /** No run credits a deposit whose terms leave the credit to an operator, and none credits the other kind of wallet
      than the terms name. */
  lemma {:induction false} CreditedAsAgreed(events: seq<Event>, id: nat)
    requires id in Run(EMPTY, events).deposits && Run(EMPTY, events).deposits[id].credited
    ensures var book := Run(EMPTY, events);
            var d := book.deposits[id];
            && d.terms.autoCredit
            && (d.terms.target == AssetTarget ==> |AssetFor(book.assetRows, id)| == 1 && FiatFor(book.rows, id) == [])
            && (d.terms.target == SettlementTarget ==>
                  |FiatFor(book.rows, id)| == 1 && AssetFor(book.assetRows, id) == [])
  {
    var n := CreditedIsWorth(events, id);
    RunKeeps(events);
    assert Coherent(Run(EMPTY, events), id);
  }

  /* ---------- the bound on settlements ---------- */

  /** At the end of every run, a deposit credited in a currency was credited within half a cent of its net
      amount times the rate of a policy that was enabled at some step for its tenant, asset, network and
      currency, and never above that policy's cap. */
  lemma {:induction false} SettlementBounded(events: seq<Event>, id: nat) returns (n: nat, policy: FxPolicy, cents: int)
    requires id in Run(EMPTY, events).deposits
    requires var d := Run(EMPTY, events).deposits[id]; d.credited && d.creditedCurrency.Some?
    ensures n < |events| && policy in Run(EMPTY, events[..n]).policies
    ensures FairFor(Run(EMPTY, events).deposits[id], policy, cents)
  {
    n := CreditedIsWorth(events, id);
    policy, cents :| policy in Run(EMPTY, events[..n]).policies
    && FairFor(Run(EMPTY, events).deposits[id], policy, cents);
  }

  /* ---------- the credit against what was received ---------- */

  /** A negative fee is on record. */
  predicate FeeNegative(d: Deposit) { d.fee.Some? && d.fee.value < 0 }

  lemma SettleKeepsFee(book: Book, id: nat)
    requires id in book.deposits
    ensures id in Settle(book, id).book.deposits && Settle(book, id).book.deposits[id].fee == book.deposits[id].fee
  {
  }

  lemma ObserveFee(d: Deposit, e: Evidence)
    ensures FeeNegative(Observe(d, e).deposit) ==> Observe(d, e).deposit.fee == d.fee
  {
  }

  lemma AnsweredFee(book: Book, id: nat, answer: Answer)
    requires id in book.deposits
    ensures var posted := Answered(book, id, answer);
            id in posted.book.deposits
            && (FeeNegative(posted.book.deposits[id]) ==> posted.book.deposits[id].fee == book.deposits[id].fee)
  {
    if answer.Observed? && !book.deposits[id].credited {
      ObserveFee(book.deposits[id], answer.evidence);
      SettleKeepsFee(WithDeposit(book, id, Observe(book.deposits[id], answer.evidence).deposit), id);
    }
  }

  lemma ReconcileFee(book: Book, tenant: nat, id: nat, answer: Answer)
    requires id in book.deposits
    ensures var book' := Reconcile(book, tenant, id, answer);
            id in book'.deposits && (FeeNegative(book'.deposits[id]) ==>
                                       book'.deposits[id].fee == book.deposits[id].fee)
  {
    AnsweredFee(book, id, answer);
  }

  /** A negative fee on record is the one that the deposit was created with. */
  lemma {:induction false} NegativeFeeFromCreation(events: seq<Event>, id: nat) returns (n: nat)
    requires id in Run(EMPTY, events).deposits && FeeNegative(Run(EMPTY, events).deposits[id])
    ensures n < |events| && events[n].Creation? && events[n].id == id
    ensures events[n].evidence.fee == Run(EMPTY, events).deposits[id].fee
    decreases |events|
  {
    var last := |events| - 1;
    var before := events[..last];
    var book := Run(EMPTY, before);
    RunKeeps(before);
    NextTouches(book, events[last], id);
    n := last;
    if id in book.deposits {
      FeeKept(book, events[last], id);
      n := NegativeFeeFromCreation(before, id);
    }
  }

  lemma FeeKept(book: Book, event: Event, id: nat)
    requires Inv(book) && id in book.deposits && id in Next(book, event).deposits
             && FeeNegative(Next(book, event).deposits[id])
    ensures Next(book, event).deposits[id].fee == book.deposits[id].fee
  {
    NextTouches(book, event, id);
    if event.Reconciliation? {
      ReconcileFee(book, event.tenant, id, event.answer);
    }
  }

  /** At the end of every run, an asset credit exceeds what was received exactly when the basis is net and the
      fee on record is negative; and such a fee can only be the one given at creation, which nothing checks. */
  lemma {:induction false} CreditAboveReceivedExactlyWhen(events: seq<Event>, id: nat)
    requires id in Run(EMPTY, events).deposits
    requires var d := Run(EMPTY, events).deposits[id]; d.credited && d.creditedCurrency.None?
    ensures var d := Run(EMPTY, events).deposits[id];
            && d.creditedAmount.Some? && d.received.Some?
            && (d.creditedAmount.value > d.received.value
                <==> d.terms.basis == NetAfterFee && d.fee.Some? && d.fee.value < 0)
            && (d.creditedAmount.value > d.received.value ==>
                  exists n | 0 <= n < |events| ::
                    events[n].Creation? && events[n].id == id && events[n].evidence.fee == d.fee)
  {
    var n := CreditedIsWorth(events, id);
    var d := Run(EMPTY, events).deposits[id];
    if FeeNegative(d) {
      var m := NegativeFeeFromCreation(events, id);
    }
  }

  /** With no negative fee at any creation, no asset credit exceeds what was received. */
  lemma {:induction false} AssetCreditWithinReceived(events: seq<Event>, id: nat)
    requires forall n | 0 <= n < |events| ::
               events[n].Creation? && events[n].evidence.fee.Some? ==> events[n].evidence.fee.value >= 0
    requires id in Run(EMPTY, events).deposits
    requires var d := Run(EMPTY, events).deposits[id]; d.credited && d.creditedCurrency.None?
    ensures var d := Run(EMPTY, events).deposits[id];
            d.creditedAmount.Some? && d.received.Some? && d.creditedAmount.value <= d.received.value
  {
    CreditAboveReceivedExactlyWhen(events, id);
  }
}
