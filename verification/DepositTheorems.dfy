/** The promises of flexible deposits, read off the run invariant. */
module DepositTheorems {
  import opened Deposits
  import opened DepositRuns

  /** Over every run a deposit is credited exactly when one ledger holds one credit for it, and
      that credit is for the credited amount. */
  lemma {:induction false} CreditedExactlyOnce(events: seq<Event>, id: nat)
    requires id in Run(EMPTY, events).deposits
    ensures var book := Run(EMPTY, events);
            var d := book.deposits[id];
            var assets, fiat := AssetFor(book.assetRows, id), FiatFor(book.rows, id);
            && (d.credited <==> |assets| + |fiat| == 1)
            && (!d.credited <==> assets == [] && fiat == [])
            && (d.credited ==> d.creditedAmount.Some?)
            && (d.credited && fiat == [] ==> assets[0].amount == d.creditedAmount.value)
            && (d.credited && assets == [] ==> Units(fiat[0].amount) == d.creditedAmount.value)
  {
    RunKeeps(events);
    assert Coherent(Run(EMPTY, events), id);
  }

  /** A deposit that closed uncredited is never credited, whatever happens next. */
  lemma {:induction false} ClosedStaysUncredited(before: seq<Event>, after: seq<Event>, id: nat)
    requires var book := Run(EMPTY, before);
             id in book.deposits && Closed(book.deposits[id].status) && !book.deposits[id].credited
    ensures var book := Run(Run(EMPTY, before), after);
            && id in book.deposits && !book.deposits[id].credited
            && AssetFor(book.assetRows, id) == [] && FiatFor(book.rows, id) == []
  {
    RunKeeps(before);
    RunEvolves(Run(EMPTY, before), after);
    var book := Run(Run(EMPTY, before), after);
    assert Evolves(Run(EMPTY, before).deposits[id], book.deposits[id]);
    assert Coherent(book, id);
  }

  /** From its credit on, a deposit's evidence and credit are frozen, in the ledger too. */
  lemma {:induction false} CreditFreezes(before: seq<Event>, after: seq<Event>, id: nat)
    requires id in Run(EMPTY, before).deposits && Run(EMPTY, before).deposits[id].credited
    ensures id in Run(Run(EMPTY, before), after).deposits
    ensures var d, d' := Run(EMPTY, before).deposits[id], Run(Run(EMPTY, before), after).deposits[id];
            && d'.credited && d'.asset == d.asset && d'.network == d.network && d'.received == d.received
               && d'.fee == d.fee
            && d'.creditedAmount == d.creditedAmount && d'.creditedAsset == d.creditedAsset
            && d'.creditedCurrency == d.creditedCurrency
            && (d.status == REVERSED ==> d' == d)
  {
    RunKeeps(before);
    RunEvolves(Run(EMPTY, before), after);
    assert Evolves(Run(EMPTY, before).deposits[id], Run(Run(EMPTY, before), after).deposits[id]);
  }

  /** Received amounts only grow and observed identities stay, inside the allow-lists. */
  lemma {:induction false} EvidenceOnlyGrows(before: seq<Event>, after: seq<Event>, id: nat)
    requires id in Run(EMPTY, before).deposits
    ensures id in Run(Run(EMPTY, before), after).deposits
    ensures var d, d' := Run(EMPTY, before).deposits[id], Run(Run(EMPTY, before), after).deposits[id];
            && (d.received.Some? ==> d'.received.Some? && d'.received.value >= d.received.value)
            && (d.asset.Some? ==> d'.asset == d.asset) && (d.network.Some? ==> d'.network == d.network)
            && (d'.asset.Some? && d.terms.allowedAssets != {} ==> d'.asset.value in d.terms.allowedAssets)
            && (d'.network.Some? && d.terms.allowedNetworks != {} ==> d'.network.value in d.terms.allowedNetworks)
  {
    RunKeeps(before);
    RunEvolves(Run(EMPTY, before), after);
    var book := Run(Run(EMPTY, before), after);
    assert Evolves(Run(EMPTY, before).deposits[id], book.deposits[id]);
    assert Named(book.deposits[id]);
  }

  /** One provider invoice has one deposit, however often its creation was retried; so it is credited at most once. */
  lemma OneDepositPerInvoice(events: seq<Event>, a: nat, b: nat)
    requires var book := Run(EMPTY, events);
             && a in book.deposits && b in book.deposits
             && book.deposits[a].tenant == book.deposits[b].tenant
                && book.deposits[a].provider == book.deposits[b].provider
             && book.deposits[a].providerId == book.deposits[b].providerId
    ensures a == b
  {
    RunKeeps(events);
  }

  /** A provider reversal of a credited deposit freezes the very wallet that holds the credit and
      leaves exactly one case for it. */
  lemma {:induction false} ReversalFreezesCreditedWallet(events: seq<Event>, id: nat, e: Evidence)
    requires var book := Run(EMPTY, events);
             && id in book.deposits && book.deposits[id].credited && !Closed(book.deposits[id].status)
             && e.status == REVERSED && e.providerId == book.deposits[id].providerId
    ensures var book := Run(EMPTY, events);
            var book' := Reconcile(book, book.deposits[id].tenant, id, Observed(e));
            && id in book'.deposits && book'.deposits[id].status == REVERSED
            && |CasesFor(book'.cases, id)| == 1
            && RowIn(book, id, CasesFor(book'.cases, id)[0].wallet) && Froze(book', CasesFor(book'.cases, id)[0].wallet)
  {
    RunKeeps(events);
    assert Coherent(Run(EMPTY, events), id);
    ReversalWell(Run(EMPTY, events), id);
  }
}
