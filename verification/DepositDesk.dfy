/** The deposit service as it works: rows updated in place, one statement after the other. */
module DepositDesk {
  import opened Common
  import opened Deposits
  import Runs = DepositRuns
  import Outcomes = DepositOutcomes
  import Creation = DepositCreation

  lemma RewriteSame(d: Deposit, e: Evidence, asset: Option<string>, network: Option<string>)
    ensures Write(d.(asset := asset, network := network), e, asset, network) == Write(d, e, asset, network)
  {
  }

  function BalanceOf<K>(wallets: map<K, Wallet>, key: K): int {
    if key in wallets then wallets[key].balance else 0
  }

  /** No balance differs. */
  ghost predicate SameMoney(book: Book, book': Book) {
    && (forall k :: BalanceOf(book'.wallets, k) == BalanceOf(book.wallets, k))
    && (forall k :: BalanceOf(book'.assetWallets, k) == BalanceOf(book.assetWallets, k))
  }

  /** Exactly one case is open for the deposit, about the wallet of its one ledger row, and that wallet is frozen. */
  ghost predicate Reversed(book: Book, id: nat) {
    && |CasesFor(book.cases, id)| == 1 && Runs.RowIn(book, id, CasesFor(book.cases, id)[0].wallet)
    && Runs.Froze(book, CasesFor(book.cases, id)[0].wallet)
  }

  lemma ReversalKeepsMoney(book: Book, id: nat)
    requires id in book.deposits
    ensures var after := RecordReversal(book, id).book;
            SameMoney(book, after) && after.rows == book.rows && after.assetRows == book.assetRows
  {
  }

  lemma ReversalReverses(book: Book, id: nat)
    requires id in book.deposits
    ensures var posted := RecordReversal(book, id);
            book.deposits[id].credited && !Closed(book.deposits[id].status) && Runs.Coherent(book, id) ==>
              && posted.ending == Normal && Reversed(posted.book, id) && id in posted.book.deposits
              && posted.book.deposits[id] == book.deposits[id].(status := REVERSED, failed := true)
  {
    if book.deposits[id].credited && !Closed(book.deposits[id].status) && Runs.Coherent(book, id) {
      Runs.ReversalWell(book, id);
      ReversalKeepsMoney(book, id);
    }
  }

  /** What a credit keyed by a deposit does to the money: the whole amount once, and nothing again. */
  ghost predicate CreditMoves(book: Book, book': Book, key: AssetKey, amount: int, id: nat, ending: Ending) {
    && (AssetFor(book.assetRows, id) == [] ==>
          && ending == Normal && BalanceOf(book'.assetWallets, key) == BalanceOf(book.assetWallets, key) + amount
          && AssetFor(book'.assetRows, id) == [AssetRow(key, amount, BalanceOf(book.assetWallets, key),
                                                        BalanceOf(book'.assetWallets, key), id)])
    && (AssetFor(book.assetRows, id) != [] ==>
          book'.assetRows == book.assetRows
          && BalanceOf(book'.assetWallets, key) == BalanceOf(book.assetWallets, key))
    && book'.assetWallets - {key} == book.assetWallets - {key} && book.assetRows <= book'.assetRows
  }

  lemma WithoutKey<K, V>(m: map<K, V>, k: K, v: V)
    ensures m[k := v] - {k} == m - {k}
  {
  }

  lemma {:induction false} CreditAssetMoves(book: Book, key: AssetKey, amount: int, id: nat)
    ensures var posted := CreditAsset(WithAssetWallet(book, key), key, amount, id);
            CreditMoves(book, posted.book, key, amount, id, posted.ending)
  {
    var ready := WithAssetWallet(book, key);
    WithoutKey(book.assetWallets, key, Wallet(0, true));
    assert ready.assetWallets - {key} == book.assetWallets - {key} && ready.assetRows == book.assetRows;
    assert BalanceOf(ready.assetWallets, key) == BalanceOf(book.assetWallets, key);
    OpenedCreditMoves(ready, key, amount, id);
  }

  lemma {:induction false} OpenedCreditMoves(book: Book, key: AssetKey, amount: int, id: nat)
    requires key in book.assetWallets
    ensures var posted := CreditAsset(book, key, amount, id);
            CreditMoves(book, posted.book, key, amount, id, posted.ending)
  {
    var w := book.assetWallets[key];
    WithoutKey(book.assetWallets, key, w.(balance := w.balance + amount));
    Runs.AssetForAppend(book.assetRows, AssetRow(key, amount, w.balance, w.balance + amount, id), id);
  }

  class Desk {
    var deposits: map<nat, Deposit>
    var assetWallets: map<AssetKey, Wallet>
    var assetRows: seq<AssetRow>
    var wallets: map<FiatKey, Wallet>
    var rows: seq<FiatRow>
    var cases: seq<Case>
    var policies: seq<FxPolicy>

    ghost function View(): Book
      reads this
    {
      Book(deposits, assetWallets, assetRows, wallets, rows, cases, policies)
    }

    /** The deposit with this key, found by scanning the table. */
    method FindByKey(tenant: nat, key: string) returns (found: Option<nat>)
      ensures found.Some? ==>
                found.value in deposits && deposits[found.value].tenant == tenant && deposits[found.value].key == key
      ensures found.None? ==> !KeyTaken(View(), tenant, key)
    {
      var rest := deposits.Keys;
      while rest != {}
        invariant rest <= deposits.Keys
        invariant forall id | id in deposits && id !in rest ::
                    !(deposits[id].tenant == tenant && deposits[id].key == key)
        decreases |rest|
      {
        var id :| id in rest;
        if deposits[id].tenant == tenant && deposits[id].key == key {
          return Option.Some(id);
        }
        rest := rest - {id};
      }
      return Option.None;
    }

    /** The lookup that opens a creation: an answer is the caller's own deposit. */
    method LookupDeposit(r: Request) returns (phase: Creation.Phase)
      requires Runs.Unique(View())
      ensures phase == Creation.AfterAsk(View(), Creation.Keyed(r))
      ensures phase.Answered? ==>
                && phase.id in deposits && deposits[phase.id].tenant == r.tenant && deposits[phase.id].user == r.user
                && deposits[phase.id].paymentMethod == r.paymentMethod
                   && deposits[phase.id].key == Creation.Keyed(r).key
    {
      var keyed := Creation.Keyed(r);
      if !(8 <= |keyed.key| <= 100) {
        return Creation.Refused;
      }
      var existing := FindByKey(r.tenant, keyed.key);
      if existing.None? {
        return Creation.Asking(keyed);
      }
      Creation.HolderIsOnly(View(), keyed, existing.value);
      var d := deposits[existing.value];
      phase := if d.user == r.user && d.paymentMethod == r.paymentMethod then Creation.Answered(keyed, existing.value)
               else Creation.Refused;
    }

    /** The insert that ends a creation. A lost race is answered with the winner of the key if it has the same
        invoice, whoever's it is; an answer that is not the winner's is the caller's. */
    method InsertDeposit(id: nat, r: Request, e: Evidence) returns (phase: Creation.Phase)
      requires Runs.Unique(View()) && id !in deposits
      modifies `deposits
      ensures View() == Create(old(View()), id, r, e) && phase == Creation.AfterInsert(old(View()), r, id, e)
      ensures phase.Answered? ==> phase.id in deposits && deposits[phase.id].providerId == e.providerId
                                  && deposits[phase.id].tenant == r.tenant && deposits[phase.id].key == r.key
      ensures phase.Answered? && !Creation.Mine(deposits[phase.id], r) ==> phase.id in old(deposits)
    {
      var deposit := Fresh(r, e);
      if e.providerId == "" || Assess(deposit, e) != Normal {
        return Creation.Refused;
      }
      var winner := FindByKey(r.tenant, r.key);
      var taken := exists x | x in deposits :: deposits[x].tenant == r.tenant && deposits[x].provider == r.provider
                                               && deposits[x].providerId == e.providerId;
      if winner.None? && !taken {
        deposits := deposits[id := deposit];
        return Creation.Answered(r, id);
      }
      if winner.None? {
        return Creation.Refused;
      }
      Creation.HolderIsOnly(View(), r, winner.value);
      phase := if deposits[winner.value].providerId != e.providerId then Creation.Refused
        else Creation.Answered(r, winner.value);
    }

    /** Writes the amounts and then the status, stopping at the first rejected amount. */
    method WriteAmounts(id: nat, e: Evidence) returns (ending: Ending)
      requires id in deposits
      modifies `deposits
      ensures var d := old(deposits[id]);
              ending == Write(d, e, d.asset, d.network).ending
              && deposits == old(deposits)[id := Write(d, e, d.asset, d.network).deposit]
    {
      var d := deposits[id];
      deposits := deposits[id := d];
      if e.received.Some? {
        if e.received.value < 0 {
          return Recorded;
        }
        if d.received.Some? && e.received.value < d.received.value {
          return Recorded;
        }
        d := d.(received := e.received);
        deposits := deposits[id := d];
      }
      if e.fee.Some? {
        if e.fee.value < 0 {
          return Recorded;
        }
        d := d.(fee := e.fee);
        deposits := deposits[id := d];
      }
      deposits := deposits[id := d.(status := e.status, failed := false)];
      ending := Normal;
    }

    method WriteNames(id: nat, e: Evidence)
      requires id in deposits
      modifies `deposits
      ensures var d := old(deposits[id]);
              deposits == old(deposits)[id := d.(asset := AssetIn(d, e), network := NetworkIn(d, e))]
    {
      var d := deposits[id];
      deposits := deposits[id := d];
      if Given(e.asset).Some? {
        d := d.(asset := NormalAsset(Given(e.asset).value));
        deposits := deposits[id := d];
      }
      if Given(e.network).Some? {
        d := d.(network := NormalNetwork(Given(e.network).value));
        deposits := deposits[id := d];
      }
    }

    /** Writes an observation field by field, stopping at the first rejected one. */
    method ApplyProviderResult(id: nat, e: Evidence) returns (ending: Ending)
      requires id in deposits
      modifies `deposits
      ensures ending == Observe(old(deposits[id]), e).ending
      ensures View() == WithDeposit(old(View()), id, Observe(old(deposits[id]), e).deposit)
      ensures ending == Normal <==> Outcomes.Accepts(old(deposits[id]), e)
      ensures ending == Normal ==> deposits[id] == Outcomes.Informed(old(deposits[id]), e)
    {
      Outcomes.ObservedExactly(deposits[id], e);
      var d := deposits[id];
      assert deposits == deposits[id := d];
      if e.providerId != d.providerId {
        return Recorded;
      }
      ending := Assess(d, e);
      if ending != Normal {
        return;
      }
      WriteNames(id, e);
      RewriteSame(d, e, AssetIn(d, e), NetworkIn(d, e));
      ending := WriteAmounts(id, e);
    }

    /** Credits an asset wallet under the deposit's key, creating the wallet if need be. */
    method CreditAssetWallet(key: AssetKey, amount: int, id: nat) returns (ending: Ending)
      modifies `assetWallets, `assetRows
      ensures ending == CreditAsset(WithAssetWallet(old(View()), key), key, amount, id).ending
      ensures View() == CreditAsset(WithAssetWallet(old(View()), key), key, amount, id).book
      ensures CreditMoves(old(View()), View(), key, amount, id, ending)
    {
      CreditAssetMoves(View(), key, amount, id);
      if key !in assetWallets {
        assetWallets := assetWallets[key := Wallet(0, true)];
      }
      var existing := AssetFor(assetRows, id);
      if existing != [] {
        return if existing[0].wallet == key && existing[0].amount == amount then Normal else Recorded;
      }
      var before := assetWallets[key].balance;
      assetWallets := assetWallets[key := assetWallets[key].(balance := before + amount)];
      assetRows := assetRows + [AssetRow(key, amount, before, before + amount, id)];
      ending := Normal;
    }

    /** Credits a settlement wallet for the deposit, creating the wallet if need be. */
    method SettleFlexibleDeposit(key: FiatKey, cents: int, id: nat) returns (ending: Ending)
      modifies `wallets, `rows
      ensures ending == SettleFiat(WithWallet(old(View()), key), key, cents, id).ending
      ensures View() == SettleFiat(WithWallet(old(View()), key), key, cents, id).book
      ensures old(FiatFor(rows, id)) == [] && cents > 0 ==>
                && ending == Normal && BalanceOf(wallets, key) == BalanceOf(old(wallets), key) + cents
                && FiatFor(rows, id) == [FiatRow(key, cents, BalanceOf(old(wallets), key), BalanceOf(wallets, key),
                                                 Settlement(id))]
      ensures cents <= 0 || old(FiatAt(rows, key, id)) != [] ==>
                rows == old(rows) && BalanceOf(wallets, key) == BalanceOf(old(wallets), key)
      ensures wallets - {key} == old(wallets) - {key} && old(rows) <= rows
    {
      WithoutKey(wallets, key, Wallet(0, true));
      if key !in wallets {
        wallets := wallets[key := Wallet(0, true)];
      }
      if cents <= 0 {
        return RolledBack;
      }
      var existing := FiatAt(rows, key, id);
      if FiatFor(rows, id) == [] {
        Runs.FiatAtWithin(rows, key, id);
      }
      if existing != [] {
        return if existing[0].amount == cents then Normal else Recorded;
      }
      var before := wallets[key].balance;
      WithoutKey(wallets, key, wallets[key].(balance := before + cents));
      wallets := wallets[key := wallets[key].(balance := before + cents)];
      Runs.FiatForAppend(rows, FiatRow(key, cents, before, before + cents, Settlement(id)), id);
      rows := rows + [FiatRow(key, cents, before, before + cents, Settlement(id))];
      ending := Normal;
    }

    method SettleToAsset(id: nat, asset: string, network: string, net: int) returns (ending: Ending)
      requires id in deposits
      modifies this
      ensures ending == SettleIntoAsset(old(View()), id, asset, network, net).ending
      ensures View() == SettleIntoAsset(old(View()), id, asset, network, net).book
    {
      var d := deposits[id];
      if NormalAsset(asset).None? || NormalNetwork(network).None? {
        return RolledBack;
      }
      var key := AssetKey(d.tenant, d.user, NormalAsset(asset).value, NormalNetwork(network).value);
      ending := CreditAssetWallet(key, net, id);
      if ending == Normal {
        deposits := deposits[id := d.(status := CREDITED, credited := true, creditedAmount := Option.Some(net),
                                      creditedAsset := d.asset, failed := false)];
      }
    }

    method SettleToWallet(id: nat, asset: string, network: string, net: int) returns (ending: Ending)
      requires id in deposits && net > 0
      modifies this
      ensures ending == SettleIntoWallet(old(View()), id, asset, network, net).ending
      ensures View() == SettleIntoWallet(old(View()), id, asset, network, net).book
    {
      var d := deposits[id];
      if Given(d.terms.currency).None? {
        return Recorded;
      }
      var currency := NormalCurrency(d.terms.currency.value);
      if currency.None? {
        return RolledBack;
      }
      var policy := Resolve(Book(deposits, assetWallets, assetRows, wallets, rows, cases, policies), d, asset, network,
                            currency.value);
      if policy.None? {
        return Recorded;
      }
      var cents := Convert(policy.value, net);
      if !WithinCap(policy.value, cents) {
        deposits := deposits[id := d.(status := SETTLED_REVIEW, failed := true)];
        return Normal;
      }
      ending := SettleFlexibleDeposit(FiatKey(d.tenant, d.user, currency.value), cents, id);
      if ending == Normal {
        deposits := deposits[id := d.(status := CREDITED, credited := true, creditedAmount := Option.Some(Units(cents)),
                                      creditedCurrency := currency, fxPolicy := Option.Some(policy.value.id),
                                      failed := false)];
      }
    }

    /** Settles a deposit according to its snapshot. A deposit that is in no ledger yet ends in one exactly when it
        ends credited, with one row for its credited amount; no other deposit, and no row of one, is touched. */
    method SettleDeposit(id: nat) returns (ending: Ending)
      requires id in deposits
      modifies this
      ensures ending == Settle(old(View()), id).ending && View() == Settle(old(View()), id).book
      ensures old(!deposits[id].credited && Runs.Untouched(View(), id) && Runs.Named(deposits[id])) ==>
                || ending == RolledBack
                || (Runs.Local(old(View()), View(), id) && Runs.Coherent(View(), id)
                    && (ending == Recorded ==> !deposits[id].credited))
      ensures old(!deposits[id].credited && Runs.Untouched(View(), id) && Runs.Named(deposits[id])
                  && deposits[id].status != CREDITED) ==>
                Outcomes.SettledExactly(old(View()), Posted(View(), ending), id)
    {
      if !deposits[id].credited && Runs.Untouched(View(), id) && Runs.Named(deposits[id]) {
        Runs.SettleWell(View(), id);
        if deposits[id].status != CREDITED {
          Outcomes.SettlesExactlyWhen(View(), id);
        }
      }
      var d := deposits[id];
      if d.status == CREDITED {
        return Normal;
      }
      if d.received.None? || d.received.value <= 0 || d.asset.None? || d.network.None? {
        return Recorded;
      }
      if !d.terms.autoCredit {
        deposits := deposits[id := d.(status := SETTLED_REVIEW)];
        return Normal;
      }
      var net := NetAmount(d);
      if net.None? {
        return Recorded;
      }
      if d.terms.target == AssetTarget {
        ending := SettleToAsset(id, d.asset.value, d.network.value, net.value);
      } else {
        ending := SettleToWallet(id, d.asset.value, d.network.value, net.value);
      }
    }

    /** Finds and freezes the wallet that the deposit says was credited. */
    method FreezeCredited(id: nat) returns (wallet: Option<CreditedWallet>)
      requires id in deposits
      modifies `wallets, `assetWallets
      ensures wallet == CreditedTo(old(View()), deposits[id])
      ensures View() == if wallet.Some? then Frozen(old(View()), wallet.value) else old(View())
    {
      var d := deposits[id];
      if d.creditedCurrency.Some? {
        var key := FiatKey(d.tenant, d.user, d.creditedCurrency.value);
        if key !in wallets {
          return Option.None;
        }
        wallets := wallets[key := wallets[key].(active := false)];
        return Option.Some(InFiat(key));
      }
      if d.creditedAsset.None? || d.network.None? {
        return Option.None;
      }
      var key := AssetKey(d.tenant, d.user, d.creditedAsset.value, d.network.value);
      if key !in assetWallets {
        return Option.None;
      }
      assetWallets := assetWallets[key := assetWallets[key].(active := false)];
      return Option.Some(InAssets(key));
    }

    method OpenReversal(id: nat) returns (ending: Ending)
      requires id in deposits
      modifies this
      ensures ending == RecordReversal(old(View()), id).ending && View() == RecordReversal(old(View()), id).book
    {
      var d := deposits[id];
      var wallet := FreezeCredited(id);
      if wallet.None? {
        return Recorded;
      }
      if CasesFor(cases, id) == [] {
        cases := cases + [Case(id, wallet.value)];
      }
      deposits := deposits[id := d.(status := REVERSED, failed := true)];
      ending := Normal;
    }

    /** Freezes the credited wallet and opens the resolution case: for a deposit that its ledger credits, exactly one
        case, about the wallet of its one row, which is frozen. No money moves. */
    method RecordCreditedReversal(id: nat) returns (ending: Ending)
      requires id in deposits
      modifies this
      ensures ending == RecordReversal(old(View()), id).ending && View() == RecordReversal(old(View()), id).book
      ensures rows == old(rows) && assetRows == old(assetRows) && SameMoney(old(View()), View())
      ensures old(deposits[id].credited && !Closed(deposits[id].status) && Runs.Coherent(View(), id)) ==>
                ending == Normal && deposits[id] == old(deposits[id]).(status := REVERSED, failed := true)
                && Reversed(View(), id)
    {
      ReversalKeepsMoney(View(), id);
      ReversalReverses(View(), id);
      ending := OpenReversal(id);
    }

    /** One reconciliation: errors of the provider or the ledger mark the deposit, any other error
        rolls the transaction back and is raised. */
    method ReconcileDeposit(tenant: nat, id: nat, answer: Answer) returns (raised: bool)
      modifies this
      ensures View() == Reconcile(old(View()), tenant, id, answer)
      ensures raised <==> || id !in old(deposits) || old(deposits)[id].tenant != tenant
                          || (!Closed(old(deposits)[id].status)
                              && Answered(old(View()), id, answer).ending == RolledBack)
    {
      if id !in deposits || deposits[id].tenant != tenant {
        return true;
      }
      if Closed(deposits[id].status) || answer.Unavailable? {
        return !Closed(deposits[id].status);
      }
      raised := false;
      var saved := Book(deposits, assetWallets, assetRows, wallets, rows, cases, policies);
      var ending := Recorded;
      if answer.Observed? && answer.evidence.providerId == deposits[id].providerId {
        var e := answer.evidence;
        if deposits[id].credited {
          if e.status == REVERSED {
            ending := RecordCreditedReversal(id);
          } else {
            ending := Assess(deposits[id], e);
            if ending == Normal {
              deposits := deposits[id := deposits[id].(status := CREDITED, failed := false)];
            }
          }
        } else {
          ending := ApplyProviderResult(id, e);
          if ending == Normal && e.status == SETTLED_REVIEW {
            ending := SettleDeposit(id);
          }
        }
      }
      match ending
      case Normal =>
      case Recorded =>
        if id in deposits {
          deposits := deposits[id := deposits[id].(status := UNKNOWN, failed := true)];
        }
      case RolledBack =>
        raised := true;
        deposits, assetWallets, assetRows := saved.deposits, saved.assetWallets, saved.assetRows;
        wallets, rows, cases := saved.wallets, saved.rows, saved.cases;
        policies := saved.policies;
    }

    /** Polls a batch in one transaction: the run of its reconciliations, or nothing at all when
        one of them raises. */
    method ReconcileOpen(batch: seq<(nat, nat)>, answers: seq<Answer>) returns (raised: bool)
      requires |answers| == |batch|
      modifies this
      ensures !raised ==> View() == Run(old(View()), Polls(batch, answers))
      ensures raised ==> View() == old(View())
    {
      raised := false;
      var saved := Book(deposits, assetWallets, assetRows, wallets, rows, cases, policies);
      for i := 0 to |batch|
        invariant !raised && View() == Run(old(View()), Polls(batch, answers)[..i])
      {
        assert Polls(batch, answers)[..i + 1][..i] == Polls(batch, answers)[..i];
        raised := ReconcileDeposit(batch[i].0, batch[i].1, answers[i]);
        if raised {
          deposits, assetWallets, assetRows := saved.deposits, saved.assetWallets, saved.assetRows;
          wallets, rows, cases := saved.wallets, saved.rows, saved.cases;
          policies := saved.policies;
          return;
        }
      }
      assert Polls(batch, answers)[..|batch|] == Polls(batch, answers);
    }
  }

  function Polls(batch: seq<(nat, nat)>, answers: seq<Answer>): seq<Event>
    requires |answers| == |batch|
  {
    seq(|batch|, i requires 0 <= i < |batch| => Reconciliation(batch[i].0, batch[i].1, answers[i]))
  }
}
