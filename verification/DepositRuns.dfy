/** What every run of creations, reconciliations and unrelated ledger work keeps. */
module DepositRuns {
  import opened Common
  import opened Identifiers
  import opened Deposits

  /* ---------- the invariant ---------- */

  ghost predicate WellNamed(value: Option<string>, limit: nat, allowed: set<string>) {
    value.Some? ==> Identifiers.Normal(value.value, limit) == value && (allowed == {} || value.value in allowed)
  }

  /** An uncredited deposit has left no trace in either ledger. */
  ghost predicate Untouched(book: Book, id: nat)
    requires id in book.deposits
  {
    var d := book.deposits[id];
    && AssetFor(book.assetRows, id) == [] && FiatFor(book.rows, id) == [] && CasesFor(book.cases, id) == []
    && d.creditedAmount.None? && d.creditedAsset.None? && d.creditedCurrency.None?
  }

  /** A credited deposit has exactly one credit, in exactly one ledger, for its credited amount,
      in the wallet that its own fields name. */
  ghost predicate CreditedOnce(book: Book, id: nat)
    requires id in book.deposits
  {
    var d := book.deposits[id];
    && d.creditedAmount.Some? && d.status in {CREDITED, UNKNOWN, REVERSED}
    && if d.creditedCurrency.Some? then
         var key := FiatKey(d.tenant, d.user, d.creditedCurrency.value);
         && AssetFor(book.assetRows, id) == []
         && |FiatFor(book.rows, id)| == 1 && FiatFor(book.rows, id)[0].wallet == key
         && Units(FiatFor(book.rows, id)[0].amount) == d.creditedAmount.value
         && key in book.wallets
       else
         && d.creditedAsset.Some? && d.creditedAsset == d.asset && d.network.Some?
         && var key := AssetKey(d.tenant, d.user, d.creditedAsset.value, d.network.value);
            && FiatFor(book.rows, id) == []
            && |AssetFor(book.assetRows, id)| == 1 && AssetFor(book.assetRows, id)[0].wallet == key
            && AssetFor(book.assetRows, id)[0].amount == d.creditedAmount.value
            && key in book.assetWallets
  }

  /** A credited deposit has a resolution case, for the wallet credited, exactly once reversed. */
  ghost predicate CaseOnReversal(book: Book, id: nat)
    requires id in book.deposits
  {
    var d := book.deposits[id];
    if d.status == REVERSED
    then |CasesFor(book.cases, id)| == 1 && CreditedTo(book, d) == Option.Some(CasesFor(book.cases, id)[0].wallet)
    else CasesFor(book.cases, id) == []
  }

  /** Names are canonical and inside the snapshot's allow-lists. */
  ghost predicate Named(d: Deposit) {
    WellNamed(d.asset, 24, d.terms.allowedAssets) && WellNamed(d.network, 64, d.terms.allowedNetworks)
  }

  /** The ledgers and the deposit tell the same story. */
  ghost predicate Coherent(book: Book, id: nat)
    requires id in book.deposits
  {
    if book.deposits[id].credited then CreditedOnce(book, id) && CaseOnReversal(book, id) else Untouched(book, id)
  }

  /** Every ledger row and case that names a deposit names an existing one. */
  ghost predicate Owned(book: Book) {
    && (forall i | 0 <= i < |book.assetRows| :: book.assetRows[i].deposit in book.deposits)
    && (forall i | 0 <= i < |book.rows| ::
          book.rows[i].reference.Settlement? ==> book.rows[i].reference.deposit in book.deposits)
    && (forall i | 0 <= i < |book.cases| :: book.cases[i].deposit in book.deposits)
  }

  /** The two unique constraints on deposits. */
  ghost predicate Unique(book: Book) {
    forall a, b | a in book.deposits && b in book.deposits && book.deposits[a].tenant == book.deposits[b].tenant
    && a != b ::
      && book.deposits[a].key != book.deposits[b].key
      && (book.deposits[a].provider != book.deposits[b].provider
          || book.deposits[a].providerId != book.deposits[b].providerId)
  }

  ghost predicate Inv(book: Book) {
    && (forall id | id in book.deposits :: Coherent(book, id))
    && (forall id | id in book.deposits :: Named(book.deposits[id]))
    && Owned(book) && Unique(book)
  }

  /* ---------- how one deposit may change ---------- */

  /** Later states of a deposit: its identity is fixed, evidence only grows, credit freezes it,
      and a closed deposit never changes again. */
  ghost predicate Evolves(d: Deposit, d': Deposit) {
    && d'.tenant == d.tenant && d'.user == d.user && d'.provider == d.provider && d'.providerId == d.providerId
    && d'.key == d.key && d'.terms == d.terms && d'.paymentMethod == d.paymentMethod
    && (d.asset.Some? ==> d'.asset == d.asset) && (d.network.Some? ==> d'.network == d.network)
    && (d.received.Some? ==> d'.received.Some? && d'.received.value >= d.received.value)
    && (d.credited ==> && d'.credited && d'.asset == d.asset && d'.network == d.network && d'.received == d.received
                       && d'.fee == d.fee && d'.creditedAmount == d.creditedAmount
                          && d'.creditedAsset == d.creditedAsset
                       && d'.creditedCurrency == d.creditedCurrency)
    && (Closed(d.status) ==> d' == d)
  }

  ghost predicate AllEvolve(book: Book, book': Book) {
    forall id | id in book.deposits :: id in book'.deposits && Evolves(book.deposits[id], book'.deposits[id])
  }

  lemma EvolvesTransitive(a: Deposit, b: Deposit, c: Deposit)
    requires Evolves(a, b) && Evolves(b, c)
    ensures Evolves(a, c)
  {
  }

  /* ---------- one deposit's step ---------- */

  /** What a step on deposit `id` may do to the rest of the book: deposits other than `id` and
      the rows that name them stay, wallets are never dropped. */
  ghost predicate Local(book: Book, book': Book, id: nat) {
    && book'.deposits.Keys == book.deposits.Keys
    && (forall x | x in book.deposits && x != id :: book'.deposits[x] == book.deposits[x])
    && book.assetWallets.Keys <= book'.assetWallets.Keys && book.wallets.Keys <= book'.wallets.Keys
    && (Grown(book.assetRows, book'.assetRows) ==> book'.assetRows[|book.assetRows|].deposit == id)
    && (Grown(book.rows, book'.rows) ==> book'.rows[|book.rows|].reference == Settlement(id))
    && (Grown(book.cases, book'.cases) ==> book'.cases[|book.cases|].deposit == id)
    && (book'.assetRows == book.assetRows || Grown(book.assetRows, book'.assetRows))
    && (book'.rows == book.rows || Grown(book.rows, book'.rows))
    && (book'.cases == book.cases || Grown(book.cases, book'.cases))
  }

  ghost predicate Grown<T>(xs: seq<T>, xs': seq<T>) {
    |xs'| == |xs| + 1 && xs'[..|xs|] == xs
  }

  lemma AssetForAppend(rows: seq<AssetRow>, r: AssetRow, id: nat)
    ensures AssetFor(rows + [r], id) == AssetFor(rows, id) + (if r.deposit == id then [r] else [])
  {
  }

  lemma FiatForAppend(rows: seq<FiatRow>, r: FiatRow, id: nat)
    ensures FiatFor(rows + [r], id) == FiatFor(rows, id) + (if r.reference == Settlement(id) then [r] else [])
  {
  }

  lemma {:induction false} FiatAtWithin(rows: seq<FiatRow>, key: FiatKey, id: nat)
    requires FiatFor(rows, id) == []
    ensures FiatAt(rows, key, id) == []
  {
    if rows != [] {
      FiatAtWithin(rows[..|rows| - 1], key, id);
    }
  }

  lemma OthersStay(book: Book, book': Book, id: nat, x: nat)
    requires Local(book, book', id) && x in book.deposits && x != id && Coherent(book, x)
    ensures Coherent(book', x)
  {
  }

  /** A step that is local to `id` and right for `id` is right. */
  lemma LocalStep(book: Book, book': Book, id: nat)
    requires Inv(book) && id in book.deposits && Local(book, book', id)
    requires Coherent(book', id) && Named(book'.deposits[id]) && Evolves(book.deposits[id], book'.deposits[id])
    ensures Inv(book') && AllEvolve(book, book')
  {
    LocalOwned(book, book', id);
    LocalUnique(book, book', id);
    LocalCoherent(book, book', id);
    LocalNamed(book, book', id);
  }

  lemma LocalCoherent(book: Book, book': Book, id: nat)
    requires forall x | x in book.deposits :: Coherent(book, x)
    requires id in book.deposits && Local(book, book', id) && Coherent(book', id)
    ensures forall x | x in book'.deposits :: Coherent(book', x)
  {
    forall x | x in book'.deposits
      ensures Coherent(book', x)
    {
      if x != id {
        OthersStay(book, book', id, x);
      }
    }
  }

  lemma LocalNamed(book: Book, book': Book, id: nat)
    requires forall x | x in book.deposits :: Named(book.deposits[x])
    requires id in book.deposits && Local(book, book', id) && Named(book'.deposits[id])
    requires Evolves(book.deposits[id], book'.deposits[id])
    ensures forall x | x in book'.deposits :: Named(book'.deposits[x])
    ensures AllEvolve(book, book')
  {
  }

  lemma LocalOwned(book: Book, book': Book, id: nat)
    requires Owned(book) && id in book.deposits && Local(book, book', id)
    ensures Owned(book')
  {
  }

  lemma LocalUnique(book: Book, book': Book, id: nat)
    requires Unique(book) && id in book.deposits && Local(book, book', id)
    requires Evolves(book.deposits[id], book'.deposits[id])
    ensures Unique(book')
  {
  }

  /* ---------- evidence ---------- */

  lemma WriteShape(d: Deposit, e: Evidence, asset: Option<string>, network: Option<string>)
    ensures var d' := Write(d, e, asset, network).deposit;
            && d' == d.(asset := asset, network := network, received := d'.received, fee := d'.fee,
                        status := d'.status, failed := d'.failed)
            && (d.received.Some? ==> d'.received.Some? && d'.received.value >= d.received.value)
            && (Write(d, e, asset, network).ending == Normal ==> d'.status == e.status)
            && (Write(d, e, asset, network).ending != Normal ==> d'.status == d.status)
  {
  }

  /** What an observation may write. */
  lemma ObserveShape(d: Deposit, e: Evidence)
    ensures var d' := Observe(d, e).deposit;
            && d' == d.(asset := d'.asset, network := d'.network, received := d'.received, fee := d'.fee,
                        status := d'.status, failed := d'.failed)
            && ((d'.asset == d.asset && d'.network == d.network)
                || (Assess(d, e) == Normal && d'.asset == AssetIn(d, e) && d'.network == NetworkIn(d, e)))
            && (d.received.Some? ==> d'.received.Some? && d'.received.value >= d.received.value)
            && (Observe(d, e).ending == Normal ==> d'.status == e.status)
            && (Observe(d, e).ending != Normal ==> d'.status == d.status)
  {
    WriteShape(d, e, AssetIn(d, e), NetworkIn(d, e));
  }

  /** An observation, accepted or rejected halfway, keeps the names canonical and inside the
      policy, never lowers the received amount and never changes a known asset or network. */
  lemma ObserveKeeps(d: Deposit, e: Evidence)
    requires Named(d)
    requires !d.credited && !Closed(d.status)
    ensures var d' := Observe(d, e).deposit;
            && Named(d') && Evolves(d, d') && !d'.credited && d'.creditedAmount == d.creditedAmount
            && d'.creditedAsset == d.creditedAsset && d'.creditedCurrency == d.creditedCurrency
  {
    ObserveShape(d, e);
    if Assess(d, e) == Normal {
      NamesStay(d, e);
    }
  }

  lemma NamesStay(d: Deposit, e: Evidence)
    requires Assess(d, e) == Normal
    requires Named(d)
    ensures WellNamed(AssetIn(d, e), 24, d.terms.allowedAssets)
            && WellNamed(NetworkIn(d, e), 64, d.terms.allowedNetworks)
    ensures d.asset.Some? ==> AssetIn(d, e) == d.asset
    ensures d.network.Some? ==> NetworkIn(d, e) == d.network
  {
    if Given(e.asset).Some? {
      NormalIsFixed(Given(e.asset).value, 24);
    }
    if Given(e.network).Some? {
      NormalIsFixed(Given(e.network).value, 64);
    }
  }

  /* ---------- settlement ---------- */

  /** `d'` differs from `d` only in its status and its credit. */
  ghost predicate SameEvidence(d: Deposit, d': Deposit) {
    d' == d.(status := d'.status, credited := d'.credited, creditedAmount := d'.creditedAmount,
             creditedAsset := d'.creditedAsset, creditedCurrency := d'.creditedCurrency, fxPolicy := d'.fxPolicy,
             failed := d'.failed)
  }

  ghost predicate SettledWell(book: Book, posted: Posted, id: nat)
    requires id in book.deposits
  {
    posted.ending == RolledBack
    || (&& Local(book, posted.book, id)
        && Coherent(posted.book, id)
        && SameEvidence(book.deposits[id], posted.book.deposits[id])
        && (posted.ending != Normal ==> posted.book.deposits[id] == book.deposits[id]))
  }

  /** What a first asset credit leaves. */
  lemma PostAssetFacts(book: Book, id: nat, key: AssetKey, net: int)
    requires id in book.deposits && AssetFor(book.assetRows, id) == []
    ensures var posted := PostAsset(book, id, key, net);
            var d := book.deposits[id];
            && posted.ending == Normal
            && Grown(book.assetRows, posted.book.assetRows)
            && posted.book.assetRows[|book.assetRows|].wallet == key
               && posted.book.assetRows[|book.assetRows|].amount == net
            && posted.book.assetRows[|book.assetRows|].deposit == id
            && posted.book.rows == book.rows && posted.book.cases == book.cases && posted.book.wallets == book.wallets
            && posted.book.assetWallets.Keys == book.assetWallets.Keys + {key}
            && posted.book.deposits
               == book.deposits[id := d.(status := CREDITED, credited := true, creditedAmount := Option.Some(net),
                                         creditedAsset := d.asset, failed := false)]
  {
  }

  lemma PostAssetWell(book: Book, id: nat, key: AssetKey, net: int)
    requires id in book.deposits && !book.deposits[id].credited && Untouched(book, id)
    requires var d := book.deposits[id];
             d.asset.Some? && d.network.Some? && key == AssetKey(d.tenant, d.user, d.asset.value, d.network.value)
    ensures SettledWell(book, PostAsset(book, id, key, net), id)
  {
    PostAssetFacts(book, id, key, net);
    var rows := PostAsset(book, id, key, net).book.assetRows;
    assert rows == book.assetRows + [rows[|book.assetRows|]];
    AssetForAppend(book.assetRows, rows[|book.assetRows|], id);
  }

  /** What a first settlement into a fiat wallet leaves. */
  lemma PostFiatFacts(book: Book, id: nat, key: FiatKey, policy: nat, cents: int)
    requires id in book.deposits && FiatAt(book.rows, key, id) == [] && cents > 0
    ensures var posted := PostFiat(book, id, key, policy, cents);
            var d := book.deposits[id];
            && posted.ending == Normal
            && Grown(book.rows, posted.book.rows)
            && posted.book.rows[|book.rows|].wallet == key && posted.book.rows[|book.rows|].amount == cents
            && posted.book.rows[|book.rows|].reference == Settlement(id)
            && posted.book.assetRows == book.assetRows && posted.book.cases == book.cases
            && posted.book.assetWallets == book.assetWallets && posted.book.wallets.Keys == book.wallets.Keys + {key}
            && posted.book.deposits
               == book.deposits[id := d.(status := CREDITED, credited := true,
                                         creditedAmount := Option.Some(Units(cents)),
                                         creditedCurrency := Option.Some(key.currency), fxPolicy := Option.Some(policy),
                                         failed := false)]
  {
  }

  /** A settlement row with those facts is well settled. */
  lemma FiatRowWell(book: Book, after: Book, id: nat, key: FiatKey, policy: nat, cents: int)
    requires id in book.deposits && !book.deposits[id].credited && Untouched(book, id) && cents > 0
    requires key.tenant == book.deposits[id].tenant && key.user == book.deposits[id].user
    requires Grown(book.rows, after.rows) && after.rows[|book.rows|].wallet == key
             && after.rows[|book.rows|].amount == cents
    requires after.rows[|book.rows|].reference == Settlement(id)
    requires after.assetRows == book.assetRows && after.cases == book.cases
    requires after.assetWallets == book.assetWallets && after.wallets.Keys == book.wallets.Keys + {key}
    requires after.deposits
             == book.deposits[id := book.deposits[id].(status := CREDITED, credited := true,
                                                       creditedAmount := Option.Some(Units(cents)),
                                                       creditedCurrency := Option.Some(key.currency),
                                                       fxPolicy := Option.Some(policy), failed := false)]
    ensures SettledWell(book, Posted(after, Normal), id)
  {
  }

  lemma PostFiatWell(book: Book, id: nat, key: FiatKey, policy: nat, cents: int)
    requires id in book.deposits && !book.deposits[id].credited && Untouched(book, id)
    requires key.tenant == book.deposits[id].tenant && key.user == book.deposits[id].user
    ensures SettledWell(book, PostFiat(book, id, key, policy, cents), id)
  {
    FiatAtWithin(book.rows, key, id);
    if cents > 0 {
      PostFiatFacts(book, id, key, policy, cents);
      FiatRowWell(book, PostFiat(book, id, key, policy, cents).book, id, key, policy, cents);
    }
  }

  /** Rewriting only the status of an uncredited deposit. */
  lemma StatusWell(book: Book, id: nat, status: Status, failed: bool)
    requires id in book.deposits && !book.deposits[id].credited && Untouched(book, id)
    ensures SettledWell(book, Posted(WithDeposit(book, id, book.deposits[id].(status := status, failed := failed)),
                                     Normal), id)
  {
  }

  lemma IntoWalletWell(book: Book, id: nat, asset: string, network: string, net: int)
    requires id in book.deposits && !book.deposits[id].credited && Untouched(book, id) && net > 0
    ensures SettledWell(book, SettleIntoWallet(book, id, asset, network, net), id)
  {
    var d := book.deposits[id];
    var posted := SettleIntoWallet(book, id, asset, network, net);
    if Given(d.terms.currency).Some? && NormalCurrency(d.terms.currency.value).Some? {
      var key := FiatKey(d.tenant, d.user, NormalCurrency(d.terms.currency.value).value);
      var policy := Resolve(book, d, asset, network, key.currency);
      if policy.Some? && WithinCap(policy.value, Convert(policy.value, net)) {
        PostFiatWell(book, id, key, policy.value.id, Convert(policy.value, net));
        assert posted == PostFiat(book, id, key, policy.value.id, Convert(policy.value, net));
      }
    }
  }

  lemma SettleWell(book: Book, id: nat)
    requires id in book.deposits && !book.deposits[id].credited && Untouched(book, id) && Named(book.deposits[id])
    ensures SettledWell(book, Settle(book, id), id)
  {
    var d := book.deposits[id];
    StatusWell(book, id, SETTLED_REVIEW, d.failed);
    if d.status == CREDITED || d.received.None? || d.received.value <= 0 || d.asset.None? || d.network.None?
       || !d.terms.autoCredit || NetAmount(d).None? {
    } else if d.terms.target == AssetTarget {
      var key := AssetKey(d.tenant, d.user, d.asset.value, d.network.value);
      PostAssetWell(book, id, key, NetAmount(d).value);
      assert Settle(book, id) == PostAsset(book, id, key, NetAmount(d).value);
    } else {
      IntoWalletWell(book, id, d.asset.value, d.network.value, NetAmount(d).value);
    }
  }

  /* ---------- reversal ---------- */

  ghost predicate Froze(book: Book, wallet: CreditedWallet) {
    match wallet
    case InFiat(key) => key in book.wallets && !book.wallets[key].active
    case InAssets(key) => key in book.assetWallets && !book.assetWallets[key].active
  }

  /** The wallet on record as credited is the one its single ledger row names. */
  ghost predicate RowIn(book: Book, id: nat, wallet: CreditedWallet) {
    match wallet
    case InFiat(key) => |FiatFor(book.rows, id)| == 1 && FiatFor(book.rows, id)[0].wallet == key
    case InAssets(key) => |AssetFor(book.assetRows, id)| == 1 && AssetFor(book.assetRows, id)[0].wallet == key
  }

  /** A reversal always finds the wallet that was credited, freezes it and leaves one case. */
  lemma ReversalWell(book: Book, id: nat)
    requires id in book.deposits && book.deposits[id].credited && !Closed(book.deposits[id].status)
             && Coherent(book, id)
    ensures var posted := RecordReversal(book, id);
            && posted.ending == Normal && Local(book, posted.book, id) && Coherent(posted.book, id)
            && posted.book.deposits[id] == book.deposits[id].(status := REVERSED, failed := true)
            && |CasesFor(posted.book.cases, id)| == 1
            && RowIn(book, id, CasesFor(posted.book.cases, id)[0].wallet)
            && Froze(posted.book, CasesFor(posted.book.cases, id)[0].wallet)
  {
  }

  /* ---------- reconciliation ---------- */

  ghost predicate Good(book: Book, posted: Posted, id: nat)
    requires id in book.deposits
  {
    posted.ending == RolledBack
    || (&& Local(book, posted.book, id) && Coherent(posted.book, id) && Named(posted.book.deposits[id])
        && Evolves(book.deposits[id], posted.book.deposits[id])
        && (posted.ending == Recorded ==> !Closed(posted.book.deposits[id].status)))
  }

  /** Recording an error on the deposit is as good as the state it was recorded on. */
  lemma MarkedGood(book: Book, posted: Posted, id: nat)
    requires id in book.deposits && !Closed(book.deposits[id].status) && Good(book, posted, id)
             && posted.ending == Recorded
    ensures Good(book, Posted(Conclude(book, posted, id), Normal), id)
  {
  }

  lemma ConcludeKeeps(book: Book, posted: Posted, id: nat)
    requires Inv(book) && id in book.deposits && !Closed(book.deposits[id].status) && Good(book, posted, id)
    ensures Inv(Conclude(book, posted, id)) && AllEvolve(book, Conclude(book, posted, id))
  {
    if posted.ending == Recorded {
      MarkedGood(book, posted, id);
    }
    if posted.ending != RolledBack {
      LocalStep(book, Conclude(book, posted, id), id);
    }
  }

  /** Once credited, an observation changes nothing but the status, and a reversal is recorded. */
  lemma AfterCreditGood(book: Book, id: nat, e: Evidence)
    requires id in book.deposits && book.deposits[id].credited && !Closed(book.deposits[id].status)
    requires Coherent(book, id) && Named(book.deposits[id])
    ensures Good(book, AfterCredit(book, id, e), id)
  {
    UnchangedGood(book, id, Recorded);
    if e.status == REVERSED {
      ReversalWell(book, id);
    } else if Assess(book.deposits[id], e) == Normal {
      RecreditedGood(book, id);
    }
  }

  lemma UnchangedGood(book: Book, id: nat, ending: Ending)
    requires id in book.deposits && !Closed(book.deposits[id].status)
    requires Coherent(book, id) && Named(book.deposits[id])
    ensures Good(book, Posted(book, ending), id)
  {
  }

  lemma RecreditedGood(book: Book, id: nat)
    requires id in book.deposits && book.deposits[id].credited && !Closed(book.deposits[id].status)
    requires Coherent(book, id) && Named(book.deposits[id])
    ensures Good(book, Posted(WithDeposit(book, id, book.deposits[id].(status := CREDITED, failed := false)), Normal),
                 id)
  {
  }

  lemma ObservedUntouched(book: Book, id: nat, d': Deposit)
    requires id in book.deposits && Untouched(book, id)
    requires d'.creditedAmount.None? && d'.creditedAsset.None? && d'.creditedCurrency.None?
    ensures Untouched(WithDeposit(book, id, d'), id) && Local(book, WithDeposit(book, id, d'), id)
  {
  }

  lemma LocalAfterRewrite(book: Book, d: Deposit, book': Book, id: nat)
    requires id in book.deposits && Local(WithDeposit(book, id, d), book', id)
    ensures Local(book, book', id)
  {
  }

  lemma BeforeCreditGood(book: Book, id: nat, e: Evidence)
    requires id in book.deposits && !book.deposits[id].credited && !Closed(book.deposits[id].status)
    requires Untouched(book, id) && Named(book.deposits[id])
    ensures Good(book, BeforeCredit(book, id, e), id)
  {
    var d := book.deposits[id];
    var applied := Observe(d, e);
    var b1 := WithDeposit(book, id, applied.deposit);
    ObserveKeeps(d, e);
    ObserveShape(d, e);
    ObservedUntouched(book, id, applied.deposit);
    if applied.ending == Normal && e.status == SETTLED_REVIEW {
      var posted := Settle(b1, id);
      SettleWell(b1, id);
      if posted.ending != RolledBack {
        LocalAfterRewrite(book, applied.deposit, posted.book, id);
        EvolvesTransitive(d, applied.deposit, posted.book.deposits[id]);
      }
    }
  }

  lemma AnsweredGood(book: Book, id: nat, answer: Answer)
    requires id in book.deposits && !Closed(book.deposits[id].status)
    requires Coherent(book, id) && Named(book.deposits[id])
    ensures Good(book, Answered(book, id, answer), id)
  {
    UnchangedGood(book, id, Recorded);
    if answer.Observed? && answer.evidence.providerId == book.deposits[id].providerId {
      if book.deposits[id].credited {
        AfterCreditGood(book, id, answer.evidence);
      } else {
        BeforeCreditGood(book, id, answer.evidence);
      }
    }
  }

  lemma ReconcileKeeps(book: Book, tenant: nat, id: nat, answer: Answer)
    requires Inv(book)
    ensures Inv(Reconcile(book, tenant, id, answer)) && AllEvolve(book, Reconcile(book, tenant, id, answer))
  {
    if id in book.deposits && book.deposits[id].tenant == tenant && !Closed(book.deposits[id].status) {
      AnsweredGood(book, id, answer);
      ConcludeKeeps(book, Answered(book, id, answer), id);
    }
  }

  /* ---------- creation and the environment ---------- */

  lemma {:induction false} NoRowsFor(book: Book, n: nat, id: nat)
    requires Owned(book) && id !in book.deposits && n <= |book.assetRows|
    ensures AssetFor(book.assetRows[..n], id) == []
  {
    if n > 0 {
      assert book.assetRows[..n][..n - 1] == book.assetRows[..n - 1];
      NoRowsFor(book, n - 1, id);
    }
  }

  lemma {:induction false} NoFiatFor(book: Book, n: nat, id: nat)
    requires Owned(book) && id !in book.deposits && n <= |book.rows|
    ensures FiatFor(book.rows[..n], id) == []
  {
    if n > 0 {
      assert book.rows[..n][..n - 1] == book.rows[..n - 1];
      NoFiatFor(book, n - 1, id);
    }
  }

  lemma {:induction false} NoCasesFor(book: Book, n: nat, id: nat)
    requires Owned(book) && id !in book.deposits && n <= |book.cases|
    ensures CasesFor(book.cases[..n], id) == []
  {
    if n > 0 {
      assert book.cases[..n][..n - 1] == book.cases[..n - 1];
      NoCasesFor(book, n - 1, id);
    }
  }

  lemma FreshNamed(r: Request, e: Evidence)
    requires Assess(Fresh(r, e), e) == Normal
    ensures Named(Fresh(r, e))
  {
    if Given(e.asset).Some? {
      NormalIsFixed(Given(e.asset).value, 24);
    }
    if Given(e.network).Some? {
      NormalIsFixed(Given(e.network).value, 64);
    }
  }

  lemma FreshCoherent(book: Book, id: nat, d: Deposit, x: nat)
    requires Owned(book) && id !in book.deposits && !d.credited
    requires d.creditedAmount.None? && d.creditedAsset.None? && d.creditedCurrency.None?
    requires x == id || (x in book.deposits && Coherent(book, x))
    ensures Coherent(WithDeposit(book, id, d), x)
  {
    NoRowsFor(book, |book.assetRows|, id);
    NoFiatFor(book, |book.rows|, id);
    NoCasesFor(book, |book.cases|, id);
    assert book.assetRows[..|book.assetRows|] == book.assetRows && book.rows[..|book.rows|] == book.rows
           && book.cases[..|book.cases|] == book.cases;
  }

  lemma FreshUnique(book: Book, id: nat, d: Deposit)
    requires Unique(book) && id !in book.deposits
    requires !KeyTaken(book, d.tenant, d.key) && !InvoiceTaken(book, d.tenant, d.provider, d.providerId)
    ensures Unique(WithDeposit(book, id, d))
  {
  }

  lemma CreateKeeps(book: Book, id: nat, r: Request, e: Evidence)
    requires Inv(book)
    ensures Inv(Create(book, id, r, e)) && AllEvolve(book, Create(book, id, r, e))
  {
    if Create(book, id, r, e) != book {
      FreshNamed(r, e);
      FreshKeeps(book, id, Fresh(r, e));
    }
  }

  lemma FreshKeeps(book: Book, id: nat, d: Deposit)
    requires Inv(book) && id !in book.deposits && !d.credited && Named(d)
    requires d.creditedAmount.None? && d.creditedAsset.None? && d.creditedCurrency.None?
    requires !KeyTaken(book, d.tenant, d.key) && !InvoiceTaken(book, d.tenant, d.provider, d.providerId)
    ensures Inv(WithDeposit(book, id, d)) && AllEvolve(book, WithDeposit(book, id, d))
  {
    FreshUnique(book, id, d);
    forall x | x in WithDeposit(book, id, d).deposits
      ensures Coherent(WithDeposit(book, id, d), x)
    {
      FreshCoherent(book, id, d, x);
    }
  }

  lemma EntryCoherent(book: Book, event: Event, x: nat)
    requires event.Entry? && x in book.deposits && Coherent(book, x)
    ensures Coherent(Next(book, event), x)
  {
    var book' := Next(book, event);
    var row := book'.rows[|book.rows|];
    assert book'.rows == book.rows + [row];
    FiatForAppend(book.rows, row, x);
  }

  lemma EntryKeeps(book: Book, event: Event)
    requires Inv(book) && event.Entry?
    ensures Inv(Next(book, event)) && AllEvolve(book, Next(book, event))
  {
    var book' := Next(book, event);
    assert book'.deposits == book.deposits && book'.assetRows == book.assetRows && book'.cases == book.cases;
    assert Unique(book');
    assert Owned(book');
    forall x | x in book'.deposits
      ensures Coherent(book', x)
    {
      EntryCoherent(book, event, x);
    }
  }

  lemma NextKeeps(book: Book, event: Event)
    requires Inv(book)
    ensures Inv(Next(book, event)) && AllEvolve(book, Next(book, event))
  {
    match event
    case Creation(id, r, e) => CreateKeeps(book, id, r, e);
    case Reconciliation(tenant, id, answer) => ReconcileKeeps(book, tenant, id, answer);
    case Entry(_, _) => EntryKeeps(book, event);
    case _ => OtherKeeps(book, event);
  }

  /** Wallets and policies come and go without touching deposits or ledgers. */
  lemma OtherKeeps(book: Book, event: Event)
    requires Inv(book) && !event.Creation? && !event.Reconciliation? && !event.Entry?
    ensures Inv(Next(book, event)) && AllEvolve(book, Next(book, event))
  {
    forall x | x in book.deposits
      ensures Coherent(Next(book, event), x)
    {
      assert Coherent(book, x);
    }
  }

  /** Over every run from an empty book the credits and the deposits agree. */
  lemma {:induction false} RunKeeps(events: seq<Event>)
    ensures Inv(Run(EMPTY, events))
  {
    if events != [] {
      RunKeeps(events[..|events| - 1]);
      NextKeeps(Run(EMPTY, events[..|events| - 1]), events[|events| - 1]);
    }
  }

  /** Between any two points of a run every deposit has only evolved. */
  lemma {:induction false} RunEvolves(book: Book, events: seq<Event>)
    requires Inv(book)
    ensures Inv(Run(book, events)) && AllEvolve(book, Run(book, events))
  {
    if events != [] {
      var mid := Run(book, events[..|events| - 1]);
      RunEvolves(book, events[..|events| - 1]);
      NextKeeps(mid, events[|events| - 1]);
      forall id | id in book.deposits
        ensures Evolves(book.deposits[id], Run(book, events).deposits[id])
      {
        EvolvesTransitive(book.deposits[id], mid.deposits[id], Run(book, events).deposits[id]);
      }
    }
  }
}
