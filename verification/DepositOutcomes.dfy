/** What one provider answer does to a deposit, case by case and field by field. */
module DepositOutcomes {
  import opened Common
  import opened Identifiers
  import opened Deposits
  import opened DepositRuns
  import opened DepositCredits

  /* ---------- which policy converts a deposit ---------- */

  /** An enabled policy of the deposit's tenant for this asset, network and currency. */
  predicate Serves(p: FxPolicy, d: Deposit, asset: string, network: string, currency: string) {
    && p.enabled && p.tenant == d.tenant && p.asset == asset && p.currency == currency
    && (p.network == network || p.network == "ANY")
  }

  /** Ids are primary keys. */
  ghost predicate IdsApart(policies: seq<FxPolicy>) {
    forall p, q | p in policies && q in policies && p.id == q.id :: p == q
  }

  /** The policy named by the snapshot is the one used, if it serves the deposit. Without a name, a policy is found
      exactly when one serves the deposit, and one for every network is used only where the network has none. */
  lemma ResolveFinds(book: Book, d: Deposit, asset: string, network: string, currency: string)
    requires IdsApart(book.policies)
    ensures var r := Resolve(book, d, asset, network, currency);
            && (r.Some? ==> r.value in book.policies && Serves(r.value, d, asset, network, currency))
            && (d.fxPolicy.Some? ==>
                  forall p | p in book.policies && p.id == d.fxPolicy.value ::
                    r == if Serves(p, d, asset, network, currency) then Option.Some(p) else Option.None)
            && (d.fxPolicy.Some? && r.Some? ==> r.value.id == d.fxPolicy.value)
            && (d.fxPolicy.None? ==>
                  (r.Some? <==> exists p | p in book.policies :: Serves(p, d, asset, network, currency)))
            && (d.fxPolicy.None? && r.Some? && r.value.network != network ==>
                  forall p | p in book.policies && Serves(p, d, asset, network, currency) :: p.network == "ANY")
  {
  }

  /* ---------- what an observation writes ---------- */

  /** A name is absent, or is canonical, allowed and the one already known. */
  predicate NameFits(field: Option<string>, limit: nat, allowed: set<string>, known: Option<string>) {
    field.None? || field.value == ""
    || (var name := Identifiers.Normal(field.value, limit);
        name.Some? && (allowed == {} || name.value in allowed) && (known.None? || known == name))
  }

  predicate NamesFit(d: Deposit, e: Evidence) {
    NameFits(e.asset, 24, d.terms.allowedAssets, d.asset)
    && NameFits(e.network, 64, d.terms.allowedNetworks, d.network)
  }

  /** A name that cannot be brought into canonical form at all. */
  predicate Malformed(field: Option<string>, limit: nat) {
    field.Some? && field.value != "" && Identifiers.Normal(field.value, limit).None?
  }

  predicate UsableNames(e: Evidence) {
    !Malformed(e.asset, 24) && !Malformed(e.network, 64)
  }

  predicate ReceivedFits(d: Deposit, e: Evidence) {
    e.received.Some? ==> e.received.value >= 0 && (d.received.None? || e.received.value >= d.received.value)
  }

  predicate FeeFits(e: Evidence) { e.fee.Some? ==> e.fee.value >= 0 }

  /** The evidence is about this invoice, inside the policy, and takes back nothing. */
  predicate Accepts(d: Deposit, e: Evidence) {
    e.providerId == d.providerId && NamesFit(d, e) && ReceivedFits(d, e) && FeeFits(e)
  }

  function Latest<T>(news: Option<T>, known: Option<T>): Option<T> {
    if news.Some? then news else known
  }

  function LatestName(field: Option<string>, limit: nat, known: Option<string>): Option<string> {
    if field.None? || field.value == "" then known else Identifiers.Normal(field.value, limit)
  }

  /** The deposit with everything that an accepted observation says. */
  function Informed(d: Deposit, e: Evidence): Deposit {
    d.(asset := LatestName(e.asset, 24, d.asset), network := LatestName(e.network, 64, d.network),
       received := Latest(e.received, d.received), fee := Latest(e.fee, d.fee), status := e.status, failed := false)
  }

  lemma AssessExactlyWhen(d: Deposit, e: Evidence)
    ensures Assess(d, e) == Normal <==> NamesFit(d, e)
    ensures Assess(d, e) == RolledBack <==> !UsableNames(e)
  {
  }

  /** An observation is accepted exactly when the invoice, the names and the amounts fit, and then all of it is on
      record and nothing else changes. A rejected amount leaves the fields before it written; a rejected name leaves
      none. */
  lemma ObservedExactly(d: Deposit, e: Evidence)
    ensures var o := Observe(d, e);
            && (o.ending == Normal <==> Accepts(d, e))
            && (o.ending == RolledBack <==> e.providerId == d.providerId && !UsableNames(e))
            && (o.ending == Normal ==> o.deposit == Informed(d, e))
            && (e.providerId != d.providerId || !NamesFit(d, e) ==> o.deposit == d)
            && (o.ending == Recorded && e.providerId == d.providerId && NamesFit(d, e) ==>
                  o.deposit == Informed(d, e).(received := if ReceivedFits(d, e) then Latest(e.received, d.received)
                                                           else d.received,
                                               fee := d.fee, status := d.status, failed := d.failed))
  {
    AssessExactlyWhen(d, e);
  }

  /* ---------- when a settlement credits ---------- */

  /** Everything that a settlement needs except a wallet. */
  predicate Due(d: Deposit) {
    && d.terms.autoCredit && d.received.Some? && d.received.value > 0 && d.asset.Some? && d.network.Some?
    && Left(d) > 0
  }

  /** The settlement currency, if the terms name a well-formed one. */
  function CurrencyOf(d: Deposit): Option<string> {
    if d.terms.currency.None? || d.terms.currency.value == "" then Option.None
    else NormalCurrency(d.terms.currency.value)
  }

  function PolicyFor(book: Book, d: Deposit): Option<FxPolicy>
    requires d.asset.Some? && d.network.Some?
  {
    if CurrencyOf(d).None? then Option.None
    else Resolve(book, d, d.asset.value, d.network.value, CurrencyOf(d).value)
  }

  /** A policy is found that gives at least half a cent, and after rounding not more than its cap. */
  predicate Convertible(book: Book, d: Deposit)
    requires Due(d)
  {
    var policy := PolicyFor(book, d);
    && policy.Some? && 2 * (Left(d) * policy.value.rate) >= CENT_PRODUCT
    && (policy.value.cap.Some? ==> Convert(policy.value, Left(d)) * 10_000 <= policy.value.cap.value)
  }

  /** A settlement credits exactly when the credit is automatic, the evidence complete and something is left, and in a
      currency also only when a policy converts it into at least a cent within its cap. */
  predicate Creditable(book: Book, d: Deposit) {
    Due(d) && (d.terms.target == AssetTarget || Convertible(book, d))
  }

  /** A settlement raises an error that rolls its transaction back: the settlement currency is unusable, or the amount
      is worth less than half a cent. */
  predicate Unpayable(book: Book, d: Deposit) {
    && Due(d) && d.terms.target == SettlementTarget && d.terms.currency.Some? && d.terms.currency.value != ""
    && (CurrencyOf(d).None?
        || var policy := PolicyFor(book, d);
           && policy.Some? && 2 * (Left(d) * policy.value.rate) < CENT_PRODUCT
           && (policy.value.cap.Some? ==> policy.value.cap.value >= 0))
  }

  lemma CentsPositive(policy: FxPolicy, amount: int)
    requires amount > 0
    ensures Convert(policy, amount) > 0 <==> 2 * (amount * policy.rate) >= CENT_PRODUCT
  {
  }

  lemma WalletCreditsExactlyWhen(book: Book, id: nat)
    requires id in book.deposits && !book.deposits[id].credited && Untouched(book, id) && Due(book.deposits[id])
    ensures var d := book.deposits[id];
            var posted := SettleIntoWallet(book, id, d.asset.value, d.network.value, Left(d));
            && id in posted.book.deposits
            && (posted.book.deposits[id].credited <==> Convertible(book, d))
            && (posted.book.deposits[id].credited ==> posted.ending == Normal)
            && (d.terms.target == SettlementTarget ==> (posted.ending == RolledBack <==> Unpayable(book, d)))
            && (posted.ending == Normal && !posted.book.deposits[id].credited ==>
                  posted.book == WithDeposit(book, id, d.(status := SETTLED_REVIEW, failed := true)))
  {
    var d := book.deposits[id];
    if CurrencyOf(d).Some? && PolicyFor(book, d).Some? {
      var key := FiatKey(d.tenant, d.user, CurrencyOf(d).value);
      var policy := PolicyFor(book, d).value;
      var cents := Convert(policy, Left(d));
      CentsPositive(policy, Left(d));
      FiatAtWithin(book.rows, key, id);
      if cents > 0 {
        PostFiatFacts(book, id, key, policy.id, cents);
      }
    }
  }

  lemma AssetCredits(book: Book, id: nat)
    requires id in book.deposits && !book.deposits[id].credited && Untouched(book, id) && Due(book.deposits[id])
    requires Named(book.deposits[id])
    ensures var d := book.deposits[id];
            var posted := SettleIntoAsset(book, id, d.asset.value, d.network.value, Left(d));
            posted.ending == Normal && id in posted.book.deposits && posted.book.deposits[id].credited
  {
    var d := book.deposits[id];
    PostAssetFacts(book, id, AssetKey(d.tenant, d.user, d.asset.value, d.network.value), Left(d));
  }

  /** The exact outcome of settling an uncredited deposit. */
  ghost predicate SettledExactly(book: Book, posted: Posted, id: nat)
    requires id in book.deposits
  {
    var d := book.deposits[id];
    && id in posted.book.deposits
    && (posted.book.deposits[id].credited <==> Creditable(book, d))
    && (posted.book.deposits[id].credited ==> posted.ending == Normal)
    && (posted.ending == RolledBack <==> Unpayable(book, d))
    && (posted.ending == Normal && !d.terms.autoCredit ==>
          posted.book == WithDeposit(book, id, d.(status := SETTLED_REVIEW)))
    && (posted.ending == Normal && d.terms.autoCredit && !posted.book.deposits[id].credited ==>
          posted.book == WithDeposit(book, id, d.(status := SETTLED_REVIEW, failed := true)))
    && (posted.ending == Recorded ==> posted.book.deposits == book.deposits)
    && (d.received.Some? && d.received.value > 0 && d.asset.Some? && d.network.Some? && !d.terms.autoCredit ==>
          posted.ending == Normal)
  }

  lemma SettlesExactlyWhen(book: Book, id: nat)
    requires id in book.deposits && !book.deposits[id].credited && Untouched(book, id) && Named(book.deposits[id])
    requires book.deposits[id].status != CREDITED
    ensures SettledExactly(book, Settle(book, id), id)
  {
    var d := book.deposits[id];
    if d.received.Some? {
      NetIsLeft(d);
    }
    if Due(d) {
      if d.terms.target == AssetTarget {
        AssetCredits(book, id);
      } else {
        WalletCreditsExactlyWhen(book, id);
      }
    }
  }

  /* ---------- one answer ---------- */

  /** Settling depends on the deposit and the policies alone. */
  lemma SamePolicies(book: Book, b1: Book, d: Deposit)
    requires b1.policies == book.policies
    ensures Creditable(b1, d) <==> Creditable(book, d)
    ensures Unpayable(b1, d) <==> Unpayable(book, d)
  {
  }

  /** An answer that is not for this deposit, or none at all, leaves it; a fault or another invoice marks it UNKNOWN. */
  lemma UnusableAnswer(book: Book, tenant: nat, id: nat, answer: Answer)
    requires id in book.deposits
    ensures var d, book' := book.deposits[id], Reconcile(book, tenant, id, answer);
            if d.tenant != tenant || d.status in {EXPIRED, CANCELLED, REVERSED} || answer.Unavailable?
            then book' == book
            else answer.ProviderFault? || answer.evidence.providerId != d.providerId ==>
                   book' == WithDeposit(book, id, d.(status := UNKNOWN, failed := true))
  {
  }

  /** The evidence reaches the deposit: it is the tenant's, open, and its own invoice. */
  predicate Reaches(book: Book, tenant: nat, id: nat, e: Evidence) {
    && id in book.deposits && book.deposits[id].tenant == tenant && e.providerId == book.deposits[id].providerId
    && book.deposits[id].status !in {EXPIRED, CANCELLED, REVERSED}
  }

  /** Evidence for an uncredited deposit that does not ask for settlement: accepted, it is all on record; rejected, the
      deposit is UNKNOWN with the fields that were accepted before; with a malformed name nothing changes. */
  lemma EvidenceRecorded(book: Book, tenant: nat, id: nat, e: Evidence)
    requires Reaches(book, tenant, id, e) && !book.deposits[id].credited
    requires e.status != SETTLED_REVIEW || !Accepts(book.deposits[id], e)
    ensures var d, book' := book.deposits[id], Reconcile(book, tenant, id, Observed(e));
            && (Accepts(d, e) ==> book' == WithDeposit(book, id, Informed(d, e)))
            && (!UsableNames(e) ==> book' == book)
            && (UsableNames(e) && !NamesFit(d, e) ==>
                  book' == WithDeposit(book, id, d.(status := UNKNOWN, failed := true)))
            && (NamesFit(d, e) && !Accepts(d, e) ==>
                  book' == WithDeposit(book, id, Informed(d, e).(
                                       received := if ReceivedFits(d, e) then Latest(e.received, d.received)
                                                   else d.received,
                                       fee := d.fee, status := UNKNOWN, failed := true)))
  {
    ObservedExactly(book.deposits[id], e);
    AssessExactlyWhen(book.deposits[id], e);
  }

  /** Evidence after the credit only confirms it, or marks the deposit UNKNOWN when its names do not fit. */
  lemma EvidenceConfirms(book: Book, tenant: nat, id: nat, e: Evidence)
    requires Reaches(book, tenant, id, e) && book.deposits[id].credited && e.status != REVERSED
    ensures var d, book' := book.deposits[id], Reconcile(book, tenant, id, Observed(e));
            && (NamesFit(d, e) ==> book' == WithDeposit(book, id, d.(status := CREDITED, failed := false)))
            && (!UsableNames(e) ==> book' == book)
            && (UsableNames(e) && !NamesFit(d, e) ==>
                  book' == WithDeposit(book, id, d.(status := UNKNOWN, failed := true)))
  {
    AssessExactlyWhen(book.deposits[id], e);
  }

  /** How a settlement asked for by evidence ends: `d` is the deposit with that evidence. */
  ghost predicate ReviewedExactly(book: Book, d: Deposit, book': Book, id: nat) {
    && id in book'.deposits
    && (book'.deposits[id].credited <==> Creditable(book, d))
    && (book'.deposits[id].credited ==> book'.deposits[id].status == CREDITED)
    && (!d.terms.autoCredit && d.received.Some? && d.received.value > 0 && d.asset.Some? && d.network.Some? ==>
          book' == WithDeposit(book, id, d))
    && (Unpayable(book, d) ==> book' == book)
    && (!Unpayable(book, d) ==> SameEvidence(d, book'.deposits[id]))
    && (!book'.deposits[id].credited && !Unpayable(book, d) ==> book'.deposits[id].status in {SETTLED_REVIEW, UNKNOWN})
  }

  lemma ReviewConcluded(book: Book, d: Deposit, posted: Posted, id: nat)
    requires id in book.deposits && !book.deposits[id].credited && !d.credited && d.status == SETTLED_REVIEW
    requires SettledExactly(WithDeposit(book, id, d), posted, id)
    requires SettledWell(WithDeposit(book, id, d), posted, id)
    requires id in posted.book.deposits && (posted.book.deposits[id].credited ==>
                                              posted.book.deposits[id].status == CREDITED)
    ensures ReviewedExactly(book, d, Conclude(book, posted, id), id)
  {
    var b1 := WithDeposit(book, id, d);
    SamePolicies(book, b1, d);
    assert Creditable(book, d) ==> !Unpayable(book, d);
  }

  lemma CreditSaysCredited(book: Book, id: nat)
    requires id in book.deposits && !book.deposits[id].credited
    ensures var posted := Settle(book, id);
            id in posted.book.deposits && (posted.book.deposits[id].credited ==>
                                             posted.book.deposits[id].status == CREDITED)
  {
  }

  /** An accepted answer that asks for settlement ends credited exactly when the evidence and the terms allow it, and
      then with all of the evidence on record. Without automatic credit it waits for review. */
  lemma ReviewCreditsExactlyWhen(book: Book, tenant: nat, id: nat, e: Evidence)
    requires Inv(book) && Reaches(book, tenant, id, e) && !book.deposits[id].credited
    requires e.status == SETTLED_REVIEW && Accepts(book.deposits[id], e)
    ensures ReviewedExactly(book, Informed(book.deposits[id], e), Reconcile(book, tenant, id, Observed(e)), id)
  {
    assert Coherent(book, id) && Named(book.deposits[id]);
    InformedSettles(book, id, e);
    ReviewIsSettlement(book, tenant, id, e);
    var d := Informed(book.deposits[id], e);
    ReviewConcluded(book, d, Settle(WithDeposit(book, id, d), id), id);
  }

  lemma ReviewIsSettlement(book: Book, tenant: nat, id: nat, e: Evidence)
    requires Reaches(book, tenant, id, e) && !book.deposits[id].credited
    requires e.status == SETTLED_REVIEW && Accepts(book.deposits[id], e)
    ensures Reconcile(book, tenant, id, Observed(e))
            == Conclude(book, Settle(WithDeposit(book, id, Informed(book.deposits[id], e)), id), id)
  {
    ObservedExactly(book.deposits[id], e);
  }

  lemma InformedSettles(book: Book, id: nat, e: Evidence)
    requires id in book.deposits && !book.deposits[id].credited && Untouched(book, id) && Named(book.deposits[id])
    requires !Closed(book.deposits[id].status) && e.status == SETTLED_REVIEW && Accepts(book.deposits[id], e)
    ensures var b1 := WithDeposit(book, id, Informed(book.deposits[id], e));
            SettledExactly(b1, Settle(b1, id), id) && SettledWell(b1, Settle(b1, id), id)
            && id in Settle(b1, id).book.deposits
            && (Settle(b1, id).book.deposits[id].credited ==> Settle(b1, id).book.deposits[id].status == CREDITED)
  {
    var d := book.deposits[id];
    var b1 := WithDeposit(book, id, Informed(d, e));
    ObservedExactly(d, e);
    ObserveKeeps(d, e);
    ObservedUntouched(book, id, Informed(d, e));
    SettlesExactlyWhen(b1, id);
    SettleWell(b1, id);
    CreditSaysCredited(b1, id);
  }

  /** What a new deposit records: the request and the provider's first answer, and no credit. */
  lemma CreatedAsAsked(book: Book, id: nat, r: Request, e: Evidence)
    requires id !in book.deposits && id in Create(book, id, r, e).deposits
    ensures var d := Create(book, id, r, e).deposits[id];
            && d.tenant == r.tenant && d.user == r.user && d.paymentMethod == r.paymentMethod
            && d.provider == r.provider && d.key == r.key && d.terms == r.terms && d.fxPolicy == r.fxPolicy
            && d.providerId == e.providerId && d.providerId != "" && d.status == e.status
            && d.received == e.received && d.fee == e.fee && !d.credited && !d.failed
            && d.asset == LatestName(e.asset, 24, Option.None) && d.network == LatestName(e.network, 64, Option.None)
            && NamesFit(d, e)
  {
    AssessExactlyWhen(Fresh(r, e), e);
  }
}
