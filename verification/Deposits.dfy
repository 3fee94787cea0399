/** Flexible deposits: provider evidence, settlement into one of two ledgers, and reversal.
    Asset amounts count units of 10^-18, wallet amounts count cents. */
module Deposits {
  import opened Common
  import opened Identifiers

  const CENT: int := 10_000_000_000_000_000

  /** Cents on the scale of asset amounts. */
  function Units(cents: int): int { cents * CENT }

  datatype Status =
    | CREATED | PENDING | PROCESSING | SETTLED_REVIEW | CREDITED | EXPIRED | CANCELLED | UNKNOWN | REVERSED

  datatype Target = AssetTarget | SettlementTarget

  datatype Basis = NetAfterFee | GrossReceived

  /** The policy snapshot taken when a deposit is created. */
  datatype Terms = Terms(autoCredit: bool, target: Target, basis: Basis, currency: Option<string>,
                         allowedAssets: set<string>, allowedNetworks: set<string>)

  datatype Deposit = Deposit(
    tenant: nat, user: nat, paymentMethod: nat, provider: string, providerId: string, key: string, terms: Terms,
    status: Status, asset: Option<string>, network: Option<string>, received: Option<int>, fee: Option<int>,
    fxPolicy: Option<nat>, credited: bool, creditedAmount: Option<int>, creditedAsset: Option<string>,
    creditedCurrency: Option<string>, failed: bool)

  /** One provider observation. */
  datatype Evidence = Evidence(providerId: string, status: Status, asset: Option<string>, network: Option<string>,
                               received: Option<int>, fee: Option<int>)

  datatype Answer = Unavailable | ProviderFault | Observed(evidence: Evidence)

  datatype AssetKey = AssetKey(tenant: nat, user: nat, asset: string, network: string)
  datatype FiatKey = FiatKey(tenant: nat, user: nat, currency: string)
  datatype Wallet = Wallet(balance: int, active: bool)
  datatype AssetRow = AssetRow(wallet: AssetKey, amount: int, before: int, after: int, deposit: nat)
  datatype Reference = Settlement(deposit: nat) | Elsewhere
  datatype FiatRow = FiatRow(wallet: FiatKey, amount: int, before: int, after: int, reference: Reference)
  datatype CreditedWallet = InAssets(asset: AssetKey) | InFiat(fiat: FiatKey)
  datatype Case = Case(deposit: nat, wallet: CreditedWallet)
  datatype FxPolicy = FxPolicy(id: nat, tenant: nat, asset: string, network: string, currency: string,
                               rate: nat, cap: Option<int>, enabled: bool)

  datatype Book = Book(
    deposits: map<nat, Deposit>, assetWallets: map<AssetKey, Wallet>, assetRows: seq<AssetRow>,
    wallets: map<FiatKey, Wallet>, rows: seq<FiatRow>, cases: seq<Case>, policies: seq<FxPolicy>)

  /** How a service call ends: normally, with an error that is recorded on the deposit, or with
      one that rolls the transaction back. */
  datatype Ending = Normal | Recorded | RolledBack

  datatype Applied = Applied(deposit: Deposit, ending: Ending)
  datatype Posted = Posted(book: Book, ending: Ending)

  function NormalAsset(s: string): Option<string> { Identifiers.Normal(s, 24) }
  function NormalNetwork(s: string): Option<string> { Identifiers.Normal(s, 64) }

  function NormalCurrency(s: string): Option<string> {
    var t := Upper(Strip(s));
    if 3 <= |t| <= 12 && (forall i | 0 <= i < |t| :: t[i] == '_' || 'A' <= t[i] <= 'Z' || '0' <= t[i] <= '9')
       && exists i | 0 <= i < |t| :: t[i] != '_'
    then Option.Some(t) else Option.None
  }

  /** Absent and empty provider fields are the same. */
  function Given(field: Option<string>): Option<string> {
    if field == Option.Some("") then Option.None else field
  }

  predicate Closed(status: Status) {
    status == EXPIRED || status == CANCELLED || status == REVERSED
  }

  /* ---------- evidence ---------- */

  predicate Permitted(value: Option<string>, allowed: set<string>) {
    value.Some? && allowed != {} ==> value.value in allowed
  }

  predicate Consistent(known: Option<string>, value: Option<string>) {
    known.Some? && value.Some? ==> known == value
  }

  /** The observation names a usable identity inside the policy that agrees with what is known. */
  function Assess(d: Deposit, e: Evidence): Ending {
    var rawAsset, rawNetwork := Given(e.asset), Given(e.network);
    var asset := if rawAsset.Some? then NormalAsset(rawAsset.value) else Option.None;
    var network := if rawNetwork.Some? then NormalNetwork(rawNetwork.value) else Option.None;
    if (rawAsset.Some? && asset.None?) || (rawNetwork.Some? && network.None?) then RolledBack
    else if !Permitted(asset, d.terms.allowedAssets) || !Permitted(network, d.terms.allowedNetworks) then Recorded
    else if !Consistent(d.asset, asset) || !Consistent(d.network, network) then Recorded
    else Normal
  }

  function AssetIn(d: Deposit, e: Evidence): Option<string> {
    if Given(e.asset).Some? then NormalAsset(Given(e.asset).value) else d.asset
  }

  function NetworkIn(d: Deposit, e: Evidence): Option<string> {
    if Given(e.network).Some? then NormalNetwork(Given(e.network).value) else d.network
  }

  /** Writing an admissible observation. A rejected amount or fee leaves the fields before it written. */
  function Write(d: Deposit, e: Evidence, asset: Option<string>, network: Option<string>): Applied {
    var d1 := d.(asset := asset, network := network);
    if e.received.Some? && (e.received.value < 0 || (d.received.Some? && e.received.value < d.received.value)) then
      Applied(d1, Recorded)
    else
      var d2 := if e.received.Some? then d1.(received := e.received) else d1;
      if e.fee.Some? && e.fee.value < 0 then Applied(d2, Recorded)
      else
        var d3 := if e.fee.Some? then d2.(fee := e.fee) else d2;
        Applied(d3.(status := e.status, failed := false), Normal)
  }

  /** The deposit after an observation. */
  function Observe(d: Deposit, e: Evidence): Applied {
    if e.providerId != d.providerId then Applied(d, Recorded)
    else if Assess(d, e) != Normal then Applied(d, Assess(d, e))
    else Write(d, e, AssetIn(d, e), NetworkIn(d, e))
  }

  /* ---------- settlement ---------- */

  /** The amount that a deposit is worth in its asset; `None` when that is not positive. */
  function NetAmount(d: Deposit): (r: Option<int>)
    requires d.received.Some?
    ensures r.Some? ==> r.value > 0
  {
    var net := if d.terms.basis == GrossReceived then d.received.value
               else d.received.value - (if d.fee.Some? then d.fee.value else 0);
    if net > 0 then Option.Some(net) else Option.None
  }

  /** A cent in units of 10^-36, the scale of an amount times a rate. */
  const CENT_PRODUCT: int := 10_000_000_000_000_000_000_000_000_000_000_000

  /** Conversion to cents: the nearest, and the higher one halfway between two. */
  function Convert(policy: FxPolicy, amount: int): (cents: int)
    requires amount > 0
    ensures -CENT_PRODUCT <= 2 * (amount * policy.rate - cents * CENT_PRODUCT) < CENT_PRODUCT
    ensures cents >= 0
  {
    (2 * (amount * policy.rate) + CENT_PRODUCT) / (2 * CENT_PRODUCT)
  }

  predicate WithinCap(policy: FxPolicy, cents: int) {
    policy.cap.Some? ==> cents * 10_000 <= policy.cap.value
  }

  function FirstPolicy(policies: seq<FxPolicy>, p: FxPolicy -> bool): (r: Option<FxPolicy>)
    ensures r.Some? ==> r.value in policies && p(r.value)
    ensures r.None? ==> forall q | q in policies :: !p(q)
  {
    if policies == [] then Option.None
    else if p(policies[0]) then Option.Some(policies[0])
    else FirstPolicy(policies[1..], p)
  }

  /** The enabled policy for this deposit: the snapshot's own, or the most specific match. */
  function Resolve(book: Book, d: Deposit, asset: string, network: string, currency: string): (r: Option<FxPolicy>)
    ensures r.Some? ==> && r.value in book.policies && r.value.enabled && r.value.tenant == d.tenant
                        && r.value.asset == asset && r.value.currency == currency
                        && (r.value.network == "ANY" || r.value.network == network)
  {
    var eligible := (p: FxPolicy) => p.tenant == d.tenant && p.enabled;
    var matches := (p: FxPolicy) => eligible(p) && p.asset == asset && p.currency == currency;
    var found :=
      if d.fxPolicy.Some? then FirstPolicy(book.policies, (p: FxPolicy) => eligible(p) && p.id == d.fxPolicy.value)
      else
        var exact := FirstPolicy(book.policies, (p: FxPolicy) => matches(p) && p.network == network);
        if exact.Some? then exact else FirstPolicy(book.policies, (p: FxPolicy) => matches(p) && p.network == "ANY");
    if found.None? || found.value.asset != asset || found.value.currency != currency
       || (found.value.network != "ANY" && found.value.network != network)
    then Option.None else found
  }

  function AssetFor(rows: seq<AssetRow>, id: nat): seq<AssetRow> {
    if rows == [] then []
    else
      var last := rows[|rows| - 1];
      AssetFor(rows[..|rows| - 1], id) + (if last.deposit == id then [last] else [])
  }

  function FiatFor(rows: seq<FiatRow>, id: nat): seq<FiatRow> {
    if rows == [] then []
    else
      var last := rows[|rows| - 1];
      FiatFor(rows[..|rows| - 1], id) + (if last.reference == Settlement(id) then [last] else [])
  }

  /** Settlements of a deposit in one wallet: what the unique index forbids to repeat. */
  function FiatAt(rows: seq<FiatRow>, key: FiatKey, id: nat): seq<FiatRow> {
    if rows == [] then []
    else
      var last := rows[|rows| - 1];
      FiatAt(rows[..|rows| - 1], key, id)
      + (if last.wallet == key && last.reference == Settlement(id) then [last] else [])
  }

  function CasesFor(cases: seq<Case>, id: nat): seq<Case> {
    if cases == [] then []
    else
      var last := cases[|cases| - 1];
      CasesFor(cases[..|cases| - 1], id) + (if last.deposit == id then [last] else [])
  }

  function WithAssetWallet(book: Book, key: AssetKey): Book {
    if key in book.assetWallets then book
    else book.(assetWallets := book.assetWallets[key := Wallet(0, true)])
  }

  function WithWallet(book: Book, key: FiatKey): Book {
    if key in book.wallets then book else book.(wallets := book.wallets[key := Wallet(0, true)])
  }

  /** The asset ledger's credit keyed by a deposit: applied once, replayed when identical. */
  function CreditAsset(book: Book, key: AssetKey, amount: int, id: nat): Posted
    requires key in book.assetWallets
  {
    var existing := AssetFor(book.assetRows, id);
    if existing != [] then
      Posted(book, if existing[0].wallet == key && existing[0].amount == amount then Normal else Recorded)
    else
      var w := book.assetWallets[key];
      Posted(book.(assetWallets := book.assetWallets[key := w.(balance := w.balance + amount)],
                   assetRows := book.assetRows + [AssetRow(key, amount, w.balance, w.balance + amount, id)]), Normal)
  }

  /** The wallet ledger's settlement of a deposit. */
  function SettleFiat(book: Book, key: FiatKey, cents: int, id: nat): Posted
    requires key in book.wallets
  {
    var existing := FiatAt(book.rows, key, id);
    if cents <= 0 then Posted(book, RolledBack)
    else if existing != [] then
      Posted(book, if existing[0].amount == cents then Normal else Recorded)
    else
      var w := book.wallets[key];
      Posted(book.(wallets := book.wallets[key := w.(balance := w.balance + cents)],
                   rows := book.rows + [FiatRow(key, cents, w.balance, w.balance + cents, Settlement(id))]), Normal)
  }

  function WithDeposit(book: Book, id: nat, d: Deposit): Book {
    book.(deposits := book.deposits[id := d])
  }

  /** Credits the asset wallet `key` and marks the deposit credited. */
  function PostAsset(book: Book, id: nat, key: AssetKey, net: int): Posted
    requires id in book.deposits
  {
    var d := book.deposits[id];
    var credit := CreditAsset(WithAssetWallet(book, key), key, net, id);
    if credit.ending != Normal then credit
    else Posted(WithDeposit(credit.book, id,
                            d.(status := CREDITED, credited := true, creditedAmount := Option.Some(net),
                               creditedAsset := d.asset, failed := false)), Normal)
  }

  /** Credits the settlement wallet `key` and marks the deposit credited. */
  function PostFiat(book: Book, id: nat, key: FiatKey, policy: nat, cents: int): Posted
    requires id in book.deposits
  {
    var d := book.deposits[id];
    var credit := SettleFiat(WithWallet(book, key), key, cents, id);
    if credit.ending != Normal then credit
    else Posted(WithDeposit(credit.book, id,
                            d.(status := CREDITED, credited := true, creditedAmount := Option.Some(Units(cents)),
                               creditedCurrency := Option.Some(key.currency), fxPolicy := Option.Some(policy),
                               failed := false)), Normal)
  }

  function SettleIntoAsset(book: Book, id: nat, asset: string, network: string, net: int): Posted
    requires id in book.deposits
  {
    var d := book.deposits[id];
    if NormalAsset(asset).None? || NormalNetwork(network).None? then Posted(book, RolledBack)
    else PostAsset(book, id, AssetKey(d.tenant, d.user, NormalAsset(asset).value, NormalNetwork(network).value), net)
  }

  function SettleIntoWallet(book: Book, id: nat, asset: string, network: string, net: int): Posted
    requires id in book.deposits && net > 0
  {
    var d := book.deposits[id];
    if Given(d.terms.currency).None? then Posted(book, Recorded)
    else if NormalCurrency(d.terms.currency.value).None? then Posted(book, RolledBack)
    else
      var currency := NormalCurrency(d.terms.currency.value).value;
      var policy := Resolve(book, d, asset, network, currency);
      if policy.None? then Posted(book, Recorded)
      else
        var cents := Convert(policy.value, net);
        if !WithinCap(policy.value, cents) then
          Posted(WithDeposit(book, id, d.(status := SETTLED_REVIEW, failed := true)), Normal)
        else PostFiat(book, id, FiatKey(d.tenant, d.user, currency), policy.value.id, cents)
  }

  function Settle(book: Book, id: nat): Posted
    requires id in book.deposits
  {
    var d := book.deposits[id];
    if d.status == CREDITED then Posted(book, Normal)
    else if d.received.None? || d.received.value <= 0 || d.asset.None? || d.network.None? then Posted(book, Recorded)
    else if !d.terms.autoCredit then Posted(WithDeposit(book, id, d.(status := SETTLED_REVIEW)), Normal)
    else if NetAmount(d).None? then Posted(book, Recorded)
    else if d.terms.target == AssetTarget
      then SettleIntoAsset(book, id, d.asset.value, d.network.value, NetAmount(d).value)
    else SettleIntoWallet(book, id, d.asset.value, d.network.value, NetAmount(d).value)
  }

  /* ---------- reversal ---------- */

  /** The wallet that a credited deposit says it was credited to, if that wallet exists. */
  function CreditedTo(book: Book, d: Deposit): Option<CreditedWallet> {
    if d.creditedCurrency.Some? then
      var key := FiatKey(d.tenant, d.user, d.creditedCurrency.value);
      if key in book.wallets then Option.Some(InFiat(key)) else Option.None
    else if d.creditedAsset.Some? && d.network.Some? then
      var key := AssetKey(d.tenant, d.user, d.creditedAsset.value, d.network.value);
      if key in book.assetWallets then Option.Some(InAssets(key)) else Option.None
    else Option.None
  }

  function Frozen(book: Book, wallet: CreditedWallet): Book {
    match wallet
    case InFiat(key) =>
      if key in book.wallets then book.(wallets := book.wallets[key := book.wallets[key].(active := false)]) else book
    case InAssets(key) =>
      if key in book.assetWallets
      then book.(assetWallets := book.assetWallets[key := book.assetWallets[key].(active := false)]) else book
  }

  function RecordReversal(book: Book, id: nat): Posted
    requires id in book.deposits
  {
    var d := book.deposits[id];
    var wallet := CreditedTo(book, d);
    if wallet.None? then Posted(book, Recorded)
    else
      var b1 := Frozen(book, wallet.value);
      var b2 := if CasesFor(b1.cases, id) == [] then b1.(cases := b1.cases + [Case(id, wallet.value)]) else b1;
      Posted(WithDeposit(b2, id, d.(status := REVERSED, failed := true)), Normal)
  }

  /* ---------- reconciliation ---------- */

  /** The state an error leaves once it is recorded: whatever was written, marked UNKNOWN. */
  function Conclude(before: Book, posted: Posted, id: nat): Book {
    match posted.ending
    case Normal => posted.book
    case RolledBack => before
    case Recorded =>
      if id in posted.book.deposits
      then WithDeposit(posted.book, id, posted.book.deposits[id].(status := UNKNOWN, failed := true))
      else posted.book
  }

  function AfterCredit(book: Book, id: nat, e: Evidence): Posted
    requires id in book.deposits
  {
    var d := book.deposits[id];
    if e.status == REVERSED then RecordReversal(book, id)
    else if Assess(d, e) != Normal then Posted(book, Assess(d, e))
    else Posted(WithDeposit(book, id, d.(status := CREDITED, failed := false)), Normal)
  }

  function BeforeCredit(book: Book, id: nat, e: Evidence): Posted
    requires id in book.deposits
  {
    var applied := Observe(book.deposits[id], e);
    var b1 := WithDeposit(book, id, applied.deposit);
    if applied.ending != Normal then Posted(b1, applied.ending)
    else if e.status == SETTLED_REVIEW then Settle(b1, id)
    else Posted(b1, Normal)
  }

  /** How one polled answer is taken. */
  function Answered(book: Book, id: nat, answer: Answer): Posted
    requires id in book.deposits
  {
    match answer
    case Unavailable => Posted(book, RolledBack)
    case ProviderFault => Posted(book, Recorded)
    case Observed(e) =>
      if e.providerId != book.deposits[id].providerId then Posted(book, Recorded)
      else if book.deposits[id].credited then AfterCredit(book, id, e)
      else BeforeCredit(book, id, e)
  }

  /** One reconciliation of a deposit, as one transaction. */
  function Reconcile(book: Book, tenant: nat, id: nat, answer: Answer): Book {
    if id !in book.deposits || book.deposits[id].tenant != tenant || Closed(book.deposits[id].status) then book
    else Conclude(book, Answered(book, id, answer), id)
  }

  /* ---------- creation ---------- */

  datatype Request = Request(tenant: nat, user: nat, paymentMethod: nat, provider: string, key: string,
                             terms: Terms, fxPolicy: Option<nat>)

  predicate KeyTaken(book: Book, tenant: nat, key: string) {
    exists id | id in book.deposits :: book.deposits[id].tenant == tenant && book.deposits[id].key == key
  }

  predicate InvoiceTaken(book: Book, tenant: nat, provider: string, providerId: string) {
    exists id | id in book.deposits :: book.deposits[id].tenant == tenant && book.deposits[id].provider == provider
                                       && book.deposits[id].providerId == providerId
  }

  function Fresh(r: Request, e: Evidence): Deposit {
    Deposit(r.tenant, r.user, r.paymentMethod, r.provider, e.providerId, r.key, r.terms, e.status,
            if Given(e.asset).Some? then NormalAsset(Given(e.asset).value) else Option.None,
            if Given(e.network).Some? then NormalNetwork(Given(e.network).value) else Option.None,
            e.received, e.fee, r.fxPolicy, false, Option.None, Option.None, Option.None, false)
  }

  /** The insert of a creation, after any number of other steps since its lookup found nothing.
      The two unique constraints turn a lost race into a lookup of the winner. */
  function Create(book: Book, id: nat, r: Request, e: Evidence): Book {
    if e.providerId == "" || Assess(Fresh(r, e), e) != Normal then book
    else if id in book.deposits || KeyTaken(book, r.tenant, r.key)
    || InvoiceTaken(book, r.tenant, r.provider, e.providerId)
    then book
    else WithDeposit(book, id, Fresh(r, e))
  }

  /* ---------- runs ---------- */

  datatype Event =
    | Creation(id: nat, request: Request, evidence: Evidence)
    | Reconciliation(tenant: nat, id: nat, answer: Answer)
    | Entry(wallet: FiatKey, delta: int)            // any other movement of a fiat wallet
    | Reactivation(wallet: FiatKey)                 // an operator closes a resolution case
    | Repricing(policies: seq<FxPolicy>)

  function Next(book: Book, event: Event): Book {
    match event
    case Creation(id, r, e) => Create(book, id, r, e)
    case Reconciliation(tenant, id, answer) => Reconcile(book, tenant, id, answer)
    case Reactivation(key) =>
      if key in book.wallets then book.(wallets := book.wallets[key := book.wallets[key].(active := true)]) else book
    case Repricing(policies) => book.(policies := policies)
    case Entry(key, delta) =>
      var b := WithWallet(book, key);
      var w := b.wallets[key];
      b.(wallets := b.wallets[key := w.(balance := w.balance + delta)],
         rows := b.rows + [FiatRow(key, delta, w.balance, w.balance + delta, Elsewhere)])
  }

  function Run(book: Book, events: seq<Event>): Book {
    if events == [] then book else Next(Run(book, events[..|events| - 1]), events[|events| - 1])
  }

  const EMPTY := Book(map[], map[], [], map[], [], [], [])
}
