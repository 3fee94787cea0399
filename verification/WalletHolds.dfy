/** Reservations over settlement wallets under concurrent transactions. A transaction keeps the row
    locks it takes until it commits or rolls back and its writes are visible to others only
    then. Reservations and debits lock the wallet; a capture locks its hold first and the wallet
    second; a release locks only its hold. Amounts count cents. */
module WalletHolds {
  import opened Common

  datatype Status = ACTIVE | CAPTURED | RELEASED
  datatype Wallet = Wallet(tenant: nat, balance: int, active: bool)
  datatype Hold = Hold(tenant: nat, wallet: nat, amount: int, key: string, status: Status)
  /** A ledger row; `capture` names the hold that it pays. */
  datatype Row = Row(wallet: nat, before: int, after: int, capture: Option<nat>)

  datatype Result = Reserved(hold: nat) | Paid(row: Row) | Freed | Refused

  /** A transaction; `balance` is its copy of the wallet it has locked. */
  datatype Txn =
    | Reserving(hold: Hold, balance: int)
    | Debiting(wallet: nat, amount: int, balance: int)
    | Marking(id: nat)
    | Capturing(id: nat, balance: int)
    | Releasing(id: nat)
    | Done(result: Result)

  datatype World = World(wallets: seq<Wallet>, holds: seq<Hold>, rows: seq<Row>, txns: map<nat, Txn>)

  const EMPTY := World([], [], [], map[])

  datatype Event =
    | Open(tenant: nat)
    | SetActive(wallet: nat, active: bool)
    | Credit(wallet: nat, amount: int)
    | ReverseTopUp(wallet: nat, amount: int)
    | Adjust(wallet: nat, target: int)
    | Reserve(txn: nat, wallet: nat, amount: int, key: string)
    | Debit(txn: nat, wallet: nat, amount: int)
    | Capture(txn: nat, id: nat)
    | LockForDebit(txn: nat)
    | Release(txn: nat, id: nat)
    | Commit(txn: nat)
    | Rollback(txn: nat)

  /** What the ACTIVE holds of a wallet add up to. */
  function Held(holds: seq<Hold>, wallet: nat): int
    decreases |holds|
  {
    if holds == [] then 0
    else
      var last := holds[|holds| - 1];
      Held(holds[..|holds| - 1], wallet) + if last.wallet == wallet && last.status == ACTIVE then last.amount else 0
  }

  function Available(w: World, wallet: nat): int
    requires wallet < |w.wallets|
  {
    w.wallets[wallet].balance - Held(w.holds, wallet)
  }

  function Mark(holds: seq<Hold>, id: nat, status: Status): (r: seq<Hold>)
    requires id < |holds|
    ensures |r| == |holds| && forall i | 0 <= i < |r| ::
              r[i] == if i == id then holds[i].(status := status) else holds[i]
  {
    holds[id := holds[id].(status := status)]
  }

  /* ---------- locks ---------- */

  predicate LocksWallet(holds: seq<Hold>, t: Txn, wallet: nat) {
    match t
    case Reserving(hold, _) => hold.wallet == wallet
    case Debiting(id, _, _) => id == wallet
    case Capturing(id, _) => id < |holds| && holds[id].wallet == wallet
    case _ => false
  }

  predicate LocksHold(t: Txn, id: nat) {
    (t.Marking? || t.Capturing? || t.Releasing?) && t.id == id
  }

  ghost predicate WalletFree(w: World, wallet: nat) {
    forall t | t in w.txns :: !LocksWallet(w.holds, w.txns[t], wallet)
  }

  ghost predicate HoldFree(w: World, id: nat) {
    forall t | t in w.txns :: !LocksHold(w.txns[t], id)
  }

  /* ---------- steps ---------- */

  /** The hold of (tenant, key). */
  function FindHold(holds: seq<Hold>, tenant: nat, key: string): (r: Option<nat>)
    ensures r.Some? ==> r.value < |holds| && holds[r.value].tenant == tenant && holds[r.value].key == key
    ensures r.None? ==> forall i | 0 <= i < |holds| :: !(holds[i].tenant == tenant && holds[i].key == key)
    decreases |holds|
  {
    if holds == [] then None
    else
      var n := |holds| - 1;
      if holds[n].tenant == tenant && holds[n].key == key then Some(n) else FindHold(holds[..n], tenant, key)
  }

  /** The debits that pay for a hold. */
  function Payments(rows: seq<Row>, id: nat): (r: seq<Row>)
    ensures forall i | 0 <= i < |r| :: r[i] in rows
    decreases |rows|
  {
    if rows == [] then []
    else
      var last := rows[|rows| - 1];
      Payments(rows[..|rows| - 1], id) + if last.capture == Some(id) then [last] else []
  }

  function With(w: World, txn: nat, t: Txn): World {
    w.(txns := w.txns[txn := t])
  }

  /** A booked balance and the row that moves it there. */
  function Post(w: World, wallet: nat, after: int, capture: Option<nat>): World
    requires wallet < |w.wallets|
  {
    w.(wallets := w.wallets[wallet := w.wallets[wallet].(balance := after)],
       rows := w.rows + [Row(wallet, w.wallets[wallet].balance, after, capture)])
  }

  function StartReserve(w: World, wallet: nat, amount: int, key: string): Txn
    requires wallet < |w.wallets|
  {
    var tenant := w.wallets[wallet].tenant;
    var found := FindHold(w.holds, tenant, key);
    if found.Some? then
      Done(if w.holds[found.value].wallet == wallet && w.holds[found.value].amount == amount
           then Reserved(found.value) else Refused)
    else if Available(w, wallet) < amount then Done(Refused)
    else Reserving(Hold(tenant, wallet, amount, key, ACTIVE), w.wallets[wallet].balance)
  }

  function StartDebit(w: World, wallet: nat, amount: int): Txn
    requires wallet < |w.wallets|
  {
    if !w.wallets[wallet].active || Available(w, wallet) < amount then Done(Refused)
    else Debiting(wallet, amount, w.wallets[wallet].balance)
  }

  function StartCapture(w: World, id: nat): Txn
    requires id < |w.holds|
  {
    if w.holds[id].status == ACTIVE then Marking(id)
    else if w.holds[id].status == CAPTURED && Payments(w.rows, id) != [] then Done(Paid(Payments(w.rows, id)[0]))
    else Done(Refused)
  }

  function StartRelease(w: World, id: nat): Txn
    requires id < |w.holds|
  {
    if w.holds[id].status == ACTIVE then Releasing(id)
    else Done(if w.holds[id].status == RELEASED then Freed else Refused)
  }

  /** The debit inside a capture: the hold is already marked, so it no longer counts against itself. */
  function ContinueCapture(w: World, id: nat): Txn
    requires id < |w.holds| && w.holds[id].wallet < |w.wallets|
  {
    var wallet := w.wallets[w.holds[id].wallet];
    if !wallet.active || wallet.balance - Held(Mark(w.holds, id, CAPTURED), w.holds[id].wallet) < w.holds[id].amount
    then Done(Refused)
    else Capturing(id, wallet.balance)
  }

  function CommitOf(w: World, txn: nat): World
    requires txn in w.txns && Fitting(w, w.txns[txn])
  {
    match w.txns[txn]
    case Reserving(hold, _) =>
      if FindHold(w.holds, hold.tenant, hold.key).Some? then With(w, txn, Done(Refused))
      else With(w.(holds := w.holds + [hold]), txn, Done(Reserved(|w.holds|)))
    case Debiting(wallet, amount, balance) =>
      var w' := Post(w, wallet, balance - amount, None);
      With(w', txn, Done(Paid(w'.rows[|w.rows|])))
    case Capturing(id, balance) =>
      var w' := Post(w, w.holds[id].wallet, balance - w.holds[id].amount, Some(id));
      With(w'.(holds := Mark(w.holds, id, CAPTURED)), txn, Done(Paid(w'.rows[|w.rows|])))
    case Releasing(id) => With(w.(holds := Mark(w.holds, id, RELEASED)), txn, Done(Freed))
    case _ => w
  }

  /** The rows that a transaction works on exist. */
  predicate Fitting(w: World, t: Txn) {
    match t
    case Reserving(hold, _) => hold.wallet < |w.wallets|
    case Debiting(wallet, _, _) => wallet < |w.wallets|
    case Done(_) => true
    case _ => t.id < |w.holds| && w.holds[t.id].wallet < |w.wallets|
  }

  /** One atomic step. A step that waits for a lock, or is not the transaction's next, changes nothing. */
  ghost function Next(w: World, e: Event): World {
    match e
    case Open(tenant) => w.(wallets := w.wallets + [Wallet(tenant, 0, true)])
    case SetActive(wallet, active) =>
      if wallet < |w.wallets| && WalletFree(w, wallet)
      then w.(wallets := w.wallets[wallet := w.wallets[wallet].(active := active)]) else w
    case Credit(wallet, amount) =>
      if wallet < |w.wallets| && WalletFree(w, wallet) && amount > 0
      then Post(w, wallet, w.wallets[wallet].balance + amount, None) else w
    case ReverseTopUp(wallet, amount) =>
      if wallet < |w.wallets| && WalletFree(w, wallet) && amount > 0 && w.wallets[wallet].balance >= amount
      then Post(w, wallet, w.wallets[wallet].balance - amount, None) else w
    case Adjust(wallet, target) =>
      if wallet < |w.wallets| && WalletFree(w, wallet) && target >= 0 then Post(w, wallet, target, None) else w
    case Reserve(txn, wallet, amount, key) =>
      if txn in w.txns || wallet >= |w.wallets| || !WalletFree(w, wallet) then w
      else if amount <= 0 then With(w, txn, Done(Refused))
      else With(w, txn, StartReserve(w, wallet, amount, key))
    case Debit(txn, wallet, amount) =>
      if txn in w.txns || wallet >= |w.wallets| || !WalletFree(w, wallet) then w
      else if amount <= 0 then With(w, txn, Done(Refused))
      else With(w, txn, StartDebit(w, wallet, amount))
    case Capture(txn, id) =>
      if txn in w.txns || id >= |w.holds| || !HoldFree(w, id) then w else With(w, txn, StartCapture(w, id))
    case LockForDebit(txn) =>
      if txn in w.txns && w.txns[txn].Marking? && Fitting(w, w.txns[txn])
         && WalletFree(w, w.holds[w.txns[txn].id].wallet)
      then With(w, txn, ContinueCapture(w, w.txns[txn].id)) else w
    case Release(txn, id) =>
      if txn in w.txns || id >= |w.holds| || !HoldFree(w, id) then w else With(w, txn, StartRelease(w, id))
    case Commit(txn) => if txn in w.txns && Fitting(w, w.txns[txn]) then CommitOf(w, txn) else w
    case Rollback(txn) => if txn in w.txns && !w.txns[txn].Done? then With(w, txn, Done(Refused)) else w
  }

  ghost function Run(w: World, events: seq<Event>): World
    decreases |events|
  {
    if events == [] then w else Next(Run(w, events[..|events| - 1]), events[|events| - 1])
  }

  /* ---------- the run invariant ---------- */

  /** The movements of a wallet add up to this. */
  function Moved(rows: seq<Row>, wallet: nat): int
    decreases |rows|
  {
    if rows == [] then 0
    else
      var last := rows[|rows| - 1];
      Moved(rows[..|rows| - 1], wallet) + if last.wallet == wallet then last.after - last.before else 0
  }

  /** A hold is paid once, in full and from its wallet, exactly when it is CAPTURED. */
  ghost predicate PaidOnce(rows: seq<Row>, holds: seq<Hold>, id: nat)
    requires id < |holds|
  {
    var paid := Payments(rows, id);
    if holds[id].status == CAPTURED
    then |paid| == 1 && paid[0].wallet == holds[id].wallet && paid[0].before - paid[0].after == holds[id].amount
    else paid == []
  }

  ghost predicate HoldSound(w: World, id: nat)
    requires id < |w.holds|
  {
    && w.holds[id].wallet < |w.wallets| && w.holds[id].amount > 0
    && w.holds[id].tenant == w.wallets[w.holds[id].wallet].tenant
    && PaidOnce(w.rows, w.holds, id)
  }

  /** What a transaction decided on is still so. */
  ghost predicate Sound(w: World, t: Txn) {
    && Fitting(w, t)
    && match t
       case Reserving(hold, balance) =>
         && hold.status == ACTIVE && hold.amount > 0 && hold.tenant == w.wallets[hold.wallet].tenant
         && balance == w.wallets[hold.wallet].balance && hold.amount + Held(w.holds, hold.wallet) <= balance
       case Debiting(wallet, amount, balance) =>
         amount > 0 && balance == w.wallets[wallet].balance && amount + Held(w.holds, wallet) <= balance
       case Capturing(id, balance) => w.holds[id].status == ACTIVE && balance == w.wallets[w.holds[id].wallet].balance
       case Marking(id) => w.holds[id].status == ACTIVE
       case Releasing(id) => w.holds[id].status == ACTIVE
       case Done(_) => true
  }

  ghost predicate Exclusive(holds: seq<Hold>, txns: map<nat, Txn>) {
    && (forall s, t, wallet: nat | s in txns && t in txns && LocksWallet(holds, txns[s], wallet) && LocksWallet(holds,
           txns[t], wallet) :: s == t)
    && (forall s, t, id: nat | s in txns && t in txns && LocksHold(txns[s], id) && LocksHold(txns[t], id) :: s == t)
  }

  ghost predicate KeysUnique(holds: seq<Hold>) {
    forall i, j | 0 <= i < j < |holds| :: !(holds[i].tenant == holds[j].tenant && holds[i].key == holds[j].key)
  }

  ghost predicate RowSound(w: World, row: Row) {
    row.wallet < |w.wallets| && (row.capture.Some? ==> row.capture.value < |w.holds|)
  }

  ghost predicate Inv(w: World) {
    && (forall id: nat | id < |w.holds| :: HoldSound(w, id))
    && (forall i | 0 <= i < |w.rows| :: RowSound(w, w.rows[i]))
    && (forall wallet: nat | wallet < |w.wallets| :: w.wallets[wallet].balance == Moved(w.rows, wallet))
    && (forall t | t in w.txns :: Sound(w, w.txns[t]))
    && Exclusive(w.holds, w.txns) && KeysUnique(w.holds)
  }

  /** The wallet's booked balance covers its holds. */
  ghost predicate Covered(w: World, wallet: nat)
    requires wallet < |w.wallets|
  {
    Held(w.holds, wallet) <= w.wallets[wallet].balance
  }

  ghost predicate AllCovered(w: World) {
    forall wallet: nat | wallet < |w.wallets| :: Covered(w, wallet)
  }

  /** The two operations that move a balance without looking at holds leave the held funds alone. */
  ghost predicate Considerate(w: World, e: Event) {
    match e
    case ReverseTopUp(wallet, amount) => wallet < |w.wallets| ==> amount <= Available(w, wallet)
    case Adjust(wallet, target) => target >= Held(w.holds, wallet)
    case _ => true
  }

  ghost predicate AlwaysConsiderate(events: seq<Event>) {
    forall n | 0 <= n < |events| :: Considerate(Run(EMPTY, events[..n]), events[n])
  }

  /* ---------- sums ---------- */

  lemma {:induction false} HeldAfterMark(holds: seq<Hold>, id: nat, status: Status, wallet: nat)
    requires id < |holds| && holds[id].status == ACTIVE && status != ACTIVE
    ensures Held(Mark(holds, id, status), wallet) == Held(holds, wallet) - if holds[id].wallet == wallet
              then holds[id].amount else 0
    decreases |holds|
  {
    var n := |holds| - 1;
    if id < n {
      HeldAfterMark(holds[..n], id, status, wallet);
      assert Mark(holds, id, status)[..n] == Mark(holds[..n], id, status);
    } else {
      assert Mark(holds, id, status)[..n] == holds[..n];
    }
  }

  lemma HeldAppend(holds: seq<Hold>, hold: Hold, wallet: nat)
    requires hold.status == ACTIVE
    ensures Held(holds + [hold], wallet) == Held(holds, wallet) + if hold.wallet == wallet then hold.amount else 0
  {
  }

  lemma PaymentsAppend(rows: seq<Row>, row: Row, id: nat)
    ensures Payments(rows + [row], id) == Payments(rows, id) + if row.capture == Some(id) then [row] else []
    ensures Moved(rows + [row], id) == Moved(rows, id) + if row.wallet == id then row.after - row.before else 0
  {
  }

  lemma {:induction false} NoPayments(rows: seq<Row>, id: nat)
    requires forall i | 0 <= i < |rows| :: rows[i].capture != Some(id)
    ensures Payments(rows, id) == []
    decreases |rows|
  {
    if rows != [] {
      NoPayments(rows[..|rows| - 1], id);
    }
  }

  lemma {:induction false} NotMoved(rows: seq<Row>, wallet: nat)
    requires forall i | 0 <= i < |rows| :: rows[i].wallet != wallet
    ensures Moved(rows, wallet) == 0
    decreases |rows|
  {
    if rows != [] {
      NotMoved(rows[..|rows| - 1], wallet);
    }
  }

  /* ---------- every step keeps the invariant ---------- */

  /** A transaction's own move keeps the invariant when it takes only locks that it has or that are free. */
  lemma OwnStepKeeps(w: World, txn: nat, t: Txn)
    requires Inv(w) && Sound(w, t)
    requires forall wallet: nat | LocksWallet(w.holds, t, wallet) ::
               (txn in w.txns && LocksWallet(w.holds, w.txns[txn], wallet)) || WalletFree(w, wallet)
    requires forall id: nat | LocksHold(t, id) :: (txn in w.txns && LocksHold(w.txns[txn], id)) || HoldFree(w, id)
    ensures Inv(With(w, txn, t))
  {
    var w' := With(w, txn, t);
    forall id: nat | id < |w'.holds|
      ensures HoldSound(w', id)
    {
      assert HoldSound(w, id);
    }
    assert forall i | 0 <= i < |w.rows| :: RowSound(w, w.rows[i]);
    assert forall s | s in w'.txns && s != txn :: Sound(w, w.txns[s]);
    OwnLocks(w, txn, t);
  }

  lemma OwnLocks(w: World, txn: nat, t: Txn)
    requires Exclusive(w.holds, w.txns)
    requires forall wallet: nat | LocksWallet(w.holds, t, wallet) ::
               (txn in w.txns && LocksWallet(w.holds, w.txns[txn], wallet)) || WalletFree(w, wallet)
    requires forall id: nat | LocksHold(t, id) :: (txn in w.txns && LocksHold(w.txns[txn], id)) || HoldFree(w, id)
    ensures Exclusive(w.holds, w.txns[txn := t])
  {
  }

  /** A row posted to a wallet that no other transaction has locked. */
  lemma PostKeepsOthers(w: World, wallet: nat, after: int, capture: Option<nat>, t: Txn)
    requires wallet < |w.wallets| && Sound(w, t) && !LocksWallet(w.holds, t, wallet)
    ensures Sound(Post(w, wallet, after, capture), t)
  {
  }

  lemma PostMoves(w: World, wallet: nat, after: int, capture: Option<nat>)
    requires wallet < |w.wallets|
    requires forall id: nat | id < |w.wallets| :: w.wallets[id].balance == Moved(w.rows, id)
    ensures var w' := Post(w, wallet, after, capture);
            forall id: nat | id < |w'.wallets| :: w'.wallets[id].balance == Moved(w'.rows, id)
  {
  }

  /** Posting that pays no hold, by transaction `txn` or on a free wallet, keeps the invariant. */
  lemma PostKeeps(w: World, wallet: nat, after: int)
    requires Inv(w) && wallet < |w.wallets| && WalletFree(w, wallet)
    ensures Inv(Post(w, wallet, after, None))
  {
    var w' := Post(w, wallet, after, None);
    PostMoves(w, wallet, after, None);
    forall id: nat | id < |w'.holds|
      ensures HoldSound(w', id)
    {
      assert HoldSound(w, id);
      PaymentsAppend(w.rows, Row(wallet, w.wallets[wallet].balance, after, None), id);
    }
    forall t | t in w'.txns
      ensures Sound(w', w'.txns[t])
    {
      PostKeepsOthers(w, wallet, after, None, w.txns[t]);
    }
    assert forall i | 0 <= i < |w.rows| :: RowSound(w, w.rows[i]);
  }

  /** Ending a transaction releases its locks. */
  lemma EndKeeps(w: World, txn: nat, result: Result)
    requires Inv(w)
    ensures Inv(With(w, txn, Done(result)))
  {
    OwnStepKeeps(w, txn, Done(result));
  }

  /** With its transaction ended, a locked wallet is free. */
  lemma EndFrees(w: World, txn: nat, wallet: nat, result: Result)
    requires Exclusive(w.holds, w.txns) && txn in w.txns && LocksWallet(w.holds, w.txns[txn], wallet)
    ensures WalletFree(With(w, txn, Done(result)), wallet)
  {
  }

  lemma ReserveCommitKeeps(w: World, txn: nat)
    requires Inv(w) && txn in w.txns && w.txns[txn].Reserving?
    ensures Inv(CommitOf(w, txn))
  {
    var hold := w.txns[txn].hold;
    assert Sound(w, w.txns[txn]);
    if FindHold(w.holds, hold.tenant, hold.key).Some? {
      EndKeeps(w, txn, Refused);
    } else {
      var v := With(w, txn, Done(Reserved(|w.holds|)));
      EndKeeps(w, txn, Reserved(|w.holds|));
      EndFrees(w, txn, hold.wallet, Reserved(|w.holds|));
      AddHoldKeeps(v, hold);
    }
  }

  lemma AddHoldKeeps(w: World, hold: Hold)
    requires Inv(w) && hold.wallet < |w.wallets| && WalletFree(w, hold.wallet) && hold.status == ACTIVE
             && hold.amount > 0
    requires hold.tenant == w.wallets[hold.wallet].tenant && FindHold(w.holds, hold.tenant, hold.key).None?
    ensures Inv(w.(holds := w.holds + [hold]))
  {
    var w' := w.(holds := w.holds + [hold]);
    assert forall i | 0 <= i < |w.rows| :: RowSound(w, w.rows[i]);
    NoPayments(w.rows, |w.holds|);
    forall id: nat | id < |w'.holds|
      ensures HoldSound(w', id)
    {
      assert id < |w.holds| ==> HoldSound(w, id);
    }
    forall t | t in w'.txns
      ensures Sound(w', w'.txns[t])
    {
      AddHoldKeepsOthers(w, hold, w.txns[t]);
    }
    assert forall t | t in w.txns :: Fitting(w, w.txns[t]);
    forall s, t, wallet: nat | s in w.txns && t in w.txns && LocksWallet(w'.holds, w.txns[s], wallet)
    && LocksWallet(w'.holds, w.txns[t], wallet)
      ensures s == t
    {
      assert LocksWallet(w.holds, w.txns[s], wallet) && LocksWallet(w.holds, w.txns[t], wallet);
    }
  }

  lemma AddHoldKeepsOthers(w: World, hold: Hold, t: Txn)
    requires Sound(w, t) && !LocksWallet(w.holds, t, hold.wallet) && hold.status == ACTIVE
    ensures Sound(w.(holds := w.holds + [hold]), t)
  {
  }

  lemma DebitCommitKeeps(w: World, txn: nat)
    requires Inv(w) && txn in w.txns && w.txns[txn].Debiting?
    ensures Inv(CommitOf(w, txn))
  {
    var t := w.txns[txn];
    assert Sound(w, t);
    var row := Row(t.wallet, w.wallets[t.wallet].balance, t.balance - t.amount, None);
    var v := With(w, txn, Done(Paid(row)));
    EndKeeps(w, txn, Paid(row));
    EndFrees(w, txn, t.wallet, Paid(row));
    PostKeeps(v, t.wallet, t.balance - t.amount);
    assert Post(v, t.wallet, t.balance - t.amount, None) == CommitOf(w, txn);
  }

  /** Ending an ACTIVE hold that nobody has locked; with a payment when it is captured. */
  lemma MarkKeepsOthers(w: World, id: nat, status: Status, t: Txn)
    requires id < |w.holds| && w.holds[id].status == ACTIVE && status != ACTIVE && w.holds[id].amount > 0
    requires Sound(w, t) && !LocksHold(t, id)
    ensures Sound(w.(holds := Mark(w.holds, id, status)), t)
  {
    if t.Reserving? {
      HeldAfterMark(w.holds, id, status, t.hold.wallet);
    } else if t.Debiting? {
      HeldAfterMark(w.holds, id, status, t.wallet);
    }
  }

  lemma MarkKeepsLocks(w: World, id: nat, status: Status)
    requires id < |w.holds| && Exclusive(w.holds, w.txns)
    ensures Exclusive(Mark(w.holds, id, status), w.txns)
  {
    var holds := Mark(w.holds, id, status);
    forall s, t, wallet: nat | s in w.txns && t in w.txns && LocksWallet(holds, w.txns[s], wallet)
    && LocksWallet(holds, w.txns[t], wallet)
      ensures s == t
    {
      assert LocksWallet(w.holds, w.txns[s], wallet) && LocksWallet(w.holds, w.txns[t], wallet);
    }
  }

  lemma MarkReleasedKeeps(w: World, id: nat)
    requires Inv(w) && id < |w.holds| && w.holds[id].status == ACTIVE && HoldFree(w, id)
    ensures Inv(w.(holds := Mark(w.holds, id, RELEASED)))
  {
    var w' := w.(holds := Mark(w.holds, id, RELEASED));
    forall i: nat | i < |w'.holds|
      ensures HoldSound(w', i)
    {
      assert HoldSound(w, i);
    }
    forall t | t in w'.txns
      ensures Sound(w', w'.txns[t])
    {
      assert HoldSound(w, id);
      MarkKeepsOthers(w, id, RELEASED, w.txns[t]);
    }
    MarkKeepsLocks(w, id, RELEASED);
    assert forall i | 0 <= i < |w.rows| :: RowSound(w, w.rows[i]);
  }

  lemma ReleaseCommitKeeps(w: World, txn: nat)
    requires Inv(w) && txn in w.txns && w.txns[txn].Releasing?
    ensures Inv(CommitOf(w, txn))
  {
    var id := w.txns[txn].id;
    assert Sound(w, w.txns[txn]) && LocksHold(w.txns[txn], id);
    EndKeeps(w, txn, Freed);
    MarkReleasedKeeps(With(w, txn, Done(Freed)), id);
  }

  /** The world after the hold is paid and marked in one commit. */
  function PaidOff(w: World, id: nat): World
    requires id < |w.holds| && w.holds[id].wallet < |w.wallets|
  {
    var wallet := w.holds[id].wallet;
    Post(w, wallet, w.wallets[wallet].balance - w.holds[id].amount, Some(id)).(holds := Mark(w.holds, id, CAPTURED))
  }

  lemma PayKeepsHold(w: World, id: nat, i: nat)
    requires id < |w.holds| && w.holds[id].status == ACTIVE && w.holds[id].wallet < |w.wallets|
    requires i < |w.holds| && HoldSound(w, i)
    ensures HoldSound(PaidOff(w, id), i)
  {
  }

  lemma PayKeepsOthers(w: World, id: nat, t: Txn)
    requires id < |w.holds| && w.holds[id].status == ACTIVE && w.holds[id].amount > 0
             && w.holds[id].wallet < |w.wallets|
    requires Sound(w, t) && !LocksHold(t, id) && !LocksWallet(w.holds, t, w.holds[id].wallet)
    ensures Sound(PaidOff(w, id), t)
  {
    var wallet := w.holds[id].wallet;
    var after := w.wallets[wallet].balance - w.holds[id].amount;
    PostKeepsOthers(w, wallet, after, Some(id), t);
    MarkKeepsOthers(Post(w, wallet, after, Some(id)), id, CAPTURED, t);
  }

  lemma PayKeeps(w: World, id: nat)
    requires Inv(w) && id < |w.holds| && w.holds[id].status == ACTIVE && HoldFree(w, id)
    requires w.holds[id].wallet < |w.wallets| && WalletFree(w, w.holds[id].wallet)
    ensures Inv(PaidOff(w, id))
  {
    var w' := PaidOff(w, id);
    PostMoves(w, w.holds[id].wallet, w.wallets[w.holds[id].wallet].balance - w.holds[id].amount, Some(id));
    assert HoldSound(w, id);
    forall i: nat | i < |w'.holds|
      ensures HoldSound(w', i)
    {
      PayKeepsHold(w, id, i);
    }
    forall t | t in w'.txns
      ensures Sound(w', w'.txns[t])
    {
      PayKeepsOthers(w, id, w.txns[t]);
    }
    MarkKeepsLocks(w, id, CAPTURED);
    assert forall i | 0 <= i < |w.rows| :: RowSound(w, w.rows[i]);
  }

  lemma CaptureCommitKeeps(w: World, txn: nat)
    requires Inv(w) && txn in w.txns && w.txns[txn].Capturing?
    ensures Inv(CommitOf(w, txn))
  {
    var t := w.txns[txn];
    assert Sound(w, t) && HoldSound(w, t.id) && LocksHold(t, t.id);
    var wallet := w.holds[t.id].wallet;
    assert LocksWallet(w.holds, t, wallet);
    var row := Row(wallet, w.wallets[wallet].balance, t.balance - w.holds[t.id].amount, Some(t.id));
    EndKeeps(w, txn, Paid(row));
    EndFrees(w, txn, wallet, Paid(row));
    PayKeeps(With(w, txn, Done(Paid(row))), t.id);
    assert CommitOf(w, txn).txns == w.txns[txn := Done(Paid(row))];
  }

  lemma OpenKeeps(w: World, e: Event)
    requires Inv(w) && (e.Open? || e.SetActive?)
    ensures Inv(Next(w, e))
  {
    var w' := Next(w, e);
    assert forall i | 0 <= i < |w.rows| :: RowSound(w, w.rows[i]);
    NotMoved(w.rows, |w.wallets|);
    forall id: nat | id < |w'.holds|
      ensures HoldSound(w', id)
    {
      assert HoldSound(w, id);
    }
    forall t | t in w'.txns
      ensures Sound(w', w'.txns[t])
    {
      assert Sound(w, w.txns[t]);
    }
  }

  lemma StartKeeps(w: World, e: Event)
    requires Inv(w) && (e.Reserve? || e.Debit?)
    ensures Inv(Next(w, e))
  {
    var w' := Next(w, e);
    if w' != w {
      OwnStepKeeps(w, e.txn, w'.txns[e.txn]);
    }
  }

  lemma HoldStepKeeps(w: World, e: Event)
    requires Inv(w) && (e.Capture? || e.Release? || e.LockForDebit? || e.Rollback?)
    ensures Inv(Next(w, e))
  {
    var w' := Next(w, e);
    if w' != w {
      if e.Capture? || e.Release? {
        assert HoldSound(w, e.id);
      } else {
        assert Sound(w, w.txns[e.txn]);
      }
      OwnStepKeeps(w, e.txn, w'.txns[e.txn]);
    }
  }

  lemma NextKeeps(w: World, e: Event)
    requires Inv(w)
    ensures Inv(Next(w, e))
  {
    match e
    case Open(_) => OpenKeeps(w, e);
    case SetActive(_, _) => OpenKeeps(w, e);
    case Credit(wallet, amount) =>
      if Next(w, e) != w { PostKeeps(w, wallet, w.wallets[wallet].balance + amount); }
    case ReverseTopUp(wallet, amount) =>
      if Next(w, e) != w { PostKeeps(w, wallet, w.wallets[wallet].balance - amount); }
    case Adjust(wallet, target) =>
      if Next(w, e) != w { PostKeeps(w, wallet, target); }
    case Commit(txn) =>
      if txn in w.txns && Fitting(w, w.txns[txn]) {
        match w.txns[txn] {
          case Reserving(_, _) => ReserveCommitKeeps(w, txn);
          case Debiting(_, _, _) => DebitCommitKeeps(w, txn);
          case Capturing(_, _) => CaptureCommitKeeps(w, txn);
          case Releasing(_) => ReleaseCommitKeeps(w, txn);
          case _ =>
        }
      }
    case Reserve(_, _, _, _) => StartKeeps(w, e);
    case Debit(_, _, _) => StartKeeps(w, e);
    case _ => HoldStepKeeps(w, e);
  }

  /** Every run: locks exclude each other, decisions stay valid, and CAPTURED means paid once. */
  lemma {:induction false} RunKeeps(events: seq<Event>)
    ensures Inv(Run(EMPTY, events))
    decreases |events|
  {
    if events != [] {
      var before := events[..|events| - 1];
      RunKeeps(before);
      NextKeeps(Run(EMPTY, before), events[|events| - 1]);
    }
  }

  /* ---------- what it promises ---------- */

  lemma CommitCovers(w: World, txn: nat)
    requires Inv(w) && AllCovered(w) && txn in w.txns && Fitting(w, w.txns[txn])
    ensures AllCovered(CommitOf(w, txn))
  {
    var w', t := CommitOf(w, txn), w.txns[txn];
    assert Sound(w, t);
    if t.Capturing? || t.Releasing? {
      assert HoldSound(w, t.id);
    }
    forall wallet: nat | wallet < |w'.wallets|
      ensures Covered(w', wallet)
    {
      assert Covered(w, wallet);
      if t.Reserving? {
        HeldAppend(w.holds, t.hold, wallet);
      } else if t.Capturing? {
        HeldAfterMark(w.holds, t.id, CAPTURED, wallet);
      } else if t.Releasing? {
        HeldAfterMark(w.holds, t.id, RELEASED, wallet);
      }
    }
  }

  lemma NextCovers(w: World, e: Event)
    requires Inv(w) && AllCovered(w) && Considerate(w, e)
    ensures AllCovered(Next(w, e))
  {
    var w' := Next(w, e);
    if e.Commit? {
      if w' != w { CommitCovers(w, e.txn); }
    } else {
      forall wallet: nat | wallet < |w'.wallets|
        ensures Covered(w', wallet)
      {
        assert wallet < |w.wallets| ==> Covered(w, wallet);
        if e.Open? && wallet == |w.wallets| {
          forall i | 0 <= i < |w.holds|
            ensures w.holds[i].wallet != wallet
          {
            assert HoldSound(w, i);
          }
          NothingHeld(w.holds, wallet);
        }
      }
    }
  }

  lemma {:induction false} NothingHeld(holds: seq<Hold>, wallet: nat)
    requires forall i | 0 <= i < |holds| :: holds[i].wallet != wallet
    ensures Held(holds, wallet) == 0
    decreases |holds|
  {
    if holds != [] {
      NothingHeld(holds[..|holds| - 1], wallet);
    }
  }

  /** Booked balances cover the ACTIVE holds throughout every interleaving of reservations, captures,
      releases, debits and credits, as long as reversals and adjustments leave held funds alone. */
  lemma {:induction false} BookedCoversHolds(events: seq<Event>)
    requires AlwaysConsiderate(events)
    ensures AllCovered(Run(EMPTY, events))
    decreases |events|
  {
    if events != [] {
      var n := |events| - 1;
      var before := events[..n];
      assert forall k | 0 <= k < n :: before[..k] == events[..k] && before[k] == events[k];
      BookedCoversHolds(before);
      RunKeeps(before);
      assert Considerate(Run(EMPTY, events[..n]), events[n]);
      NextCovers(Run(EMPTY, before), events[n]);
    }
  }

  /** A capture moves booked and held funds together: what is available stays, in every wallet. */
  lemma CaptureKeepsAvailable(events: seq<Event>, txn: nat, wallet: nat)
    requires var w := Run(EMPTY, events); txn in w.txns && w.txns[txn].Capturing? && wallet < |w.wallets|
    ensures var w := Run(EMPTY, events);
            var w' := Next(w, Commit(txn));
            && txn in w'.txns && w'.txns[txn].Done? && w'.txns[txn].result.Paid?
            && |w'.wallets| == |w.wallets| && Available(w', wallet) == Available(w, wallet)
            && w.txns[txn].id < |w'.holds| && w'.holds[w.txns[txn].id].status == CAPTURED
  {
    RunKeeps(events);
    var w := Run(EMPTY, events);
    var id := w.txns[txn].id;
    assert Sound(w, w.txns[txn]) && HoldSound(w, id);
    HeldAfterMark(w.holds, id, CAPTURED, wallet);
  }

  /** The debit inside a capture is refused only for an inactive wallet or an uncovered balance; it
      always finds its funds while the wallet is covered. */
  lemma CaptureFindsFunds(events: seq<Event>, txn: nat)
    requires var w := Run(EMPTY, events); txn in w.txns && w.txns[txn].Marking?
    ensures var w := Run(EMPTY, events);
            && Fitting(w, w.txns[txn])
            && (WalletFree(w, w.holds[w.txns[txn].id].wallet) ==>
                  (Next(w, LockForDebit(txn)).txns[txn].Capturing? <==>
                   w.wallets[w.holds[w.txns[txn].id].wallet].active && Covered(w, w.holds[w.txns[txn].id].wallet)))
  {
    RunKeeps(events);
    var w := Run(EMPTY, events);
    var id := w.txns[txn].id;
    assert Sound(w, w.txns[txn]) && HoldSound(w, id);
    HeldAfterMark(w.holds, id, CAPTURED, w.holds[id].wallet);
  }

  /** While reversals and adjustments leave held funds alone, a capture that has marked its hold always goes through:
      its debit finds the funds as soon as the wallet is free, unless the wallet is frozen, and its commit pays. */
  lemma {:induction false} CaptureGoesThrough(events: seq<Event>, txn: nat)
    requires AlwaysConsiderate(events)
    requires var w := Run(EMPTY, events);
             && txn in w.txns && w.txns[txn].Marking? && Fitting(w, w.txns[txn])
             && w.wallets[w.holds[w.txns[txn].id].wallet].active && WalletFree(w, w.holds[w.txns[txn].id].wallet)
    ensures var w := Run(EMPTY, events);
            var w' := Next(Next(w, LockForDebit(txn)), Commit(txn));
            var id := w.txns[txn].id;
            && txn in w'.txns && w'.txns[txn].Done? && w'.txns[txn].result.Paid?
            && id < |w'.holds| && w'.holds[id].status == CAPTURED
  {
    BookedCoversHolds(events);
    CaptureFindsFunds(events, txn);
    RunKeeps(events);
    var w := Run(EMPTY, events);
    assert Covered(w, w.holds[w.txns[txn].id].wallet);
  }

  /** On every run a CAPTURED hold has exactly one debit, for its amount and from its wallet; any
      other hold has none; and a key names at most one hold. */
  lemma CapturedExactlyOnce(events: seq<Event>, id: nat)
    requires id < |Run(EMPTY, events).holds|
    ensures var w := Run(EMPTY, events);
            && (w.holds[id].status == CAPTURED <==> |Payments(w.rows, id)| == 1)
            && (w.holds[id].status != CAPTURED <==> Payments(w.rows, id) == [])
            && (w.holds[id].status == CAPTURED ==>
                  var row := Payments(w.rows, id)[0];
                  row.wallet == w.holds[id].wallet && row.before - row.after == w.holds[id].amount)
            && (forall other: nat | other < |w.holds| && other != id ::
                  !(w.holds[other].tenant == w.holds[id].tenant && w.holds[other].key == w.holds[id].key))
  {
    RunKeeps(events);
    assert HoldSound(Run(EMPTY, events), id);
  }

  lemma RunSnoc(w: World, events: seq<Event>, e: Event)
    ensures Run(w, events + [e]) == Next(Run(w, events), e)
  {
  }

  lemma NextKeepsEnded(w: World, e: Event, id: nat)
    requires Inv(w) && id < |w.holds| && w.holds[id].status != ACTIVE
    ensures id < |Next(w, e).holds| && Next(w, e).holds[id] == w.holds[id]
  {
  }

  lemma {:induction false} EndedHoldsStayFrom(w: World, events: seq<Event>, id: nat)
    requires Inv(w) && id < |w.holds| && w.holds[id].status != ACTIVE
    ensures Inv(Run(w, events)) && id < |Run(w, events).holds| && Run(w, events).holds[id] == w.holds[id]
    decreases |events|
  {
    if events != [] {
      var n := |events| - 1;
      EndedHoldsStayFrom(w, events[..n], id);
      NextKeeps(Run(w, events[..n]), events[n]);
      NextKeepsEnded(Run(w, events[..n]), events[n], id);
    }
  }

  /** CAPTURED and RELEASED are final. */
  lemma EndedHoldsStay(before: seq<Event>, after: seq<Event>, id: nat)
    requires id < |Run(EMPTY, before).holds| && Run(EMPTY, before).holds[id].status != ACTIVE
    ensures var w := Run(Run(EMPTY, before), after);
            id < |w.holds| && w.holds[id] == Run(EMPTY, before).holds[id]
  {
    RunKeeps(before);
    EndedHoldsStayFrom(Run(EMPTY, before), after, id);
  }

  /** The check that the two other operations lack: a top-up reversal or an adjustment that goes
      through leaves its wallet covered exactly when it spares the held funds. */
  lemma UncoveredExactlyWhen(w: World, e: Event)
    requires e.ReverseTopUp? || e.Adjust?
    requires e.wallet < |w.wallets| && Next(w, e) != w
    ensures |Next(w, e).wallets| == |w.wallets| && (Covered(Next(w, e), e.wallet) <==> Considerate(w, e))
  {
  }

  /** An example: 100 booked, 80 of it on hold, 50 reversed. */
  const HOLD := Hold(1, 0, 80, "order", ACTIVE)
  const OPENED := World([Wallet(1, 0, true)], [], [], map[])
  const FUNDED := World([Wallet(1, 100, true)], [], [Row(0, 0, 100, None)], map[])
  const RESERVING := FUNDED.(txns := map[0 := Reserving(HOLD, 100)])
  const RESERVED := FUNDED.(holds := [HOLD], txns := map[0 := Done(Reserved(0))])
  const REVERSED := RESERVED.(wallets := [Wallet(1, 50, true)], rows := [Row(0, 0, 100, None), Row(0, 100, 50, None)])
  const MARKED := REVERSED.(txns := map[0 := Done(Reserved(0)), 1 := Marking(0)])

  lemma ExampleHold()
    ensures Next(EMPTY, Open(1)) == OPENED && Next(OPENED, Credit(0, 100)) == FUNDED
    ensures Next(FUNDED, Reserve(0, 0, 80, "order")) == RESERVING
  {
  }

  lemma ExampleCommit()
    ensures Next(RESERVING, Commit(0)) == RESERVED
  {
  }

  lemma ExampleReversal()
    ensures Held([HOLD], 0) == 80 && Next(RESERVED, ReverseTopUp(0, 50)) == REVERSED
    ensures Next(REVERSED, Capture(1, 0)) == MARKED
  {
  }

  lemma ExampleCapture()
    ensures Next(MARKED, LockForDebit(1)).holds == [HOLD]
            && Next(MARKED, LockForDebit(1)).wallets == [Wallet(1, 50, true)]
    ensures 1 in Next(MARKED, LockForDebit(1)).txns && Next(MARKED, LockForDebit(1)).txns[1] == Done(Refused)
  {
    ExampleReversal();
    HeldAfterMark([HOLD], 0, CAPTURED, 0);
  }

  /** A reversal of funds that are on hold goes through, and the capture that follows is refused. */
  lemma {:induction false} ReversalTakesHeldFunds() returns (events: seq<Event>)
    ensures var w := Run(EMPTY, events);
            && |w.wallets| == 1 && w.wallets[0].active && |w.holds| == 1 && w.holds[0].status == ACTIVE
            && Held(w.holds, 0) == 80 && w.wallets[0].balance == 50 && 1 in w.txns && w.txns[1] == Done(Refused)
    ensures ReverseTopUp(0, 50) in events && LockForDebit(1) in events
  {
    ExampleHold();
    ExampleCommit();
    ExampleReversal();
    ExampleCapture();
    var w, next := EMPTY, [Open(1), Credit(0, 100), Reserve(0, 0, 80, "order"), Commit(0), ReverseTopUp(0, 50),
                           Capture(1, 0)];
    events := RunOf(next, [EMPTY, OPENED, FUNDED, RESERVING, RESERVED, REVERSED, MARKED]);
    RunSnoc(EMPTY, events, LockForDebit(1));
    events := events + [LockForDebit(1)];
    assert next[4] in events;
  }

  /** A run given by the worlds it passes through. */
  lemma {:induction false} RunOf(next: seq<Event>, worlds: seq<World>) returns (events: seq<Event>)
    requires |worlds| == |next| + 1 && worlds[0] == EMPTY
    requires forall i | 0 <= i < |next| :: Next(worlds[i], next[i]) == worlds[i + 1]
    ensures events == next && Run(EMPTY, events) == worlds[|next|]
    decreases |next|
  {
    events := next;
    if next != [] {
      var n := |next| - 1;
      var front := RunOf(next[..n], worlds[..|next|]);
      RunSnoc(EMPTY, next[..n], next[n]);
      assert next == next[..n] + [next[n]];
    }
  }
}
