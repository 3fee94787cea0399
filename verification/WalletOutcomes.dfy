/** What each wallet operation decides and writes, and that its answer stays true on every run. */
module WalletOutcomes {
  import opened Common
  import opened WalletHolds

  /* ---------- what is held ---------- */

  /** An ACTIVE hold takes its amount from what is available in its wallet alone, and gives it back when it ends. */
  lemma HoldsTakeAndGive(holds: seq<Hold>, hold: Hold, id: nat, status: Status, wallet: nat)
    requires hold.status == ACTIVE && id < |holds| && holds[id].status == ACTIVE && status != ACTIVE
    ensures Held(holds + [hold], wallet) - Held(holds, wallet) == if hold.wallet == wallet then hold.amount else 0
    ensures Held(holds, wallet) - Held(holds[id := holds[id].(status := status)], wallet)
            == if holds[id].wallet == wallet then holds[id].amount else 0
  {
    HeldAppend(holds, hold, wallet);
    HeldAfterMark(holds, id, status, wallet);
  }

  /* ---------- decisions ---------- */

  /** A debit goes ahead exactly when the amount is positive, the wallet active and the amount available; nothing but
      the transaction changes yet. */
  lemma DebitDecides(w: World, txn: nat, wallet: nat, amount: int)
    requires txn !in w.txns && wallet < |w.wallets| && WalletFree(w, wallet)
    ensures Next(w, Debit(txn, wallet, amount)) == w.(txns := w.txns[txn :=
              if amount > 0 && w.wallets[wallet].active && amount <= w.wallets[wallet].balance - Held(w.holds, wallet)
              then Debiting(wallet, amount, w.wallets[wallet].balance) else Done(Refused)])
  {
  }

  /** The hold that a wallet's tenant already has under this key. */
  ghost predicate HoldsKey(w: World, wallet: nat, key: string, id: nat) {
    && wallet < |w.wallets| && id < |w.holds| && w.holds[id].tenant == w.wallets[wallet].tenant
    && w.holds[id].key == key
  }

  /** A reservation of a new key goes ahead exactly when the amount is positive and at most all that is available; one
      of a used key is answered exactly when wallet and amount are the same. */
  lemma ReserveDecides(w: World, txn: nat, wallet: nat, amount: int, key: string)
    requires Inv(w) && txn !in w.txns && wallet < |w.wallets| && WalletFree(w, wallet)
    ensures var w' := Next(w, Reserve(txn, wallet, amount, key));
            && txn in w'.txns && w' == w.(txns := w.txns[txn := w'.txns[txn]])
            && (amount <= 0 ==> w'.txns[txn] == Done(Refused))
            && (amount > 0 ==> forall id: nat | HoldsKey(w, wallet, key, id) ::
                  w'.txns[txn] == Done(if w.holds[id].wallet == wallet && w.holds[id].amount == amount then Reserved(id)
                                       else Refused))
            && (amount > 0 && (forall id: nat :: !HoldsKey(w, wallet, key, id)) ==>
                  w'.txns[txn] == if amount <= w.wallets[wallet].balance - Held(w.holds, wallet)
                                  then Reserving(Hold(w.wallets[wallet].tenant, wallet, amount, key, ACTIVE),
                                                 w.wallets[wallet].balance)
                                  else Done(Refused))
  {
    var found := FindHold(w.holds, w.wallets[wallet].tenant, key);
    if found.Some? {
      assert HoldsKey(w, wallet, key, found.value);
      forall id: nat | HoldsKey(w, wallet, key, id)
        ensures id == found.value
      {
      }
    }
  }

  /** An ACTIVE hold can be released; a RELEASED one is answered, and a CAPTURED one refused. */
  lemma ReleaseDecides(w: World, txn: nat, id: nat)
    requires txn !in w.txns && id < |w.holds| && HoldFree(w, id)
    ensures Next(w, Release(txn, id)) == w.(txns := w.txns[txn :=
              match w.holds[id].status
              case ACTIVE => Releasing(id)
              case RELEASED => Done(Freed)
              case CAPTURED => Done(Refused)])
  {
  }

  /* ---------- commits, among any other transactions ---------- */

  /** A debit that went ahead takes its amount from its wallet, with one row that says so, and touches nothing else. */
  lemma DebitCommits(w: World, txn: nat, wallet: nat, amount: int, balance: int)
    requires Inv(w) && txn in w.txns && w.txns[txn] == Debiting(wallet, amount, balance)
    ensures var w' := Next(w, Commit(txn));
            && wallet < |w.wallets| && |w'.wallets| == |w.wallets| && |w'.rows| == |w.rows| + 1
            && w'.wallets == w.wallets[wallet := w.wallets[wallet].(balance := w'.wallets[wallet].balance)]
            && w.wallets[wallet].balance - w'.wallets[wallet].balance == amount
            && w'.rows[..|w.rows|] == w.rows && w'.holds == w.holds
            && var row := w'.rows[|w.rows|];
               && row.wallet == wallet && row.before == w.wallets[wallet].balance && row.before - row.after == amount
               && row.capture == None && w'.txns == w.txns[txn := Done(Paid(row))]
  {
    assert Sound(w, w.txns[txn]);
  }

  /** A reservation that went ahead adds one ACTIVE hold, unless its key was taken meanwhile; no balance moves. */
  lemma ReserveCommits(w: World, txn: nat, hold: Hold, balance: int)
    requires Inv(w) && txn in w.txns && w.txns[txn] == Reserving(hold, balance)
    ensures var w' := Next(w, Commit(txn));
            && hold.wallet < |w.wallets| && w'.wallets == w.wallets && w'.rows == w.rows
            && (if exists id: nat :: HoldsKey(w, hold.wallet, hold.key, id)
                then w' == w.(txns := w.txns[txn := Done(Refused)])
                else w'.holds == w.holds + [hold] && w'.txns == w.txns[txn := Done(Reserved(|w.holds|))])
            && hold.status == ACTIVE && hold.amount <= w.wallets[hold.wallet].balance - Held(w.holds, hold.wallet)
  {
    assert Sound(w, w.txns[txn]);
    var found := FindHold(w.holds, hold.tenant, hold.key);
    if found.Some? {
      assert HoldsKey(w, hold.wallet, hold.key, found.value);
    }
  }

  /** A release that went ahead ends its hold, and the amount held is available again. */
  lemma ReleaseCommits(w: World, txn: nat, id: nat)
    requires Inv(w) && txn in w.txns && w.txns[txn] == Releasing(id)
    ensures var w' := Next(w, Commit(txn));
            && id < |w.holds| && w.holds[id].wallet < |w.wallets| && w'.wallets == w.wallets && w'.rows == w.rows
            && w'.holds == w.holds[id := w.holds[id].(status := RELEASED)]
            && w'.txns == w.txns[txn := Done(Freed)]
            && Available(w', w.holds[id].wallet) == Available(w, w.holds[id].wallet) + w.holds[id].amount
  {
    assert Sound(w, w.txns[txn]);
    HeldAfterMark(w.holds, id, RELEASED, w.holds[id].wallet);
  }

  /** A capture that went ahead takes the held amount from the wallet, with one row that names the hold, and ends it. */
  lemma CaptureCommits(w: World, txn: nat, id: nat, balance: int)
    requires Inv(w) && txn in w.txns && w.txns[txn] == Capturing(id, balance)
    ensures var w' := Next(w, Commit(txn));
            && id < |w.holds| && w.holds[id].wallet < |w.wallets| && |w'.wallets| == |w.wallets|
            && |w'.rows| == |w.rows| + 1
            && var wallet, row := w.holds[id].wallet, w'.rows[|w.rows|];
               && w'.wallets == w.wallets[wallet := w'.wallets[wallet]]
               && w.wallets[wallet].balance - w'.wallets[wallet].balance == w.holds[id].amount
               && w'.rows[..|w.rows|] == w.rows && w'.holds == w.holds[id := w.holds[id].(status := CAPTURED)]
               && row == Row(wallet, w.wallets[wallet].balance, w'.wallets[wallet].balance, Some(id))
               && w'.txns == w.txns[txn := Done(Paid(row))]
  {
    assert Sound(w, w.txns[txn]);
  }

  /** Bookings: a credit adds, a reversal takes what is booked, held or not, and an adjustment sets the balance. */
  lemma BookingsMove(w: World, wallet: nat, amount: int)
    requires wallet < |w.wallets| && WalletFree(w, wallet)
    ensures Booked(w, Next(w, Credit(wallet, amount)), wallet, if amount > 0 then amount else 0, amount > 0)
    ensures var goes := amount > 0 && amount <= w.wallets[wallet].balance;
            Booked(w, Next(w, ReverseTopUp(wallet, amount)), wallet, if goes then -amount else 0, goes)
    ensures Booked(w, Next(w, Adjust(wallet, amount)), wallet,
                   if amount >= 0 then amount - w.wallets[wallet].balance else 0, amount >= 0)
  {
  }

  /** The wallet moved by `delta`, with a row if it was booked. */
  ghost predicate Booked(w: World, w': World, wallet: nat, delta: int, booked: bool)
    requires wallet < |w.wallets|
  {
    && w'.holds == w.holds && w'.txns == w.txns
    && w'.wallets == w.wallets[wallet := w.wallets[wallet].(balance := w.wallets[wallet].balance + delta)]
    && w'.rows == w.rows + if booked then [Row(wallet, w.wallets[wallet].balance,
                                               w.wallets[wallet].balance + delta, None)] else []
  }

  /** Every other step of a transaction, and every refusal, leaves wallets, holds and rows alone. */
  lemma OnlyCommitsWrite(w: World, e: Event)
    requires e.Reserve? || e.Debit? || e.Capture? || e.LockForDebit? || e.Release? || e.Rollback?
             || (e.Commit? && e.txn in w.txns && (w.txns[e.txn].Done? || w.txns[e.txn].Marking?))
    ensures Next(w, e) == w.(txns := Next(w, e).txns)
  {
  }

  /* ---------- answers on every run ---------- */

  /** What each transaction was started for. */
  ghost function Asked(events: seq<Event>): map<nat, Event>
    decreases |events|
  {
    if events == [] then map[]
    else
      var before, e := events[..|events| - 1], events[|events| - 1];
      Noted(Run(EMPTY, before), e, Asked(before))
  }

  ghost function Noted(w: World, e: Event, asked: map<nat, Event>): map<nat, Event> {
    if (e.Reserve? || e.Debit? || e.Capture? || e.Release?) && e.txn !in w.txns then asked[e.txn := e] else asked
  }

  /** What a transaction is doing, or has answered, is what it was asked for, and the tables show it. */
  ghost predicate True(w: World, t: Txn, ask: Event) {
    match ask
    case Debit(_, wallet, amount) =>
      || t == Done(Refused) || (t.Debiting? && t.wallet == wallet && t.amount == amount)
      || (&& t.Done? && t.result.Paid? && t.result.row in w.rows
          && t.result.row.wallet == wallet && t.result.row.before - t.result.row.after == amount > 0
          && t.result.row.capture == None)
    case Reserve(_, wallet, amount, key) =>
      || t == Done(Refused)
      || (t.Reserving? && t.hold.wallet == wallet && t.hold.amount == amount && t.hold.key == key)
      || (t.Done? && t.result.Reserved? && HeldFor(w, t.result.hold, wallet, amount, key))
    case Capture(_, id) =>
      || t == Done(Refused) || ((t.Marking? || t.Capturing?) && t.id == id)
      || (&& t.Done? && t.result.Paid? && t.result.row in w.rows && t.result.row.capture == Some(id)
          && id < |w.holds| && w.holds[id].status == CAPTURED
          && t.result.row.before - t.result.row.after == w.holds[id].amount)
    case Release(_, id) =>
      || t == Done(Refused) || (t.Releasing? && t.id == id)
      || (t == Done(Freed) && id < |w.holds| && w.holds[id].status == RELEASED)
    case _ => false
  }

  ghost predicate HeldFor(w: World, id: nat, wallet: nat, amount: int, key: string) {
    id < |w.holds| && w.holds[id].wallet == wallet && w.holds[id].amount == amount && w.holds[id].key == key
  }

  /** Rows stay and holds only end. */
  ghost predicate Onward(w: World, w': World) {
    && |w.rows| <= |w'.rows| && w'.rows[..|w.rows|] == w.rows && |w.holds| <= |w'.holds|
    && forall id | 0 <= id < |w.holds| ::
         && w'.holds[id] == w.holds[id].(status := w'.holds[id].status)
         && (w.holds[id].status != ACTIVE ==> w'.holds[id].status == w.holds[id].status)
  }

  lemma StepIsOnward(w: World, e: Event)
    requires Inv(w)
    ensures Onward(w, Next(w, e))
  {
    if e.Commit? && e.txn in w.txns {
      assert Sound(w, w.txns[e.txn]);
    }
  }

  lemma TrueStays(w: World, w': World, t: Txn, ask: Event)
    requires True(w, t, ask) && Onward(w, w')
    ensures True(w', t, ask)
  {
    assert forall r | r in w.rows :: r in w'.rows;
  }

  /** A transaction other than the one that moves. */
  lemma OthersWait(w: World, e: Event, t: nat)
    requires t in Next(w, e).txns && (t !in w.txns || Next(w, e).txns[t] != w.txns[t])
    ensures (e.Reserve? || e.Debit? || e.Capture? || e.LockForDebit? || e.Release? || e.Commit? || e.Rollback?)
            && e.txn == t
  {
  }

  lemma StartIsTrue(w: World, e: Event)
    requires Inv(w) && (e.Reserve? || e.Debit? || e.Capture? || e.Release?) && e.txn !in w.txns
    requires e.txn in Next(w, e).txns
    ensures True(Next(w, e), Next(w, e).txns[e.txn], e)
  {
    if e.Capture? {
      assert HoldSound(w, e.id);
      if w.holds[e.id].status == CAPTURED {
        PaymentNames(w.rows, e.id);
      }
    }
  }

  lemma {:induction false} PaymentNames(rows: seq<Row>, id: nat)
    ensures forall i | 0 <= i < |Payments(rows, id)| ::
              Payments(rows, id)[i] in rows && Payments(rows, id)[i].capture == Some(id)
    decreases |rows|
  {
    if rows != [] {
      PaymentNames(rows[..|rows| - 1], id);
    }
  }

  lemma MoveIsTrue(w: World, e: Event, ask: Event)
    requires Inv(w) && (e.LockForDebit? || e.Commit? || e.Rollback?) && e.txn in w.txns && True(w, w.txns[e.txn], ask)
    ensures e.txn in Next(w, e).txns && True(Next(w, e), Next(w, e).txns[e.txn], ask)
  {
    var t := w.txns[e.txn];
    assert Sound(w, t);
    if e.Commit? {
      match t
      case Debiting(wallet, amount, balance) => DebitCommits(w, e.txn, wallet, amount, balance);
      case Reserving(hold, balance) => ReserveCommits(w, e.txn, hold, balance);
      case Releasing(id) => ReleaseCommits(w, e.txn, id);
      case Capturing(id, balance) => CaptureCommits(w, e.txn, id, balance);
      case _ =>
    }
  }

  ghost predicate AllTrue(w: World, asked: map<nat, Event>) {
    forall t | t in w.txns :: t in asked && True(w, w.txns[t], asked[t])
  }

  lemma StepIsTrue(w: World, e: Event, asked: map<nat, Event>, t: nat)
    requires Inv(w) && AllTrue(w, asked) && t in Next(w, e).txns
    ensures t in Noted(w, e, asked) && True(Next(w, e), Next(w, e).txns[t], Noted(w, e, asked)[t])
  {
    StepIsOnward(w, e);
    if t in w.txns && Next(w, e).txns[t] == w.txns[t] {
      TrueStays(w, Next(w, e), w.txns[t], asked[t]);
    } else {
      OthersWait(w, e, t);
      if t in w.txns {
        MoveIsTrue(w, e, asked[t]);
      } else {
        StartIsTrue(w, e);
      }
    }
  }

  /** On every run, whatever else commits: a debit that answered Paid has a row that took exactly its amount from its
      wallet; a capture has the row of its hold, which is CAPTURED; a reservation has its hold; and a released hold is
      RELEASED. */
  lemma {:induction false} AnswersAreTrue(events: seq<Event>)
    ensures AllTrue(Run(EMPTY, events), Asked(events))
    decreases |events|
  {
    if events != [] {
      var before, e := events[..|events| - 1], events[|events| - 1];
      AnswersAreTrue(before);
      RunKeeps(before);
      forall t | t in Run(EMPTY, events).txns
        ensures t in Asked(events) && True(Run(EMPTY, events), Run(EMPTY, events).txns[t], Asked(events)[t])
      {
        StepIsTrue(Run(EMPTY, before), e, Asked(before), t);
      }
    }
  }
}
