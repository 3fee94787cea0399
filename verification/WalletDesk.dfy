/** The wallet and hold services as they work: rows updated under locks, one statement after the
    other. A call that runs without interruption is the steps of one transaction in `WalletHolds`. */
module WalletDesk {
  import opened Common
  import opened WalletHolds

  class Desk {
    var wallets: seq<Wallet>
    var holds: seq<Hold>
    var rows: seq<Row>
    ghost var txns: map<nat, Txn>

    ghost function View(): World
      reads this
    {
      World(wallets, holds, rows, txns)
    }

    /** The sum over ACTIVE holds of a wallet. */
    method ActiveTotal(wallet: nat) returns (total: int)
      ensures total == Held(holds, wallet)
    {
      total := 0;
      for i := 0 to |holds|
        invariant total == Held(holds[..i], wallet)
      {
        assert holds[..i + 1][..i] == holds[..i];
        if holds[i].wallet == wallet && holds[i].status == ACTIVE {
          total := total + holds[i].amount;
        }
      }
      assert holds[..|holds|] == holds;
    }

    /** Reserves funds once per key, only out of what is available. */
    method ReserveFunds(ghost txn: nat, wallet: nat, amount: int, key: string) returns (result: Result)
      requires wallet < |wallets| && txn !in txns && WalletFree(View(), wallet)
      modifies this`holds, this`txns
      ensures View() == Next(Next(old(View()), Reserve(txn, wallet, amount, key)), Commit(txn))
      ensures txn in txns && txns[txn] == Done(result)
      ensures var used := FindHold(old(holds), wallets[wallet].tenant, key);
              && (used.None? ==> (result.Reserved? <==>
                                    amount > 0 && amount <= wallets[wallet].balance - Held(old(holds), wallet)))
              && (used.None? && result.Reserved? ==>
                    holds == old(holds) + [Hold(wallets[wallet].tenant, wallet, amount, key, ACTIVE)]
                    && result.hold == |old(holds)| && Held(holds, wallet) == Held(old(holds), wallet) + amount)
              && (used.Some? ==> (result == Reserved(used.value) <==>
                                    && amount > 0 && holds[used.value].wallet == wallet
                                    && holds[used.value].amount == amount))
              && (used.Some? || !result.Reserved? ==> holds == old(holds))
    {
      ghost var w := View();
      result := Refused;
      if amount > 0 {
        var tenant := wallets[wallet].tenant;
        var found := FindHold(holds, tenant, key);
        if found.Some? {
          if holds[found.value].wallet == wallet && holds[found.value].amount == amount {
            result := Reserved(found.value);
          }
        } else {
          var held := ActiveTotal(wallet);
          if wallets[wallet].balance - held >= amount {
            var hold := Hold(tenant, wallet, amount, key, ACTIVE);
            assert Next(w, Reserve(txn, wallet, amount, key)) == With(w, txn, Reserving(hold, wallets[wallet].balance));
            HeldAppend(holds, hold, wallet);
            holds := holds + [hold];
            result := Reserved(|holds| - 1);
          }
        }
      }
      txns := txns[txn := Done(result)];
    }

    /** Debits a wallet out of what is available. */
    method DebitWallet(ghost txn: nat, wallet: nat, amount: int) returns (result: Result)
      requires wallet < |wallets| && txn !in txns && WalletFree(View(), wallet)
      modifies this`wallets, this`rows, this`txns
      ensures View() == Next(Next(old(View()), Debit(txn, wallet, amount)), Commit(txn))
      ensures txn in txns && txns[txn] == Done(result)
      ensures result.Paid? <==>
              amount > 0 && old(wallets)[wallet].active && amount <= old(wallets)[wallet].balance - Held(holds, wallet)
      ensures result.Paid? ==>
                && result.row.wallet == wallet && result.row.before == old(wallets)[wallet].balance
                && result.row.before - result.row.after == amount && rows == old(rows) + [result.row]
                && wallets == old(wallets)[wallet := old(wallets)[wallet].(balance := result.row.after)]
      ensures !result.Paid? ==> result == Refused && wallets == old(wallets) && rows == old(rows)
    {
      ghost var w := View();
      result := Refused;
      if amount > 0 && wallets[wallet].active {
        var held := ActiveTotal(wallet);
        var before := wallets[wallet].balance;
        if before - held >= amount {
          assert Next(w, Debit(txn, wallet, amount)) == With(w, txn, Debiting(wallet, amount, before));
          wallets := wallets[wallet := wallets[wallet].(balance := before - amount)];
          rows := rows + [Row(wallet, before, before - amount, None)];
          result := Paid(Row(wallet, before, before - amount, None));
        }
      }
      txns := txns[txn := Done(result)];
    }

    /** Marks an ACTIVE hold, then debits its wallet; an error in the debit undoes the mark. */
    method CaptureActive(ghost txn: nat, id: nat) returns (result: Result)
      requires id < |holds| && holds[id].wallet < |wallets| && holds[id].status == ACTIVE
      modifies this`wallets, this`holds, this`rows, this`txns
      ensures View() == AfterCapture(old(View()), txn, id) && txns[txn] == Done(result)
      ensures var wallet, amount := old(holds)[id].wallet, old(holds)[id].amount;
              && (result.Paid? <==>
                    && old(wallets)[wallet].active
                    && Held(old(holds), wallet) <= old(wallets)[wallet].balance)
              && (result.Paid? ==>
                    && result.row == Row(wallet, old(wallets)[wallet].balance, old(wallets)[wallet].balance - amount,
                                         Some(id))
                    && rows == old(rows) + [result.row]
                    && holds == old(holds)[id := old(holds)[id].(status := CAPTURED)]
                    && wallets == old(wallets)[wallet := old(wallets)[wallet].(balance := result.row.after)])
              && (!result.Paid? ==>
                    result == Refused && wallets == old(wallets) && holds == old(holds) && rows == old(rows))
    {
      var unmarked, wallet := holds, holds[id].wallet;
      HeldAfterMark(holds, id, CAPTURED, wallet);
      holds := holds[id := holds[id].(status := CAPTURED)];
      var held := ActiveTotal(wallet);
      var before, amount := wallets[wallet].balance, holds[id].amount;
      if wallets[wallet].active && before - held >= amount {
        wallets := wallets[wallet := wallets[wallet].(balance := before - amount)];
        rows := rows + [Row(wallet, before, before - amount, Some(id))];
        result := Paid(Row(wallet, before, before - amount, Some(id)));
      } else {
        holds := unmarked;
        result := Refused;
      }
      txns := txns[txn := Done(result)];
    }

    /** Captures a hold once; capturing again is answered with the debit that paid for it. */
    method CaptureHold(ghost txn: nat, id: nat) returns (result: Result)
      requires id < |holds| && holds[id].wallet < |wallets| && txn !in txns
      requires HoldFree(View(), id) && WalletFree(View(), holds[id].wallet)
      modifies this`wallets, this`holds, this`rows, this`txns
      ensures View() == Next(Next(Next(old(View()), Capture(txn, id)), LockForDebit(txn)), Commit(txn))
      ensures txn in txns && txns[txn] == Done(result)
      ensures result.Paid? <==>
              match old(holds)[id].status
              case ACTIVE => && old(wallets)[old(holds)[id].wallet].active
                             && Held(old(holds), old(holds)[id].wallet) <= old(wallets)[old(holds)[id].wallet].balance
              case CAPTURED => Payments(old(rows), id) != []
              case RELEASED => false
      ensures old(holds)[id].status == ACTIVE && result.Paid? ==>
                && rows == old(rows) + [result.row] && result.row.capture == Some(id)
                && result.row.before - result.row.after == old(holds)[id].amount
                && holds == old(holds)[id := old(holds)[id].(status := CAPTURED)]
      ensures old(holds)[id].status != ACTIVE || !result.Paid? ==>
                wallets == old(wallets) && holds == old(holds) && rows == old(rows)
    {
      if holds[id].status == ACTIVE {
        CapturePass(View(), txn, id);
        result := CaptureActive(txn, id);
        return;
      }
      EndedPass(View(), txn, id);
      result := Refused;
      if holds[id].status == CAPTURED {
        var paid := Payments(rows, id);
        if paid != [] {
          result := Paid(paid[0]);
        }
      }
      txns := txns[txn := Done(result)];
    }

    /** Releases an ACTIVE hold; releasing again is answered. */
    method ReleaseHold(ghost txn: nat, id: nat) returns (result: Result)
      requires id < |holds| && holds[id].wallet < |wallets| && txn !in txns && HoldFree(View(), id)
      modifies this`holds, this`txns
      ensures View() == Next(Next(old(View()), Release(txn, id)), Commit(txn))
      ensures txn in txns && txns[txn] == Done(result)
      ensures result == (if old(holds)[id].status == CAPTURED then Refused else Freed)
      ensures result == Freed <==> holds[id].status == RELEASED
      ensures holds == old(holds)[id := old(holds)[id].(status := holds[id].status)]
      ensures old(holds)[id].status == ACTIVE ==>
                Held(holds, holds[id].wallet) == Held(old(holds), holds[id].wallet) - holds[id].amount
    {
      ghost var w := View();
      result := if holds[id].status == CAPTURED then Refused else Freed;
      if holds[id].status == ACTIVE {
        assert Next(w, Release(txn, id)) == With(w, txn, Releasing(id));
        HeldAfterMark(holds, id, RELEASED, holds[id].wallet);
        holds := holds[id := holds[id].(status := RELEASED)];
      }
      txns := txns[txn := Done(result)];
    }
  }

  /** With the hold marked and nobody else in the way, the capture takes the wallet lock and decides. */
  lemma CaptureLocks(w: World, txn: nat, id: nat)
    requires id < |w.holds| && w.holds[id].wallet < |w.wallets| && txn !in w.txns && WalletFree(w, w.holds[id].wallet)
    ensures Next(With(w, txn, Marking(id)), LockForDebit(txn)) == With(w, txn, ContinueCapture(w, id))
  {
    var v := With(w, txn, Marking(id));
    assert WalletFree(v, w.holds[id].wallet);
    assert v.txns[txn := ContinueCapture(w, id)] == w.txns[txn := ContinueCapture(w, id)];
  }

  /** The row of a capture's debit. */
  function CaptureRow(w: World, id: nat): Row
    requires id < |w.holds| && w.holds[id].wallet < |w.wallets|
  {
    var h := w.holds[id];
    Row(h.wallet, w.wallets[h.wallet].balance, w.wallets[h.wallet].balance - h.amount, Some(id))
  }

  /** A capture of an ACTIVE hold in one go. */
  function AfterCapture(w: World, txn: nat, id: nat): World
    requires id < |w.holds| && w.holds[id].wallet < |w.wallets|
  {
    if ContinueCapture(w, id).Done? then With(w, txn, Done(Refused))
      else With(PaidOff(w, id), txn, Done(Paid(CaptureRow(w, id))))
  }

  lemma CapturePass(w: World, txn: nat, id: nat)
    requires id < |w.holds| && w.holds[id].wallet < |w.wallets| && txn !in w.txns && w.holds[id].status == ACTIVE
    requires HoldFree(w, id) && WalletFree(w, w.holds[id].wallet)
    ensures Next(Next(Next(w, Capture(txn, id)), LockForDebit(txn)), Commit(txn)) == AfterCapture(w, txn, id)
  {
    assert Next(w, Capture(txn, id)) == With(w, txn, Marking(id));
    CaptureLocks(w, txn, id);
    CaptureCommits(w, txn, id);
  }

  /** A hold that has ended is answered at once. */
  lemma EndedPass(w: World, txn: nat, id: nat)
    requires id < |w.holds| && txn !in w.txns && w.holds[id].status != ACTIVE && HoldFree(w, id)
    ensures Next(Next(Next(w, Capture(txn, id)), LockForDebit(txn)), Commit(txn)) == With(w, txn, StartCapture(w, id))
  {
  }

  lemma CaptureCommits(w: World, txn: nat, id: nat)
    requires id < |w.holds| && w.holds[id].wallet < |w.wallets|
    ensures Next(With(w, txn, ContinueCapture(w, id)), Commit(txn)) == AfterCapture(w, txn, id)
  {
    var v, end := With(w, txn, ContinueCapture(w, id)), AfterCapture(w, txn, id);
    if ContinueCapture(w, id).Capturing? {
      assert CommitOf(v, txn).txns == end.txns;
    }
  }
}
