/** The asset ledger under concurrent transactions. Each transaction credits one wallet: it locks
    the wallet, looks its idempotency key up, writes, and commits or rolls back. Transactions
    interleave at every step, see only committed rows, and meet at the unique index on
    (tenant, key). Amounts count units of 10^-18. */
module AssetLedger {
  import opened Common
  import Identifiers

  datatype Call = Call(wallet: nat, amount: int, key: string)
  datatype Wallet = Wallet(tenant: nat, balance: int)
  datatype Row = Row(tenant: nat, key: string, wallet: nat, amount: int, before: int, after: int)

  /** A transaction: `balance` is its in-memory copy of the wallet it has locked. */
  datatype Txn =
    | Locked(call: Call, balance: int)
    | Missed(call: Call, balance: int)
    | Written(call: Call, balance: int, row: Row)
    | Replaying(call: Call, row: Row)
    | Credited(call: Call, row: Row)
    | Refused

  datatype World = World(wallets: map<nat, Wallet>, rows: seq<Row>, txns: map<nat, Txn>)

  const EMPTY := World(map[], [], map[])

  datatype Event =
    | Open(wallet: nat, tenant: nat)
    | Begin(txn: nat, call: Call)
    | Lookup(txn: nat)
    | Insert(txn: nat)
    | Commit(txn: nat)
    | Rollback(txn: nat)

  /** The idempotency key as stored; `None` is a value error. */
  function StoredKey(key: string): (r: Option<string>)
    ensures r.Some? ==> 1 <= |r.value| <= 180 && Identifiers.Trimmed(r.value)
  {
    var t := Identifiers.Strip(key);
    Identifiers.StripTrims(key);
    if t == "" || |t| > 180 then None else Some(t)
  }

  predicate Acceptable(call: Call) {
    call.amount > 0 && StoredKey(call.key).Some?
  }

  /** The row lock on its wallet that a transaction keeps until it ends. */
  predicate Holds(t: Txn, wallet: nat) {
    (t.Locked? || t.Missed? || t.Written? || t.Replaying?) && t.call.wallet == wallet
  }

  ghost predicate Free(w: World, wallet: nat) {
    forall t | t in w.txns :: !Holds(w.txns[t], wallet)
  }

  /** The index entry is taken by an uncommitted row: an insertion waits for that transaction. */
  ghost predicate InFlight(w: World, tenant: nat, key: string) {
    exists t | t in w.txns :: w.txns[t].Written? && w.txns[t].row.tenant == tenant && w.txns[t].row.key == key
  }

  /** The committed row of (tenant, key). */
  function Find(rows: seq<Row>, tenant: nat, key: string): (r: Option<Row>)
    ensures r.Some? ==> r.value in rows && r.value.tenant == tenant && r.value.key == key
    ensures r.None? ==> forall i | 0 <= i < |rows| :: !(rows[i].tenant == tenant && rows[i].key == key)
  {
    if rows == [] then None
    else if rows[0].tenant == tenant && rows[0].key == key then Some(rows[0])
    else Find(rows[1..], tenant, key)
  }

  predicate SameSemantics(row: Row, call: Call) {
    row.wallet == call.wallet && row.amount == call.amount
  }

  function Resume(row: Row, call: Call): Txn {
    if SameSemantics(row, call) then Replaying(call, row) else Refused
  }

  function NewRow(w: World, t: Txn): Row
    requires t.Missed? && Acceptable(t.call) && t.call.wallet in w.wallets
  {
    Row(w.wallets[t.call.wallet].tenant, StoredKey(t.call.key).value, t.call.wallet, t.call.amount,
        t.balance, t.balance + t.call.amount)
  }

  /** Known transactions name known wallets; established with the invariant below. */
  predicate Usable(w: World, t: Txn) {
    !t.Refused? ==> Acceptable(t.call) && t.call.wallet in w.wallets
  }

  /** One atomic step. A step that has to wait, or that its transaction is not at, changes nothing. */
  ghost function Next(w: World, e: Event): World {
    match e
    case Open(wallet, tenant) =>
      if wallet in w.wallets then w else w.(wallets := w.wallets[wallet := Wallet(tenant, 0)])
    case Begin(txn, call) =>
      if txn in w.txns then w
      else if !Acceptable(call) || call.wallet !in w.wallets then w.(txns := w.txns[txn := Refused])
      else if !Free(w, call.wallet) then w
      else w.(txns := w.txns[txn := Locked(call, w.wallets[call.wallet].balance)])
    case Lookup(txn) =>
      if txn !in w.txns || !w.txns[txn].Locked? || !Usable(w, w.txns[txn]) then w
      else
        var t := w.txns[txn];
        var found := Find(w.rows, w.wallets[t.call.wallet].tenant, StoredKey(t.call.key).value);
        w.(txns := w.txns[txn := if found.Some? then Resume(found.value, t.call) else Missed(t.call, t.balance)])
    case Insert(txn) =>
      if txn !in w.txns || !w.txns[txn].Missed? || !Usable(w, w.txns[txn]) then w
      else
        var t := w.txns[txn];
        var row := NewRow(w, t);
        var found := Find(w.rows, row.tenant, row.key);
        if InFlight(w, row.tenant, row.key) then w
        else w.(txns := w.txns[txn := if found.Some? then Resume(found.value, t.call)
                                 else Written(t.call, t.balance, row)])
    case Commit(txn) =>
      if txn !in w.txns || !Usable(w, w.txns[txn]) then w
      else
        var t := w.txns[txn];
        if t.Written? then
          World(w.wallets[t.call.wallet := w.wallets[t.call.wallet].(balance := t.row.after)], w.rows + [t.row],
                w.txns[txn := Credited(t.call, t.row)])
        else if t.Replaying? then w.(txns := w.txns[txn := Credited(t.call, t.row)])
        else w
    case Rollback(txn) =>
      if txn in w.txns && !w.txns[txn].Credited? then w.(txns := w.txns[txn := Refused]) else w
  }

  ghost function Run(w: World, events: seq<Event>): World
    decreases |events|
  {
    if events == [] then w else Next(Run(w, events[..|events| - 1]), events[|events| - 1])
  }

  /* ---------- the run invariant ---------- */

  /** What the rows of `wallet` add up to. */
  function Total(rows: seq<Row>, wallet: nat): int
    decreases |rows|
  {
    if rows == [] then 0
    else
      var last := rows[|rows| - 1];
      Total(rows[..|rows| - 1], wallet) + if last.wallet == wallet then last.amount else 0
  }

  ghost predicate KeysUnique(rows: seq<Row>) {
    forall i, j | 0 <= i < j < |rows| :: !(rows[i].tenant == rows[j].tenant && rows[i].key == rows[j].key)
  }

  /** Every row starts from what the earlier rows of its wallet add up to. */
  ghost predicate Chained(rows: seq<Row>) {
    forall i | 0 <= i < |rows| ::
      rows[i].amount > 0 && rows[i].before == Total(rows[..i], rows[i].wallet)
      && rows[i].after == rows[i].before + rows[i].amount
  }

  ghost predicate Balanced(w: World) {
    forall id | id in w.wallets :: w.wallets[id].balance == Total(w.rows, id)
  }

  /** The row is the one that `call` asks for. */
  ghost predicate Fits(w: World, call: Call, row: Row) {
    && Acceptable(call) && call.wallet in w.wallets && SameSemantics(row, call)
    && row.tenant == w.wallets[call.wallet].tenant && row.key == StoredKey(call.key).value
  }

  /** The copy of the locked balance is current, a written row continues it, and an answer is in the ledger. */
  ghost predicate Sound(w: World, t: Txn) {
    && Usable(w, t)
    && (t.Locked? || t.Missed? || t.Written? ==> t.balance == w.wallets[t.call.wallet].balance)
    && (t.Written? ==> Fits(w, t.call, t.row) && t.row.before == t.balance && t.row.after == t.balance + t.row.amount
                       && Find(w.rows, t.row.tenant, t.row.key).None?)
    && (t.Replaying? || t.Credited? ==> Fits(w, t.call, t.row) && t.row in w.rows)
  }

  /** A wallet is locked by one transaction at a time. */
  ghost predicate Exclusive(txns: map<nat, Txn>) {
    forall s, t, wallet | s in txns && t in txns && Holds(txns[s], wallet) && Holds(txns[t], wallet) :: s == t
  }

  /** Uncommitted rows differ in (tenant, key). */
  ghost predicate Apart(txns: map<nat, Txn>) {
    forall s, t | s in txns && t in txns && txns[s].Written? && txns[t].Written?
                  && txns[s].row.tenant == txns[t].row.tenant && txns[s].row.key == txns[t].row.key :: s == t
  }

  ghost predicate Inv(w: World) {
    && KeysUnique(w.rows) && Chained(w.rows) && Balanced(w)
    && (forall i | 0 <= i < |w.rows| ::
          w.rows[i].wallet in w.wallets && w.wallets[w.rows[i].wallet].tenant == w.rows[i].tenant)
    && (forall t | t in w.txns :: Sound(w, w.txns[t]))
    && Exclusive(w.txns) && Apart(w.txns)
  }

  lemma TotalOfUnknown(rows: seq<Row>, wallet: nat)
    requires forall i | 0 <= i < |rows| :: rows[i].wallet != wallet
    ensures Total(rows, wallet) == 0
    decreases |rows|
  {
  }

  lemma TotalAppend(rows: seq<Row>, row: Row, wallet: nat)
    ensures Total(rows + [row], wallet) == Total(rows, wallet) + if row.wallet == wallet then row.amount else 0
  {
  }

  /** Appending a row that continues its wallet keeps the ledger's shape. */
  lemma AppendKeeps(rows: seq<Row>, row: Row)
    requires KeysUnique(rows) && Chained(rows) && Find(rows, row.tenant, row.key).None?
    requires row.amount > 0 && row.before == Total(rows, row.wallet) && row.after == row.before + row.amount
    ensures KeysUnique(rows + [row]) && Chained(rows + [row])
  {
    var all := rows + [row];
    forall i | 0 <= i < |all|
      ensures all[i].amount > 0 && all[i].before == Total(all[..i], all[i].wallet)
              && all[i].after == all[i].before + all[i].amount
    {
      assert all[..i] == rows[..i];
      assert i == |rows| ==> rows[..i] == rows;
    }
  }

  lemma OpenKeeps(w: World, wallet: nat, tenant: nat)
    requires Inv(w)
    ensures Inv(Next(w, Open(wallet, tenant)))
  {
    if wallet !in w.wallets {
      TotalOfUnknown(w.rows, wallet);
      var w' := Next(w, Open(wallet, tenant));
      assert forall t | t in w'.txns :: Sound(w, w.txns[t]);
    }
  }

  /** Balances follow the appended row. */
  lemma CommitBalances(w: World, txn: nat)
    requires Balanced(w) && txn in w.txns && w.txns[txn].Written? && Sound(w, w.txns[txn])
    ensures Balanced(Next(w, Commit(txn)))
  {
  }

  /** Another transaction has another wallet locked and another key in flight. */
  lemma CommitKeepsOther(w: World, txn: nat, s: Txn)
    requires txn in w.txns && w.txns[txn].Written? && Sound(w, w.txns[txn]) && Sound(w, s)
    requires !Holds(s, w.txns[txn].call.wallet)
    requires s.Written? ==> !(s.row.tenant == w.txns[txn].row.tenant && s.row.key == w.txns[txn].row.key)
    ensures Sound(Next(w, Commit(txn)), s)
  {
  }

  lemma CommitOwns(w: World, txn: nat)
    requires txn in w.txns && w.txns[txn].Written? && Sound(w, w.txns[txn])
    requires forall i | 0 <= i < |w.rows| ::
               w.rows[i].wallet in w.wallets && w.wallets[w.rows[i].wallet].tenant == w.rows[i].tenant
    ensures var w' := Next(w, Commit(txn));
            forall i | 0 <= i < |w'.rows| ::
              w'.rows[i].wallet in w'.wallets && w'.wallets[w'.rows[i].wallet].tenant == w'.rows[i].tenant
  {
  }

  lemma CommitKeeps(w: World, txn: nat)
    requires Inv(w) && txn in w.txns && w.txns[txn].Written?
    ensures Inv(Next(w, Commit(txn)))
  {
    var t := w.txns[txn];
    var w' := Next(w, Commit(txn));
    assert Sound(w, t);
    AppendKeeps(w.rows, t.row);
    CommitBalances(w, txn);
    CommitOwns(w, txn);
    assert Holds(t, t.call.wallet);
    forall s | s in w'.txns
      ensures Sound(w', w'.txns[s])
    {
      if s != txn {
        assert Sound(w, w.txns[s]);
        CommitKeepsOther(w, txn, w.txns[s]);
      }
    }
  }

  /** A step that only changes one transaction, and takes no new lock or index entry, keeps the invariant. */
  lemma OwnStepKeeps(w: World, txn: nat, t: Txn)
    requires Inv(w) && Sound(w, t)
    requires forall wallet | Holds(t, wallet) :: (txn in w.txns && Holds(w.txns[txn], wallet)) || Free(w, wallet)
    requires t.Written? ==> !InFlight(w, t.row.tenant, t.row.key)
    ensures Inv(w.(txns := w.txns[txn := t]))
  {
    OwnStepExclusive(w, txn, t);
    assert Apart(w.txns[txn := t]);
    assert forall s | s in w.txns :: Sound(w, w.txns[s]);
  }

  lemma OwnStepExclusive(w: World, txn: nat, t: Txn)
    requires Exclusive(w.txns)
    requires forall wallet | Holds(t, wallet) :: (txn in w.txns && Holds(w.txns[txn], wallet)) || Free(w, wallet)
    ensures Exclusive(w.txns[txn := t])
  {
  }

  lemma BeginKeeps(w: World, txn: nat, call: Call)
    requires Inv(w)
    ensures Inv(Next(w, Begin(txn, call)))
  {
    var w' := Next(w, Begin(txn, call));
    if w' != w {
      OwnStepKeeps(w, txn, w'.txns[txn]);
    }
  }

  /** Looking up and inserting: the answer found is in the ledger, the row written is new. */
  lemma WriteKeeps(w: World, txn: nat, e: Event)
    requires Inv(w) && (e == Lookup(txn) || e == Insert(txn))
    ensures Inv(Next(w, e))
  {
    var w' := Next(w, e);
    if w' != w {
      assert Sound(w, w.txns[txn]);
      OwnStepKeeps(w, txn, w'.txns[txn]);
    }
  }

  /** Ending: a replay keeps its answer, a rollback keeps nothing. */
  lemma EndKeeps(w: World, txn: nat, e: Event)
    requires Inv(w) && (e == Commit(txn) || e == Rollback(txn))
    ensures Inv(Next(w, e))
  {
    var w' := Next(w, e);
    if w' != w {
      assert Sound(w, w.txns[txn]);
      if e.Commit? && w.txns[txn].Written? {
        CommitKeeps(w, txn);
      } else {
        OwnStepKeeps(w, txn, w'.txns[txn]);
      }
    }
  }

  lemma NextKeeps(w: World, e: Event)
    requires Inv(w)
    ensures Inv(Next(w, e))
  {
    match e
    case Open(wallet, tenant) => OpenKeeps(w, wallet, tenant);
    case Begin(txn, call) => BeginKeeps(w, txn, call);
    case Lookup(txn) => WriteKeeps(w, txn, e);
    case Insert(txn) => WriteKeeps(w, txn, e);
    case Commit(txn) => EndKeeps(w, txn, e);
    case Rollback(txn) => EndKeeps(w, txn, e);
  }

  lemma {:induction false} RunKeeps(events: seq<Event>)
    ensures Inv(Run(EMPTY, events))
    decreases |events|
  {
    if events != [] {
      var before := events[..|events| - 1];
      RunKeeps(before);
      NextKeeps(Run(EMPTY, before), events[|events| - 1]);
    }
  }

  /* ---------- what it promises ---------- */

  /** Rows `i` and `j` are neighbours in the ledger of their wallet. */
  ghost predicate Neighbours(rows: seq<Row>, i: int, j: int) {
    && 0 <= i < j < |rows| && rows[i].wallet == rows[j].wallet
    && forall k | i < k < j :: rows[k].wallet != rows[i].wallet
  }

  lemma {:induction false} TotalSkips(rows: seq<Row>, i: nat, j: nat, wallet: nat)
    requires i <= j <= |rows| && forall k | i <= k < j :: rows[k].wallet != wallet
    ensures Total(rows[..j], wallet) == Total(rows[..i], wallet)
    decreases j - i
  {
    if i < j {
      TotalSkips(rows, i, j - 1, wallet);
      assert rows[..j] == rows[..j - 1] + [rows[j - 1]];
      TotalAppend(rows[..j - 1], rows[j - 1], wallet);
    }
  }

  /** Neighbouring rows hand the balance on, and a wallet's first row starts at zero. */
  lemma ChainedMeansHandedOn(rows: seq<Row>)
    requires Chained(rows)
    ensures forall i, j | Neighbours(rows, i, j) :: rows[j].before == rows[i].after
    ensures forall i | 0 <= i < |rows| && (forall k | 0 <= k < i :: rows[k].wallet != rows[i].wallet) ::
              rows[i].before == 0
  {
    forall i, j | Neighbours(rows, i, j)
      ensures rows[j].before == rows[i].after
    {
      TotalSkips(rows, i + 1, j, rows[i].wallet);
      assert rows[..i + 1] == rows[..i] + [rows[i]];
      TotalAppend(rows[..i], rows[i], rows[i].wallet);
    }
    forall i | 0 <= i < |rows| && (forall k | 0 <= k < i :: rows[k].wallet != rows[i].wallet)
      ensures rows[i].before == 0
    {
      TotalSkips(rows, 0, i, rows[i].wallet);
    }
  }

  /** At every point of every interleaving each key has one row, each balance is the sum of its
      wallet's rows, and the rows of a wallet hand the balance on without a gap, starting at zero. */
  lemma LedgerIsAChain(events: seq<Event>)
    ensures var w := Run(EMPTY, events);
            && (forall i, j | 0 <= i < j < |w.rows| ::
                  !(w.rows[i].tenant == w.rows[j].tenant && w.rows[i].key == w.rows[j].key))
            && (forall id | id in w.wallets :: w.wallets[id].balance == Total(w.rows, id))
            && (forall i, j | Neighbours(w.rows, i, j) :: w.rows[j].before == w.rows[i].after)
            && (forall i | 0 <= i < |w.rows| && (forall k | 0 <= k < i :: w.rows[k].wallet != w.rows[i].wallet) ::
                  w.rows[i].before == 0)
            && (forall i | 0 <= i < |w.rows| :: w.rows[i].after == w.rows[i].before + w.rows[i].amount)
  {
    RunKeeps(events);
    ChainedMeansHandedOn(Run(EMPTY, events).rows);
  }

  /** The newest row of a wallet carries its balance. */
  lemma NewestCarriesBalance(events: seq<Event>, i: nat)
    requires i < |Run(EMPTY, events).rows|
    requires var rows := Run(EMPTY, events).rows; forall k | i < k < |rows| :: rows[k].wallet != rows[i].wallet
    ensures var w := Run(EMPTY, events);
            w.rows[i].wallet in w.wallets && w.wallets[w.rows[i].wallet].balance == w.rows[i].after
  {
    RunKeeps(events);
    NewestIsTotal(Run(EMPTY, events).rows, i);
  }

  lemma NewestIsTotal(rows: seq<Row>, i: nat)
    requires i < |rows| && Chained(rows) && forall k | i < k < |rows| :: rows[k].wallet != rows[i].wallet
    ensures Total(rows, rows[i].wallet) == rows[i].after
  {
    TotalSkips(rows, i + 1, |rows|, rows[i].wallet);
    assert rows[..|rows|] == rows;
    TotalThrough(rows, i);
  }

  lemma TotalThrough(rows: seq<Row>, i: nat)
    requires i < |rows| && rows[i].before == Total(rows[..i], rows[i].wallet)
    ensures Total(rows[..i + 1], rows[i].wallet) == rows[i].before + rows[i].amount
  {
    assert rows[..i + 1] == rows[..i] + [rows[i]];
    TotalAppend(rows[..i], rows[i], rows[i].wallet);
  }

  /** Two successful calls with one tenant and key credited the same row: the same wallet and amount,
      once, even when different wallets race for the key. */
  lemma OneCreditPerKey(events: seq<Event>, s: nat, t: nat)
    requires var w := Run(EMPTY, events);
             && s in w.txns && t in w.txns && w.txns[s].Credited? && w.txns[t].Credited?
             && w.txns[s].call.wallet in w.wallets && w.txns[t].call.wallet in w.wallets
             && w.wallets[w.txns[s].call.wallet].tenant == w.wallets[w.txns[t].call.wallet].tenant
             && StoredKey(w.txns[s].call.key) == StoredKey(w.txns[t].call.key)
    ensures var w := Run(EMPTY, events);
            && w.txns[s].row == w.txns[t].row && w.txns[s].row in w.rows
            && w.txns[s].call.wallet == w.txns[t].call.wallet && w.txns[s].call.amount == w.txns[t].call.amount
  {
    RunKeeps(events);
    var w := Run(EMPTY, events);
    assert Sound(w, w.txns[s]) && Sound(w, w.txns[t]);
    var i :| 0 <= i < |w.rows| && w.rows[i] == w.txns[s].row;
    var j :| 0 <= j < |w.rows| && w.rows[j] == w.txns[t].row;
    assert i == j;
  }

  /** A call is refused at once exactly when the amount is not positive, the key is blank or longer than 180 characters,
      or there is no such wallet; otherwise it waits for the wallet or has it locked. */
  lemma BegunExactlyWhen(w: World, txn: nat, call: Call)
    requires txn !in w.txns
    ensures var bad := || call.amount <= 0 || call.wallet !in w.wallets
                       || |Identifiers.Strip(call.key)| == 0 || |Identifiers.Strip(call.key)| > 180;
            && (bad ==> Next(w, Begin(txn, call)) == w.(txns := w.txns[txn := Refused]))
            && (!bad && Free(w, call.wallet) ==>
                  Next(w, Begin(txn, call)) == w.(txns := w.txns[txn := Locked(call, w.wallets[call.wallet].balance)]))
            && (!bad && !Free(w, call.wallet) ==> Next(w, Begin(txn, call)) == w)
  {
  }

  /** The committed row has the tenant and the key of the call. */
  ghost predicate Repeats(w: World, call: Call, row: Row) {
    && call.wallet in w.wallets && row in w.rows && row.tenant == w.wallets[call.wallet].tenant
    && row.key == Identifiers.Strip(call.key)
  }

  lemma RepeatFound(w: World, call: Call, row: Row)
    requires KeysUnique(w.rows) && Acceptable(call) && Repeats(w, call, row)
    ensures Find(w.rows, w.wallets[call.wallet].tenant, StoredKey(call.key).value) == Some(row)
  {
    var found := Find(w.rows, w.wallets[call.wallet].tenant, StoredKey(call.key).value);
    var i :| 0 <= i < |w.rows| && w.rows[i] == row;
    var j :| 0 <= j < |w.rows| && w.rows[j] == found.value;
    assert i == j;
  }

  /** On every run, a call whose key already has a row is answered with that row exactly when wallet and amount are the
      same, and refused otherwise, whether it finds the row at its lookup or only when it inserts; and the ledger stays
      as it is. */
  lemma {:induction false} RepeatAnsweredExactlyWhen(events: seq<Event>, txn: nat, row: Row)
    requires var w := Run(EMPTY, events);
             && txn in w.txns && (w.txns[txn].Locked? || w.txns[txn].Missed?) && Repeats(w, w.txns[txn].call, row)
             && (w.txns[txn].Missed? ==> !InFlight(w, row.tenant, row.key))
    ensures var w := Run(EMPTY, events);
            var call := w.txns[txn].call;
            var w1 := Next(w, if w.txns[txn].Locked? then Lookup(txn) else Insert(txn));
            var w2 := Next(w1, Commit(txn));
            && txn in w2.txns && w2.rows == w.rows && w2.wallets == w.wallets
            && (w2.txns[txn] == Credited(call, row) <==> row.wallet == call.wallet && row.amount == call.amount)
            && (w2.txns[txn] == Refused <==> !(row.wallet == call.wallet && row.amount == call.amount))
  {
    RunKeeps(events);
    var w := Run(EMPTY, events);
    assert Sound(w, w.txns[txn]);
    RepeatIsResumed(w, txn, row);
    ResumedEnds(w, txn, w.txns[txn].call, row);
  }

  /** A repeat finds its row, at its lookup or when it inserts. */
  lemma RepeatIsResumed(w: World, txn: nat, row: Row)
    requires KeysUnique(w.rows) && txn in w.txns && (w.txns[txn].Locked? || w.txns[txn].Missed?)
    requires Sound(w, w.txns[txn]) && Repeats(w, w.txns[txn].call, row)
    requires w.txns[txn].Missed? ==> !InFlight(w, row.tenant, row.key)
    ensures Next(w, if w.txns[txn].Locked? then Lookup(txn) else Insert(txn))
            == w.(txns := w.txns[txn := Resume(row, w.txns[txn].call)])
  {
    RepeatFound(w, w.txns[txn].call, row);
  }

  lemma ResumedEnds(w: World, txn: nat, call: Call, row: Row)
    requires Acceptable(call) && call.wallet in w.wallets
    ensures var w2 := Next(w.(txns := w.txns[txn := Resume(row, call)]), Commit(txn));
            && txn in w2.txns && w2.rows == w.rows && w2.wallets == w.wallets
            && w2.txns[txn] == if row.wallet == call.wallet && row.amount == call.amount then Credited(call, row)
                               else Refused
  {
  }

  /** A key without a row is looked for in vain, and its row is written once no other transaction has the key. */
  lemma FirstIsWritten(w: World, txn: nat)
    requires Inv(w) && txn in w.txns && (w.txns[txn].Locked? || w.txns[txn].Missed?)
    requires forall row | row in w.rows :: !Repeats(w, w.txns[txn].call, row)
    ensures var t := w.txns[txn];
            && t.call.wallet in w.wallets
            && (t.Locked? ==> Next(w, Lookup(txn)) == w.(txns := w.txns[txn := Missed(t.call, t.balance)]))
            && var tenant, key := w.wallets[t.call.wallet].tenant, Identifiers.Strip(t.call.key);
               (t.Missed? && !InFlight(w, tenant, key) ==>
                  Next(w, Insert(txn)) == w.(txns := w.txns[txn := Written(t.call, t.balance, Row(tenant, key,
                      t.call.wallet, t.call.amount, t.balance, t.balance + t.call.amount))]))
  {
    assert Sound(w, w.txns[txn]);
    var found := Find(w.rows, w.wallets[w.txns[txn].call.wallet].tenant, StoredKey(w.txns[txn].call.key).value);
    if found.Some? {
      assert Repeats(w, w.txns[txn].call, found.value);
    }
  }

  /** A commit of a new row raises its wallet's balance by the amount asked for and touches no other wallet. */
  lemma {:induction false} CommitCredits(events: seq<Event>, txn: nat)
    requires var w := Run(EMPTY, events); txn in w.txns && w.txns[txn].Written?
    ensures var w := Run(EMPTY, events);
            var call, w' := w.txns[txn].call, Next(w, Commit(txn));
            && call.wallet in w.wallets && call.wallet in w'.wallets && call.amount > 0
            && w'.wallets == w.wallets[call.wallet := w'.wallets[call.wallet]]
            && w'.wallets[call.wallet].balance == w.wallets[call.wallet].balance + call.amount
            && |w'.rows| == |w.rows| + 1 && w'.rows[..|w.rows|] == w.rows && Repeats(w', call, w'.rows[|w.rows|])
            && w'.rows[|w.rows|].wallet == call.wallet && w'.rows[|w.rows|].amount == call.amount
            && w'.rows[|w.rows|].before == w.wallets[call.wallet].balance
            && w'.txns == w.txns[txn := Credited(call, w'.rows[|w.rows|])]
  {
    RunKeeps(events);
    assert Sound(Run(EMPTY, events), Run(EMPTY, events).txns[txn]);
  }

  /** The ledger is append-only, so a success stays true. */
  lemma {:induction false} LedgerOnlyGrows(w: World, events: seq<Event>)
    ensures w.rows <= Run(w, events).rows
    decreases |events|
  {
    if events != [] {
      LedgerOnlyGrows(w, events[..|events| - 1]);
    }
  }

  lemma InsertMoves(w: World, txn: nat)
    requires txn in w.txns && w.txns[txn].Missed? && Usable(w, w.txns[txn])
    ensures var row := NewRow(w, w.txns[txn]);
            !InFlight(w, row.tenant, row.key) ==>
              txn in Next(w, Insert(txn)).txns && Next(w, Insert(txn)).txns[txn] != w.txns[txn]
  {
  }

  /** Waiting never deadlocks: whoever an insertion waits for can commit at once. */
  lemma {:induction false} WaitsOnlyForCommit(events: seq<Event>, txn: nat)
    requires var w := Run(EMPTY, events);
             && txn in w.txns && w.txns[txn].Missed? && Next(w, Insert(txn)) == w
    ensures var w := Run(EMPTY, events);
            exists other | other in w.txns :: other != txn && Next(w, Commit(other)).rows != w.rows
  {
    RunKeeps(events);
    var w := Run(EMPTY, events);
    assert Sound(w, w.txns[txn]);
    var row := NewRow(w, w.txns[txn]);
    InsertMoves(w, txn);
    var other :| other in w.txns && w.txns[other].Written? && w.txns[other].row.tenant == row.tenant
    && w.txns[other].row.key == row.key;
    assert Sound(w, w.txns[other]);
    assert |Next(w, Commit(other)).rows| == |w.rows| + 1;
  }
}
