/** The installation a bundle is restored into. */
module Destination {
  import opened Common
  import opened Layering
  import opened TenantBundle
  import opened TenantRestore

  /** Key columns survive the rewriting of a restore: neither a reference nor a secret column
      is among the columns that are quiesced, and the owner of a row is not a secret. */
  ghost predicate KeysSettled(schema: Schema) {
    && ID !in REWRITTEN
    && (forall i, fk | 0 <= i < |schema.tables| && fk in schema.tables[i].foreignKeys :: fk.column !in REWRITTEN)
    && (forall k, c | 0 <= k < |schema.secrets| && c in schema.secrets[k].columns :: c !in REWRITTEN)
    && (forall k | 0 <= k < |schema.secrets| :: TENANT_ID !in schema.secrets[k].columns)
  }

  /** The restored rows: fresh secret references, then quiesced. */
  ghost predicate Prepared(schema: Schema, payload: Payload, ns: string, activate: bool, data: map<string, seq<Row>>) {
    var done := SetOf(SlotsOf(schema.secrets, payload.tables));
    && data.Keys == payload.tables.Keys
    && (forall t | t in data :: |data[t]| == |payload.tables[t]|)
    && (forall t, i | t in data && 0 <= i < |data[t]| ::
          Quiesced(t, RelocatedRow(ns, payload.tables, done, t, i), activate) == Some(data[t][i]))
  }

  /** Every row of every table entered exactly once. */
  ghost predicate Complete(schema: Schema, data: map<string, seq<Row>>, batches: seq<Batch>, n: nat)
    requires n <= |schema.tables|
  {
    forall i | 0 <= i < n ::
      schema.tables[i].name in data && Entered(batches, schema.tables[i].name) == multiset(data[schema.tables[i].name])
  }

  ghost predicate SomeCycle(schema: Schema, tables: map<string, seq<Row>>) {
    exists i :: 0 <= i < |schema.tables| && schema.tables[i].name in tables
                && Cyclic(tables[schema.tables[i].name], schema.tables[i].SelfKeys())
  }

  /** Rows that agree on the id and on every foreign key. */
  ghost predicate SameKeys(table: Table, rows: seq<Row>, rows': seq<Row>) {
    |rows'| == |rows| && forall i | 0 <= i < |rows| :: SameRowKeys(table, rows[i], rows'[i])
  }

  ghost predicate SameRowKeys(table: Table, r: Row, r': Row) {
    && r'.Keys == r.Keys && (ID in r ==> r'[ID] == r[ID])
    && forall fk | fk in table.foreignKeys && fk.column in r :: r'[fk.column] == r[fk.column]
  }

  lemma PreparedKeepsKeys(schema: Schema, payload: Payload, ns: string, activate: bool, data: map<string, seq<Row>>,
                          n: nat)
    requires schema.WellFormed() && KeysSettled(schema) && Prepared(schema, payload, ns, activate, data)
    requires n < |schema.tables| && schema.tables[n].name in payload.tables
    ensures SameKeys(schema.tables[n], payload.tables[schema.tables[n].name], data[schema.tables[n].name])
  {
    var table := schema.tables[n];
    var rows := payload.tables[table.name];
    var slots := SlotsOf(schema.secrets, payload.tables);
    SlotsComplete(schema.secrets, payload.tables);
    forall i, c | 0 <= i < |rows| && (c == ID || exists fk :: fk in table.foreignKeys && fk.column == c)
      ensures Slot(table.name, i, c) !in slots
    {
    }
  }

  lemma SameIds(table: Table, rows: seq<Row>, rows': seq<Row>, id: Cell)
    requires SameKeys(table, rows, rows')
    ensures HasId(rows, id) <==> HasId(rows', id)
  {
  }

  lemma SameEdges(table: Table, rows: seq<Row>, rows': seq<Row>, a: Cell, b: Cell)
    requires SameKeys(table, rows, rows') && Edge(rows, table.SelfKeys(), a, b)
    ensures Edge(rows', table.SelfKeys(), a, b)
  {
  }

  lemma SameKeysSymmetric(table: Table, rows: seq<Row>, rows': seq<Row>)
    requires SameKeys(table, rows, rows')
    ensures SameKeys(table, rows', rows)
  {
  }

  /** Rewriting that keeps keys neither creates nor hides a cycle. */
  lemma SameCycles(table: Table, rows: seq<Row>, rows': seq<Row>)
    requires SameKeys(table, rows, rows') && Cyclic(rows, table.SelfKeys())
    ensures Cyclic(rows', table.SelfKeys())
  {
    var path :| Cycle(rows, table.SelfKeys(), path);
    forall i | 0 <= i < |path| - 1
      ensures Edge(rows', table.SelfKeys(), path[i], path[i + 1])
    {
      SameEdges(table, rows, rows', path[i], path[i + 1]);
    }
    assert Cycle(rows', table.SelfKeys(), path);
  }

  /** A validated table, rewritten or not, is ready for the layered insertion. */
  lemma ValidIsTabular(schema: Schema, payload: Payload, n: nat, rows: seq<Row>)
    requires schema.WellFormed() && Valid(schema, payload) && n < |schema.tables|
    requires SameKeys(schema.tables[n], payload.tables[schema.tables[n].name], rows)
    ensures Tabular(rows, schema.tables[n].SelfKeys())
  {
    var table := schema.tables[n];
    var source := payload.tables[table.name];
    assert RowsValid(table, source, payload.tenantId) && LinksValid(table, source, payload.tables);
    forall r | r in rows
      ensures ID in r && table.SelfKeys() <= r.Keys
    {
      var i :| 0 <= i < |rows| && rows[i] == r;
      assert SameRowKeys(table, source[i], rows[i]) && RowValid(table, source[i], payload.tenantId);
    }
    forall i, j | 0 <= i < j < |rows|
      ensures rows[i][ID] != rows[j][ID]
    {
      assert SameRowKeys(table, source[i], rows[i]) && SameRowKeys(table, source[j], rows[j]);
    }
    forall r, k | r in rows && k in table.SelfKeys()
      ensures Resolves(rows, r, k)
    {
      var i :| 0 <= i < |rows| && rows[i] == r;
      var fk :| fk in table.foreignKeys && fk.target == table.name && fk.column == k;
      assert SameRowKeys(table, source[i], rows[i]) && LinkValid(source[i], fk, payload.tables);
      SameIds(table, source, rows, r[k]);
    }
  }

  /** A reference to another table points at a row of an earlier one. */
  ghost predicate CrossLinked(schema: Schema, data: map<string, seq<Row>>, n: nat, r: Row, fk: ForeignKey)
    requires n < |schema.tables|
  {
    fk.column in r && (r[fk.column] == Null || exists m :: 0 <= m < n && schema.tables[m].name == fk.target
                                                           && fk.target in data && HasId(data[fk.target], r[fk.column]))
  }

  predicate Apart(schema: Schema, i: nat, j: nat) {
    i < |schema.tables| && j < |schema.tables| && schema.tables[i].name != schema.tables[j].name
  }

  ghost predicate NamesApart(schema: Schema) {
    forall i, j {:trigger Apart(schema, i, j)} | 0 <= i < j < |schema.tables| :: Apart(schema, i, j)
  }

  /** What the insertion of table `n` relies on. */
  ghost predicate Ready(schema: Schema, payload: Payload, data: map<string, seq<Row>>, n: nat)
    requires n < |schema.tables|
  {
    var table := schema.tables[n];
    && table.name in data && table.name in payload.tables
    && Tabular(data[table.name], table.SelfKeys())
    && (Cyclic(data[table.name], table.SelfKeys()) <==> Cyclic(payload.tables[table.name], table.SelfKeys()))
    && forall r, fk {:trigger CrossLinked(schema, data, n, r, fk)}
         | r in data[table.name] && fk in table.foreignKeys && fk.target != table.name ::
           CrossLinked(schema, data, n, r, fk)
  }

  ghost predicate AllReady(schema: Schema, payload: Payload, data: map<string, seq<Row>>) {
    forall n {:trigger Ready(schema, payload, data, n)} | 0 <= n < |schema.tables| :: Ready(schema, payload, data, n)
  }

  /** What holds once the first `n` tables are in. */
  ghost predicate Inserting(schema: Schema, payload: Payload, data: map<string, seq<Row>>, batches: seq<Batch>, n: nat)
    requires n <= |schema.tables|
  {
    && Closed(batches) && Complete(schema, data, batches, n)
    && (forall m | n <= m < |schema.tables| :: Entered(batches, schema.tables[m].name) == multiset{})
    && (forall m {:trigger Ready(schema, payload, data, m)} | 0 <= m < n ::
          Ready(schema, payload, data, m) && !Cyclic(data[schema.tables[m].name], schema.tables[m].SelfKeys()))
  }

  lemma NoCycle(schema: Schema, payload: Payload, data: map<string, seq<Row>>, batches: seq<Batch>)
    requires Inserting(schema, payload, data, batches, |schema.tables|)
    ensures !SomeCycle(schema, payload.tables)
  {
    forall m | 0 <= m < |schema.tables|
      ensures schema.tables[m].name in payload.tables ==>
                !Cyclic(payload.tables[schema.tables[m].name], schema.tables[m].SelfKeys())
    {
      assert Ready(schema, payload, data, m);
    }
  }

  lemma NothingYet(schema: Schema, payload: Payload, data: map<string, seq<Row>>)
    ensures Inserting(schema, payload, data, [], 0)
  {
  }

  lemma CycleFound(schema: Schema, payload: Payload, data: map<string, seq<Row>>, n: nat)
    requires n < |schema.tables| && Ready(schema, payload, data, n)
    ensures Cyclic(data[schema.tables[n].name], schema.tables[n].SelfKeys()) ==> SomeCycle(schema, payload.tables)
  {
  }

  lemma TableDone(schema: Schema, payload: Payload, data: map<string, seq<Row>>, before: seq<Batch>,
                  batches: seq<Batch>, n: nat)
    requires n < |schema.tables| && Inserting(schema, payload, data, before, n) && Ready(schema, payload, data, n)
    requires NamesApart(schema)
    requires !Cyclic(data[schema.tables[n].name], schema.tables[n].SelfKeys()) && Closed(batches)
    requires forall t :: Entered(batches, t) == Entered(before, t)
                         + (if t == schema.tables[n].name then multiset(data[schema.tables[n].name]) else multiset{})
    ensures Inserting(schema, payload, data, batches, n + 1)
  {
    EnteredMore(schema, data, before, batches, n);
  }

  lemma EnteredMore(schema: Schema, data: map<string, seq<Row>>, before: seq<Batch>, batches: seq<Batch>, n: nat)
    requires n < |schema.tables| && NamesApart(schema) && schema.tables[n].name in data
    requires Complete(schema, data, before, n)
    requires forall m | n <= m < |schema.tables| :: Entered(before, schema.tables[m].name) == multiset{}
    requires forall t :: Entered(batches, t) == Entered(before, t)
                         + (if t == schema.tables[n].name then multiset(data[schema.tables[n].name]) else multiset{})
    ensures Complete(schema, data, batches, n + 1)
    ensures forall m | n < m < |schema.tables| :: Entered(batches, schema.tables[m].name) == multiset{}
  {
    forall m | n < m < |schema.tables|
      ensures Entered(batches, schema.tables[m].name) == multiset{}
    {
      assert Apart(schema, n, m);
    }
    forall i | 0 <= i < n + 1
      ensures schema.tables[i].name in data
      ensures Entered(batches, schema.tables[i].name) == multiset(data[schema.tables[i].name])
    {
      assert i < n ==> Apart(schema, i, n);
      assert i < n ==> Entered(before, schema.tables[i].name) == multiset(data[schema.tables[i].name]);
    }
  }

  /** Every reference of a validated bundle stays linked after its rows are rewritten. */
  lemma StillCrossLinked(schema: Schema, payload: Payload, data: map<string, seq<Row>>, n: nat, i: nat, fk: ForeignKey)
    requires schema.WellFormed() && Valid(schema, payload) && n < |schema.tables|
    requires forall m | 0 <= m <= n ::
               schema.tables[m].name in data
               && SameKeys(schema.tables[m], payload.tables[schema.tables[m].name], data[schema.tables[m].name])
    requires i < |data[schema.tables[n].name]| && fk in schema.tables[n].foreignKeys
             && fk.target != schema.tables[n].name
    ensures CrossLinked(schema, data, n, data[schema.tables[n].name][i], fk)
  {
    var table := schema.tables[n];
    var source, r := payload.tables[table.name][i], data[table.name][i];
    assert SameRowKeys(table, source, r);
    assert LinksValid(table, payload.tables[table.name], payload.tables);
    assert LinkValid(source, fk, payload.tables);
    if r[fk.column] != Null {
      TablesNamed(schema);
      assert fk.target in schema.Names();
      var m :| 0 <= m < |schema.tables| && schema.tables[m].name == fk.target;
      assert m < n;
      SameIds(schema.tables[m], payload.tables[fk.target], data[fk.target], r[fk.column]);
    }
  }

  /** A linked reference is met once the earlier tables are complete. */
  lemma LinkEntered(schema: Schema, data: map<string, seq<Row>>, batches: seq<Batch>, n: nat, r: Row, fk: ForeignKey)
    requires n < |schema.tables| && Complete(schema, data, batches, n) && CrossLinked(schema, data, n, r, fk)
    ensures fk.column in r && (r[fk.column] == Null || EnteredBefore(batches, |batches|, fk.target, r[fk.column]))
  {
    if r[fk.column] != Null {
      var m :| 0 <= m < n && schema.tables[m].name == fk.target && HasId(data[fk.target], r[fk.column]);
      var p :| p in data[fk.target] && ID in p && p[ID] == r[fk.column];
      assert Entered(batches, schema.tables[m].name) == multiset(data[fk.target]);
      assert p in Entered(batches, fk.target);
      EnteredIsBefore(batches, fk.target, p);
    }
  }

  lemma LinksEntered(schema: Schema, payload: Payload, data: map<string, seq<Row>>, batches: seq<Batch>, n: nat)
    requires n < |schema.tables| && Complete(schema, data, batches, n) && Ready(schema, payload, data, n)
    ensures var table := schema.tables[n];
            forall r, fk | r in data[table.name] && fk in table.foreignKeys && fk.target != table.name ::
              fk.column in r && (r[fk.column] == Null || EnteredBefore(batches, |batches|, fk.target, r[fk.column]))
  {
    var table := schema.tables[n];
    forall r, fk | r in data[table.name] && fk in table.foreignKeys && fk.target != table.name
      ensures fk.column in r && (r[fk.column] == Null || EnteredBefore(batches, |batches|, fk.target, r[fk.column]))
    {
      LinkEntered(schema, data, batches, n, r, fk);
    }
  }

  lemma {:induction false} StoredElsewhere(vault: map<string, string>, payload: Payload, slots: seq<Slot>, ns: string,
                                           k: string)
    requires forall s | s in slots :: SlotRef(ns, payload.tables, s) != k
    ensures k in Stored(vault, payload, slots, ns) <==> k in vault
    ensures k in vault ==> Stored(vault, payload, slots, ns)[k] == vault[k]
    decreases |slots|
  {
    if slots != [] {
      var last := |slots| - 1;
      assert slots[last] in slots;
      forall s | s in slots[..last]
        ensures SlotRef(ns, payload.tables, s) != k
      {
        assert s in slots;
      }
      StoredElsewhere(vault, payload, slots[..last], ns, k);
    }
  }

  /** Deleting every reference that was written gives back what the vault held elsewhere. */
  lemma {:induction false} UndoStored(vault: map<string, string>, payload: Payload, slots: seq<Slot>, ns: string,
                                      refs: set<string>)
    requires forall s | s in slots :: SlotRef(ns, payload.tables, s) in refs
    ensures Stored(vault, payload, slots, ns) - refs == vault - refs
  {
    forall k | k !in refs
      ensures k in Stored(vault, payload, slots, ns) <==> k in vault
      ensures k in vault ==> Stored(vault, payload, slots, ns)[k] == vault[k]
    {
      StoredElsewhere(vault, payload, slots, ns, k);
    }
  }

  /** With all references fresh, the undo gives back the whole vault. */
  lemma UndoneWhole(vault: map<string, string>, before: map<string, string>, created: set<string>, refs: set<string>)
    requires vault - created == before - created && created <= refs
    ensures refs !! before.Keys ==> vault - created == before
  {
  }

  /** A secret cell of an identified row, with its secret at hand. */
  ghost predicate Usable(payload: Payload, s: Slot) {
    && s.table in payload.tables && s.index < |payload.tables[s.table]|
    && ID in payload.tables[s.table][s.index] && s.column in payload.tables[s.table][s.index] && s.column != ID
    && payload.tables[s.table][s.index][s.column].Text?
    && payload.tables[s.table][s.index][s.column].text in payload.secrets
  }

  ghost function RefSet(ns: string, tables: map<string, seq<Row>>, slots: seq<Slot>): set<string> {
    set s | s in slots :: SlotRef(ns, tables, s)
  }

  lemma RefsExtend(ns: string, tables: map<string, seq<Row>>, slots: seq<Slot>, n: nat)
    requires n < |slots|
    ensures RefSet(ns, tables, slots[..n + 1]) == RefSet(ns, tables, slots[..n]) + {SlotRef(ns, tables, slots[n])}
    ensures RefSet(ns, tables, slots[..n + 1]) <= RefSet(ns, tables, slots)
  {
  }

  lemma UntouchedBefore(payload: Payload, slots: seq<Slot>, ns: string, data: map<string, seq<Row>>, n: nat)
    requires Distinct(slots) && n < |slots| && forall s | s in slots :: Usable(payload, s)
    requires Relocated(ns, payload.tables, data, SetOf(slots[..n]))
    ensures var s := slots[n];
            && Usable(payload, s) && s.table in data && s.index < |data[s.table]|
               && data[s.table][s.index].Keys == payload.tables[s.table][s.index].Keys
            && data[s.table][s.index][ID] == payload.tables[s.table][s.index][ID]
            && data[s.table][s.index][s.column] == payload.tables[s.table][s.index][s.column]
  {
    var s := slots[n];
    assert Usable(payload, s);
    assert s !in slots[..n];
    forall t | t in slots[..n]
      ensures t.column != ID
    {
      assert t in slots;
    }
    assert Slot(s.table, s.index, ID) !in slots[..n];
    assert data[s.table][s.index] == RelocatedRow(ns, payload.tables, SetOf(slots[..n]), s.table, s.index);
  }

  lemma RelocateOne(payload: Payload, slots: seq<Slot>, ns: string, data: map<string, seq<Row>>, n: nat)
    requires Distinct(slots) && n < |slots| && Usable(payload, slots[n])
    requires Relocated(ns, payload.tables, data, SetOf(slots[..n]))
    ensures var s := slots[n];
            Relocated(ns, payload.tables,
                      data[s.table := data[s.table][s.index := data[s.table][s.index][s.column := Text(SlotRef(ns,
                          payload.tables, s))]]],
                      SetOf(slots[..n + 1]))
  {
  }

  lemma QuietIsPrepared(schema: Schema, payload: Payload, ns: string, activate: bool, moved: map<string, seq<Row>>,
                        quiet: map<string, seq<Row>>)
    requires Relocated(ns, payload.tables, moved, SetOf(SlotsOf(schema.secrets, payload.tables)))
    requires AllQuiesced(moved, quiet, activate)
    ensures Prepared(schema, payload, ns, activate, quiet)
  {
  }

  /** The state of a relocation after its first `n` secrets. */
  ghost predicate Moved(payload: Payload, slots: seq<Slot>, ns: string, before: map<string, string>,
                        vault: map<string, string>, data: map<string, seq<Row>>, created: seq<string>, n: nat)
    requires n <= |slots|
  {
    && SetOf(created) == RefSet(ns, payload.tables, slots[..n])
    && vault == Stored(before, payload, slots[..n], ns)
    && Relocated(ns, payload.tables, data, SetOf(slots[..n]))
  }

  /** Whether it stops before or after recording the next reference, deleting what was recorded undoes it. */
  lemma MovedUndone(payload: Payload, slots: seq<Slot>, ns: string, before: map<string, string>,
                    vault: map<string, string>, data: map<string, seq<Row>>, created: seq<string>, n: nat)
    requires n < |slots| && Moved(payload, slots, ns, before, vault, data, created, n)
    ensures SetOf(created) <= RefSet(ns, payload.tables, slots)
    ensures SetOf(created + [SlotRef(ns, payload.tables, slots[n])]) <= RefSet(ns, payload.tables, slots)
    ensures vault - SetOf(created) == before - SetOf(created)
    ensures var more := SetOf(created + [SlotRef(ns, payload.tables, slots[n])]); vault - more == before - more
  {
    RefsExtend(ns, payload.tables, slots, n);
    var more := SetOf(created + [SlotRef(ns, payload.tables, slots[n])]);
    assert more == SetOf(created) + {SlotRef(ns, payload.tables, slots[n])};
    UndoStored(before, payload, slots[..n], ns, SetOf(created));
    UndoStored(before, payload, slots[..n], ns, more);
  }

  lemma MoveOne(payload: Payload, slots: seq<Slot>, ns: string, before: map<string, string>,
                vault: map<string, string>, data: map<string, seq<Row>>, created: seq<string>, n: nat)
    requires Distinct(slots) && n < |slots| && Usable(payload, slots[n]) && Addressed(payload.tables, slots[n])
    requires Moved(payload, slots, ns, before, vault, data, created, n)
    ensures var s := slots[n];
            var ref := SlotRef(ns, payload.tables, s);
            Moved(payload, slots, ns, before, vault[ref := SlotSecret(payload, s)],
                  data[s.table := data[s.table][s.index := data[s.table][s.index][s.column := Text(ref)]]],
                  created + [ref], n + 1)
  {
    var ref := SlotRef(ns, payload.tables, slots[n]);
    assert slots[..n + 1][..n] == slots[..n];
    RefsExtend(ns, payload.tables, slots, n);
    assert SetOf(created + [ref]) == SetOf(created) + {ref};
    RelocateOne(payload, slots, ns, data, n);
  }

  /** How many rows the first `n` tables hold. */
  function RowCount(schema: Schema, data: map<string, seq<Row>>, n: nat): nat
    requires n <= |schema.tables|
  {
    if n == 0 then 0
    else
      var name := schema.tables[n - 1].name;
      RowCount(schema, data, n - 1) + if name in data then |data[name]| else 0
  }

  lemma {:induction false} RowCountGrows(schema: Schema, data: map<string, seq<Row>>, m: nat, n: nat)
    requires m <= n <= |schema.tables|
    ensures RowCount(schema, data, m) <= RowCount(schema, data, n)
    decreases n
  {
    if m < n {
      RowCountGrows(schema, data, m, n - 1);
    }
  }

  lemma {:induction false} SameRowCount(schema: Schema, data: map<string, seq<Row>>, data': map<string, seq<Row>>,
                                        n: nat)
    requires n <= |schema.tables| && data'.Keys == data.Keys && forall t | t in data :: |data'[t]| == |data[t]|
    ensures RowCount(schema, data', n) == RowCount(schema, data, n)
    decreases n
  {
    if n > 0 {
      SameRowCount(schema, data, data', n - 1);
    }
  }

  lemma PreparedCounts(schema: Schema, payload: Payload, ns: string, activate: bool, data: map<string, seq<Row>>)
    requires Prepared(schema, payload, ns, activate, data)
    ensures RowCount(schema, data, |schema.tables|) == RowCount(schema, payload.tables, |schema.tables|)
  {
    SameRowCount(schema, payload.tables, data, |schema.tables|);
  }

  /** Enough calls for every secret and every row, and for taking ownership and committing. */
  predicate Reachable(schema: Schema, payload: Payload, budget: nat) {
    budget >= |SlotsOf(schema.secrets, payload.tables)| + RowCount(schema, payload.tables, |schema.tables|) + 2
  }

  /** Every secret-bearing row has a textual id, and every relocated row can be quiesced. */
  ghost predicate Rewritable(schema: Schema, payload: Payload, ns: string, activate: bool) {
    var slots := SlotsOf(schema.secrets, payload.tables);
    && (forall s | s in slots :: Addressed(payload.tables, s))
    && (forall t, i | t in payload.tables && 0 <= i < |payload.tables[t]| ::
          Quiesced(t, RelocatedRow(ns, payload.tables, SetOf(slots), t, i), activate).Some?)
  }

  lemma MovedQuiescable(ns: string, tables: map<string, seq<Row>>, data: map<string, seq<Row>>, done: set<Slot>,
                        activate: bool)
    requires Relocated(ns, tables, data, done)
    ensures (forall t | t in data :: Quiescable(t, data[t], activate)) <==>
            (forall t, i | t in tables && 0 <= i < |tables[t]| ::
               Quiesced(t, RelocatedRow(ns, tables, done, t, i), activate).Some?)
  {
    if forall t | t in data :: Quiescable(t, data[t], activate) {
      forall t, i | t in tables && 0 <= i < |tables[t]|
        ensures Quiesced(t, RelocatedRow(ns, tables, done, t, i), activate).Some?
      {
        assert Quiescable(t, data[t], activate);
        assert data[t][i] == RelocatedRow(ns, tables, done, t, i);
      }
    }
  }

  /** A cell of the bundle is carried over: a secret as its fresh reference, any other cell as it was. */
  ghost predicate CellCarried(schema: Schema, payload: Payload, ns: string, data: map<string, seq<Row>>, s: Slot) {
    && s.table in data && s.index < |data[s.table]| && s.column in data[s.table][s.index]
    && s.table in payload.tables && s.index < |payload.tables[s.table]| && s.column in payload.tables[s.table][s.index]
    && data[s.table][s.index][s.column] == if s in SlotsOf(schema.secrets, payload.tables)
                                           then Text(SlotRef(ns, payload.tables, s))
                                           else payload.tables[s.table][s.index][s.column]
  }

  /** Every cell is carried over, except in the few columns that quiescing rewrites; outside five tables not even those
      change. */
  ghost predicate Carried(schema: Schema, payload: Payload, ns: string, data: map<string, seq<Row>>) {
    && data.Keys == payload.tables.Keys && (forall t | t in data :: |data[t]| == |payload.tables[t]|)
    && (forall t, i, c {:trigger CellCarried(schema, payload, ns, data, Slot(t, i, c))}
          | t in data && 0 <= i < |data[t]| && c in payload.tables[t][i] && c !in RewrittenIn(t) ::
            CellCarried(schema, payload, ns, data, Slot(t, i, c)))
    && (forall t, i {:trigger data[t][i]}
          | t in data && 0 <= i < |data[t]|
            && t !in {"tenants", "bots", "customer_updates", "announcements", "announcement_deliveries"} ::
            data[t][i] == RelocatedRow(ns, payload.tables, SetOf(SlotsOf(schema.secrets, payload.tables)), t, i))
  }

  lemma PreparedIsCarried(schema: Schema, payload: Payload, ns: string, activate: bool, data: map<string, seq<Row>>)
    requires Prepared(schema, payload, ns, activate, data)
    ensures Carried(schema, payload, ns, data)
  {
    var done := SetOf(SlotsOf(schema.secrets, payload.tables));
    forall t, i | t in data && 0 <= i < |data[t]|
      ensures SameBut(RelocatedRow(ns, payload.tables, done, t, i), data[t][i], RewrittenIn(t))
      ensures t !in {"tenants", "bots", "customer_updates", "announcements", "announcement_deliveries"} ==>
                data[t][i] == RelocatedRow(ns, payload.tables, done, t, i)
    {
      assert Quiesced(t, RelocatedRow(ns, payload.tables, done, t, i), activate) == Some(data[t][i]);
      QuiescedElsewhere(t, RelocatedRow(ns, payload.tables, done, t, i), activate);
    }
    forall t, i, c | t in data && 0 <= i < |data[t]| && c in payload.tables[t][i] && c !in RewrittenIn(t)
      ensures CellCarried(schema, payload, ns, data, Slot(t, i, c))
    {
      assert SameBut(RelocatedRow(ns, payload.tables, done, t, i), data[t][i], RewrittenIn(t));
    }
  }

  /** The restored cell names a vault entry that holds the secret which the bundle's cell names. */
  ghost predicate Reached(payload: Payload, data: map<string, seq<Row>>, vault: map<string, string>, s: Slot) {
    && Usable(payload, s) && s.table in data && s.index < |data[s.table]| && s.column in data[s.table][s.index]
    && var cell := data[s.table][s.index][s.column];
       && cell.Text? && cell.text in vault
       && vault[cell.text] == payload.secrets[payload.tables[s.table][s.index][s.column].text]
  }

  lemma ResolvedIsReached(schema: Schema, payload: Payload, ns: string, data: map<string, seq<Row>>,
                          vault: map<string, string>)
    requires schema.WellFormed() && KeysSettled(schema) && Valid(schema, payload) && Carried(schema, payload, ns, data)
    ensures (forall s | IsSlot(schema.secrets, payload.tables, s) :: Reached(payload, data, vault, s))
            <==> Resolved(payload, SlotsOf(schema.secrets, payload.tables), ns, vault)
  {
    var slots := SlotsOf(schema.secrets, payload.tables);
    SlotsComplete(schema.secrets, payload.tables);
    ValidSlotsUsable(schema, payload);
    forall s | s in slots
      ensures Reached(payload, data, vault, s) <==> SlotResolved(payload, ns, vault, s)
    {
      SlotReached(schema, payload, ns, data, vault, s);
    }
    if forall s | IsSlot(schema.secrets, payload.tables, s) :: Reached(payload, data, vault, s) {
      forall s | s in slots
        ensures SlotResolved(payload, ns, vault, s)
      {
        assert IsSlot(schema.secrets, payload.tables, s);
      }
    }
    if Resolved(payload, slots, ns, vault) {
      forall s | IsSlot(schema.secrets, payload.tables, s)
        ensures Reached(payload, data, vault, s)
      {
        assert s in slots && SlotResolved(payload, ns, vault, s);
      }
    }
  }

  ghost predicate SlotResolved(payload: Payload, ns: string, vault: map<string, string>, s: Slot) {
    SlotRef(ns, payload.tables, s) in vault && vault[SlotRef(ns, payload.tables, s)] == SlotSecret(payload, s)
  }

  lemma SlotReached(schema: Schema, payload: Payload, ns: string, data: map<string, seq<Row>>,
                    vault: map<string, string>, s: Slot)
    requires KeysSettled(schema) && Carried(schema, payload, ns, data) && Usable(payload, s)
    requires IsSlot(schema.secrets, payload.tables, s) && s in SlotsOf(schema.secrets, payload.tables)
    ensures Reached(payload, data, vault, s) <==> SlotResolved(payload, ns, vault, s)
  {
    var k :| 0 <= k < |schema.secrets| && schema.secrets[k].table == s.table && s.column in schema.secrets[k].columns;
    assert s.column !in REWRITTEN && RewrittenIn(s.table) <= REWRITTEN;
    assert CellCarried(schema, payload, ns, data, Slot(s.table, s.index, s.column));
  }

  /** Every restored row has the columns of its table and, where rows have an owner, belongs to the bundle's tenant. */
  ghost predicate OwnedBy(schema: Schema, data: map<string, seq<Row>>, tenantId: Cell) {
    forall n, i {:trigger OwnedRow(schema, data, tenantId, n, i)}
      | 0 <= n < |schema.tables| && schema.tables[n].name in data && 0 <= i < |data[schema.tables[n].name]| ::
        OwnedRow(schema, data, tenantId, n, i)
  }

  ghost predicate OwnedRow(schema: Schema, data: map<string, seq<Row>>, tenantId: Cell, n: int, i: int) {
    && 0 <= n < |schema.tables| && schema.tables[n].name in data && 0 <= i < |data[schema.tables[n].name]|
    && data[schema.tables[n].name][i].Keys == schema.tables[n].columns
    && ("tenant_id" in data[schema.tables[n].name][i] ==>
          data[schema.tables[n].name][i]["tenant_id"] == tenantId)
  }

  lemma OwnerIsNoSlot(schema: Schema, tables: map<string, seq<Row>>, table: string, i: nat)
    requires KeysSettled(schema)
    requires forall i, j | 0 <= i < j < |schema.secrets| :: schema.secrets[i].table != schema.secrets[j].table
    requires forall i | 0 <= i < |schema.secrets| :: Distinct(schema.secrets[i].columns)
    ensures Slot(table, i, TENANT_ID) !in SlotsOf(schema.secrets, tables)
  {
    SlotsComplete(schema.secrets, tables);
  }

  lemma CarriedRowIsOwned(schema: Schema, payload: Payload, ns: string, data: map<string, seq<Row>>, n: nat, i: nat)
    requires n < |schema.tables| && schema.tables[n].name in data && schema.tables[n].name in payload.tables
    requires i < |data[schema.tables[n].name]| && i < |payload.tables[schema.tables[n].name]|
    requires RowValid(schema.tables[n], payload.tables[schema.tables[n].name][i], payload.tenantId)
    requires data[schema.tables[n].name][i].Keys == payload.tables[schema.tables[n].name][i].Keys
    requires Slot(schema.tables[n].name, i, TENANT_ID) !in SlotsOf(schema.secrets, payload.tables)
    requires TENANT_ID in payload.tables[schema.tables[n].name][i] ==>
               CellCarried(schema, payload, ns, data, Slot(schema.tables[n].name, i, TENANT_ID))
    ensures OwnedRow(schema, data, payload.tenantId, n, i)
  {
  }

  lemma PreparedRowKeys(schema: Schema, payload: Payload, ns: string, activate: bool, data: map<string, seq<Row>>,
                        t: string, i: nat)
    requires Prepared(schema, payload, ns, activate, data) && t in data && i < |data[t]|
    ensures data[t][i].Keys == payload.tables[t][i].Keys
  {
    var done := SetOf(SlotsOf(schema.secrets, payload.tables));
    assert Quiesced(t, RelocatedRow(ns, payload.tables, done, t, i), activate) == Some(data[t][i]);
  }

  lemma TenantColumnKept()
    ensures TENANT_ID !in REWRITTEN
  {
    assert |TENANT_ID| == 9 && |"is_active"| == 9 && TENANT_ID[0] != "is_active"[0] && |"settings"| == 8;
    assert |"is_enabled"| == 10 && |"runtime_revision"| == 16 && |"status"| == 6 && |"version"| == 7;
    assert |"evidence"| == 8 && |"error_code"| == 10;
  }

  lemma PreparedRowIsOwned(schema: Schema, payload: Payload, ns: string, activate: bool, data: map<string, seq<Row>>,
                           n: nat, i: nat)
    requires Prepared(schema, payload, ns, activate, data) && Carried(schema, payload, ns, data)
    requires n < |schema.tables| && schema.tables[n].name in data && i < |data[schema.tables[n].name]|
    requires RowsValid(schema.tables[n], payload.tables[schema.tables[n].name], payload.tenantId)
    requires Slot(schema.tables[n].name, i, TENANT_ID) !in SlotsOf(schema.secrets, payload.tables)
    ensures OwnedRow(schema, data, payload.tenantId, n, i)
  {
    var t := schema.tables[n].name;
    TenantColumnKept();
    PreparedRowKeys(schema, payload, ns, activate, data, t, i);
    assert TENANT_ID !in RewrittenIn(t);
    assert TENANT_ID in payload.tables[t][i] ==> CellCarried(schema, payload, ns, data, Slot(t, i, TENANT_ID));
    CarriedRowIsOwned(schema, payload, ns, data, n, i);
  }

  lemma PreparedIsOwned(schema: Schema, payload: Payload, ns: string, activate: bool, data: map<string, seq<Row>>)
    requires schema.WellFormed() && KeysSettled(schema) && Valid(schema, payload)
    requires Prepared(schema, payload, ns, activate, data) && Carried(schema, payload, ns, data)
    ensures OwnedBy(schema, data, payload.tenantId)
  {
    forall n, i | 0 <= n < |schema.tables| && schema.tables[n].name in data && 0 <= i < |data[schema.tables[n].name]|
      ensures OwnedRow(schema, data, payload.tenantId, n, i)
    {
      OwnerIsNoSlot(schema, payload.tables, schema.tables[n].name, i);
      assert RowsValid(schema.tables[n], payload.tables[schema.tables[n].name], payload.tenantId);
      PreparedRowIsOwned(schema, payload, ns, activate, data, n, i);
    }
  }

  class Installation {
    var vault: map<string, string>
    var batches: seq<Batch>
    var owner: Option<Cell>
    /** How many more vault and database calls will succeed; the next one raises. */
    var budget: nat

    method Call() returns (ok: bool)
      modifies `budget
      ensures ok <==> old(budget) > 0
      ensures budget == if ok then old(budget) - 1 else 0
    {
      ok := budget > 0;
      if ok {
        budget := budget - 1;
      }
    }

    /** Copies every secret to a fresh reference. A reference is recorded before it is written. */
    method Relocate(payload: Payload, slots: seq<Slot>, ns: string)
      returns (ok: bool, data: map<string, seq<Row>>, created: seq<string>)
      requires Distinct(slots)
      requires forall s | s in slots :: Usable(payload, s)
      modifies `vault, `budget
      ensures vault - SetOf(created) == old(vault) - SetOf(created)
      ensures SetOf(created) <= RefSet(ns, payload.tables, slots)
      ensures ok ==> vault == Stored(old(vault), payload, slots, ns)
      ensures ok ==> Relocated(ns, payload.tables, data, SetOf(slots))
      ensures ok <==> old(budget) >= |slots| && forall s | s in slots :: Addressed(payload.tables, s)
      ensures ok ==> budget == old(budget) - |slots|
    {
      ok, data, created := true, payload.tables, [];
      for n := 0 to |slots|
        invariant ok && Moved(payload, slots, ns, old(vault), vault, data, created, n)
        invariant budget == old(budget) - n && forall k | 0 <= k < n :: Addressed(payload.tables, slots[k])
      {
        var s := slots[n];
        UntouchedBefore(payload, slots, ns, data, n);
        var row := data[s.table][s.index];
        MovedUndone(payload, slots, ns, old(vault), vault, data, created, n);
        if !row[ID].Text? {
          ok := false;
          return;
        }
        var ref := Ref(ns, row[ID].text, s.column);
        created := created + [ref];
        var reached := Call();
        if !reached {
          ok := false;
          return;
        }
        MoveOne(payload, slots, ns, old(vault), vault, data, created[..|created| - 1], n);
        vault := vault[ref := payload.secrets[row[s.column].text]];
        data := data[s.table := data[s.table][s.index := row[s.column := Text(ref)]]];
      }
      assert slots[..|slots|] == slots;
      UndoStored(old(vault), payload, slots, ns, SetOf(created));
    }

    /** Inserts one table layer by layer. */
    method InsertTable(table: Table, rows: seq<Row>) returns (error: Option<BundleError>)
      requires Tabular(rows, table.SelfKeys()) && Closed(batches)
      requires forall r, fk | r in rows && fk in table.foreignKeys && fk.target != table.name ::
                 fk.column in r && (r[fk.column] == Null || EnteredBefore(batches, |batches|, fk.target, r[fk.column]))
      modifies `batches, `budget
      ensures error in {None, Some(CyclicReference), Some(ForeignFault)}
      ensures error == None ==> !Cyclic(rows, table.SelfKeys())
      ensures error == Some(CyclicReference) ==> Cyclic(rows, table.SelfKeys())
      ensures error == Some(ForeignFault) ==> old(budget) < |rows|
      ensures error != Some(ForeignFault) ==> budget >= old(budget) - |rows|
      ensures Closed(batches)
      ensures error == None ==> forall t ::
                Entered(batches, t) == Entered(old(batches),
                                               t) + (if t == table.name then multiset(rows) else multiset{})
    {
      var layers, stuck := InsertLayers(rows, table.SelfKeys());
      for n := 0 to |layers|
        invariant LayersIn(old(batches), batches, table, layers, n) && budget == old(budget) - n
      {
        var ok := Call();
        if !ok {
          return Some(ForeignFault);
        }
        LayerEnters(old(batches), batches, table, rows, layers, n);
        batches := batches + [Batch(table, layers[n])];
      }
      assert layers[..|layers|] == layers;
      if stuck {
        return Some(CyclicReference);
      }
      return None;
    }

    /** Inserts table `n` once the earlier ones are in. */
    method InsertNext(schema: Schema, payload: Payload, data: map<string, seq<Row>>, n: nat)
      returns (error: Option<BundleError>)
      requires NamesApart(schema)
      requires n < |schema.tables| && AllReady(schema, payload, data) && Inserting(schema, payload, data, batches, n)
      modifies `batches, `budget
      ensures error in {None, Some(CyclicReference), Some(ForeignFault)}
      ensures Closed(batches)
      ensures error == None ==> Inserting(schema, payload, data, batches, n + 1)
      ensures error == Some(CyclicReference) ==> SomeCycle(schema, payload.tables)
      ensures schema.tables[n].name in data
      ensures error == Some(ForeignFault) ==> old(budget) < |data[schema.tables[n].name]|
      ensures error == None ==> budget >= old(budget) - |data[schema.tables[n].name]|
    {
      assert Ready(schema, payload, data, n);
      LinksEntered(schema, payload, data, batches, n);
      error := InsertTable(schema.tables[n], data[schema.tables[n].name]);
      if error == None {
        TableDone(schema, payload, data, old(batches), batches, n);
      } else {
        CycleFound(schema, payload, data, n);
      }
    }

    /** Inserts every table in dependency order. */
    method InsertAll(schema: Schema, payload: Payload, data: map<string, seq<Row>>) returns (error: Option<BundleError>)
      requires NamesApart(schema)
      requires AllReady(schema, payload, data)
      requires batches == []
      modifies `batches, `budget
      ensures error in {None, Some(CyclicReference), Some(ForeignFault)}
      ensures Closed(batches)
      ensures error == None ==> Complete(schema, data, batches, |schema.tables|)
      ensures error == None ==> !SomeCycle(schema, payload.tables)
      ensures error == Some(CyclicReference) ==> SomeCycle(schema, payload.tables)
      ensures error == Some(ForeignFault) ==> old(budget) < RowCount(schema, data, |schema.tables|)
      ensures error == None ==> budget >= old(budget) - RowCount(schema, data, |schema.tables|)
    {
      NothingYet(schema, payload, data);
      for n := 0 to |schema.tables|
        invariant Inserting(schema, payload, data, batches, n)
        invariant budget >= old(budget) - RowCount(schema, data, n)
      {
        RowCountGrows(schema, data, n + 1, |schema.tables|);
        error := InsertNext(schema, payload, data, n);
        if error != None {
          return;
        }
      }
      error := None;
      NoCycle(schema, payload, data, batches);
    }

    /** Moves the secrets and quiesces the rows. */
    method Prepare(schema: Schema, payload: Payload, ns: string, activate: bool)
      returns (ok: bool, data: map<string, seq<Row>>, created: seq<string>)
      requires schema.WellFormed() && Valid(schema, payload)
      modifies `vault, `budget
      ensures ok ==> Prepared(schema, payload, ns, activate, data)
      ensures ok <==>
              Rewritable(schema, payload, ns, activate) && old(budget) >= |SlotsOf(schema.secrets, payload.tables)|
      ensures ok ==> budget == old(budget) - |SlotsOf(schema.secrets, payload.tables)|
      ensures ok ==> vault == Stored(old(vault), payload, SlotsOf(schema.secrets, payload.tables), ns)
      ensures vault - SetOf(created) == old(vault) - SetOf(created)
      ensures SetOf(created) <= RefSet(ns, payload.tables, SlotsOf(schema.secrets, payload.tables))
    {
      var slots := SlotsOf(schema.secrets, payload.tables);
      SlotsComplete(schema.secrets, payload.tables);
      ValidSlotsUsable(schema, payload);
      ok, data, created := Relocate(payload, slots, ns);
      if !ok {
        return;
      }
      ghost var moved := data;
      MovedQuiescable(ns, payload.tables, moved, SetOf(slots), activate);
      ok, data := QuiesceAll(schema, data, activate);
      if ok {
        QuietIsPrepared(schema, payload, ns, activate, moved, data);
      }
    }

    /** Inserts every table and takes ownership of the installation. */
    method Install(schema: Schema, payload: Payload, data: map<string, seq<Row>>) returns (error: Option<BundleError>)
      requires NamesApart(schema)
      requires AllReady(schema, payload, data)
      requires batches == []
      modifies `batches, `owner, `budget
      ensures error in {None, Some(CyclicReference), Some(ForeignFault)}
      ensures Closed(batches)
      ensures error == None ==>
                && Complete(schema, data, batches, |schema.tables|)
                && owner == Some(payload.tenantId) && !SomeCycle(schema, payload.tables)
      ensures error == Some(CyclicReference) ==> SomeCycle(schema, payload.tables)
      ensures error == Some(ForeignFault) ==> old(budget) < RowCount(schema, data, |schema.tables|) + 2
    {
      error := InsertAll(schema, payload, data);
      if error != None {
        return;
      }
      var marked := Call();
      if !marked {
        return Some(ForeignFault);
      }
      owner := Some(payload.tenantId);
      var committed := Call();
      if !committed {
        return Some(ForeignFault);
      }
    }

    /** The body of the restore, before any undo. */
    method Attempt(schema: Schema, payload: Payload, ns: string, activate: bool)
      returns (error: Option<BundleError>, data: map<string, seq<Row>>, created: seq<string>)
      requires schema.WellFormed() && KeysSettled(schema) && Valid(schema, payload)
      requires batches == []
      modifies this
      ensures error in {None, Some(CyclicReference), Some(ForeignFault)}
      ensures error == None ==>
                && Prepared(schema, payload, ns, activate, data)
                && Closed(batches) && Complete(schema, data, batches, |schema.tables|)
                && vault == Stored(old(vault), payload, SlotsOf(schema.secrets, payload.tables), ns)
                && owner == Some(payload.tenantId)
                && !SomeCycle(schema, payload.tables)
      ensures error == Some(CyclicReference) ==> SomeCycle(schema, payload.tables)
      ensures error == Some(ForeignFault) ==>
                !Reachable(schema, payload, old(budget)) || !Rewritable(schema, payload, ns, activate)
      ensures vault - SetOf(created) == old(vault) - SetOf(created)
      ensures SetOf(created) <= RefSet(ns, payload.tables, SlotsOf(schema.secrets, payload.tables))
    {
      error := Some(ForeignFault);
      var prepared: bool;
      prepared, data, created := Prepare(schema, payload, ns, activate);
      if !prepared {
        return;
      }
      PreparedIsReady(schema, payload, ns, activate, data);
      PreparedCounts(schema, payload, ns, activate, data);
      error := Install(schema, payload, data);
    }

    /** Restore into an empty installation, or leave it as it was. */
    method Restore(schema: Schema, payload: Payload, ns: string, activate: bool)
      returns (error: Option<BundleError>, data: map<string, seq<Row>>)
      requires schema.WellFormed() && KeysSettled(schema)
      modifies this
      ensures !Valid(schema, payload) || old(batches) != [] || old(owner) != None ==>
                error != None && vault == old(vault) && batches == old(batches) && owner == old(owner)
      ensures error == None ==> Carried(schema, payload, ns, data) && OwnedBy(schema, data, payload.tenantId)
      ensures error == None ==>
                && Prepared(schema, payload, ns, activate, data)
                && Closed(batches) && Complete(schema, data, batches, |schema.tables|)
                && owner == Some(payload.tenantId)
                && !SomeCycle(schema, payload.tables)
                && ((forall s | IsSlot(schema.secrets, payload.tables, s) :: Reached(payload, data, vault, s))
                    <==> NoClash(payload, SlotsOf(schema.secrets, payload.tables)))
      ensures error == Some(CyclicReference) ==> SomeCycle(schema, payload.tables)
      ensures error == Some(ForeignFault) ==>
                !Reachable(schema, payload, old(budget)) || !Rewritable(schema, payload, ns, activate)
      ensures Valid(schema, payload) && old(batches) == [] && old(owner) == None
              && Reachable(schema, payload, old(budget)) && Rewritable(schema, payload, ns, activate) ==>
                error == if SomeCycle(schema, payload.tables) then Some(CyclicReference) else None
      ensures error != None ==> batches == old(batches) && owner == old(owner)
      ensures error != None && RefSet(ns, payload.tables,
                                      SlotsOf(schema.secrets, payload.tables)) !! old(vault).Keys ==>
                vault == old(vault)
    {
      data := map[];
      error := Validate(schema, payload);
      if error != None {
        return;
      }
      if owner != None || batches != [] {
        error := Some(NotEmpty);
        return;
      }
      var created: seq<string>;
      error, data, created := Attempt(schema, payload, ns, activate);
      if error != None {
        batches, owner := [], None;
        UndoneWhole(vault, old(vault), SetOf(created), RefSet(ns, payload.tables,
                                                              SlotsOf(schema.secrets, payload.tables)));
        vault := vault - SetOf(created);
      } else {
        RelocationFaithful(old(vault), payload, SlotsOf(schema.secrets, payload.tables), ns);
        PreparedIsCarried(schema, payload, ns, activate, data);
        PreparedIsOwned(schema, payload, ns, activate, data);
        ResolvedIsReached(schema, payload, ns, data, vault);
      }
    }
  }

  /** Each table of a prepared bundle is ready for its insertion. */
  lemma {:induction false} PreparedIsReady(schema: Schema, payload: Payload, ns: string, activate: bool,
                                           data: map<string, seq<Row>>)
    requires schema.WellFormed() && KeysSettled(schema) && Valid(schema, payload)
    requires Prepared(schema, payload, ns, activate, data)
    ensures AllReady(schema, payload, data)
  {
    TablesNamed(schema);
    forall m | 0 <= m < |schema.tables|
      ensures schema.tables[m].name in data
      ensures SameKeys(schema.tables[m], payload.tables[schema.tables[m].name], data[schema.tables[m].name])
    {
      PreparedKeepsKeys(schema, payload, ns, activate, data, m);
    }
    forall n | 0 <= n < |schema.tables|
      ensures Ready(schema, payload, data, n)
    {
      SameKeysReady(schema, payload, data, n);
    }
  }

  lemma SameKeysReady(schema: Schema, payload: Payload, data: map<string, seq<Row>>, n: nat)
    requires schema.WellFormed() && Valid(schema, payload) && n < |schema.tables|
    requires forall m | 0 <= m <= n ::
               schema.tables[m].name in data
               && SameKeys(schema.tables[m], payload.tables[schema.tables[m].name], data[schema.tables[m].name])
    ensures Ready(schema, payload, data, n)
  {
    var table := schema.tables[n];
    var rows := data[table.name];
    ValidIsTabular(schema, payload, n, rows);
    SameKeysCycles(table, payload.tables[table.name], rows);
    forall r, fk | r in rows && fk in table.foreignKeys && fk.target != table.name
      ensures CrossLinked(schema, data, n, r, fk)
    {
      var i :| 0 <= i < |rows| && rows[i] == r;
      StillCrossLinked(schema, payload, data, n, i, fk);
    }
  }

  lemma SameKeysCycles(table: Table, rows: seq<Row>, rows': seq<Row>)
    requires SameKeys(table, rows, rows')
    ensures Cyclic(rows, table.SelfKeys()) <==> Cyclic(rows', table.SelfKeys())
  {
    SameKeysSymmetric(table, rows, rows');
    if Cyclic(rows, table.SelfKeys()) {
      SameCycles(table, rows, rows');
    }
    if Cyclic(rows', table.SelfKeys()) {
      SameCycles(table, rows', rows);
    }
  }

  lemma {:induction false} ColumnsFound(secrets: seq<SecretColumns>, k: nat)
    requires k < |secrets|
    requires forall i, j | 0 <= i < j < |secrets| :: secrets[i].table != secrets[j].table
    ensures ColumnsOf(secrets, secrets[k].table) == secrets[k].columns
  {
    if k > 0 {
      ColumnsFound(secrets[1..], k - 1);
    }
  }

  /** The validator saw every secret that the relocation will ask for. */
  lemma ValidSlotsUsable(schema: Schema, payload: Payload)
    requires schema.WellFormed() && Valid(schema, payload)
    ensures forall s | s in SlotsOf(schema.secrets, payload.tables) :: Usable(payload, s)
  {
    SlotsComplete(schema.secrets, payload.tables);
    TablesNamed(schema);
    forall s | IsSlot(schema.secrets, payload.tables, s)
      ensures Usable(payload, s)
    {
      var k :| 0 <= k < |schema.secrets| && schema.secrets[k].table == s.table && s.column in schema.secrets[k].columns;
      ColumnsFound(schema.secrets, k);
      var i :| 0 <= i < |schema.tables| && schema.tables[i].name == s.table;
      var rows := payload.tables[s.table];
      assert RowsValid(schema.tables[i], rows, payload.tenantId)
             && RowValid(schema.tables[i], rows[s.index], payload.tenantId);
      assert rows[s.index][s.column] in SecretsOf(rows, ColumnsOf(schema.secrets, s.table));
      assert rows[s.index][s.column] in RequiredSecrets(schema, payload.tables, |schema.tables|);
    }
  }

  /** After `n` layers: nothing dangles, and exactly the rows of those layers have entered. */
  ghost predicate LayersIn(before: seq<Batch>, batches: seq<Batch>, table: Table, layers: seq<seq<Row>>, n: nat)
    requires n <= |layers|
  {
    && Closed(batches)
    && |before| <= |batches| && batches[..|before|] == before
    && (forall t :: Entered(batches, t)
                    == Entered(before, t) + (if t == table.name then multiset(Flatten(layers[..n])) else multiset{}))
    && (forall j, id {:trigger HasId(layers[j], id)} | 0 <= j < n && HasId(layers[j], id) ::
          EnteredBefore(batches, |batches|, table.name, id))
  }

  lemma LayerEnters(before: seq<Batch>, batches: seq<Batch>, table: Table, rows: seq<Row>, layers: seq<seq<Row>>,
                    n: nat)
    requires n < |layers| && LayersIn(before, batches, table, layers, n)
    requires Layered(layers, table.SelfKeys()) && forall r | r in layers[n] :: r in rows
    requires forall r, fk | r in rows && fk in table.foreignKeys && fk.target != table.name ::
               fk.column in r && (r[fk.column] == Null || EnteredBefore(before, |before|, fk.target, r[fk.column]))
    ensures LayersIn(before, batches + [Batch(table, layers[n])], table, layers, n + 1)
  {
    var batch := Batch(table, layers[n]);
    var next := batches + [batch];
    LayerBacked(batches, before, table, rows, layers, n);
    ClosedExtends(batches, batch);
    PlacesGrow(batches, batch, table, layers, n);
    EntryGrows(before, batches, table, layers, n);
    assert next[..|before|] == batches[..|before|];
  }

  lemma PlacesGrow(batches: seq<Batch>, batch: Batch, table: Table, layers: seq<seq<Row>>, n: nat)
    requires n < |layers| && batch == Batch(table, layers[n])
    requires forall j, id {:trigger HasId(layers[j], id)} | 0 <= j < n && HasId(layers[j], id) ::
               EnteredBefore(batches, |batches|, table.name, id)
    ensures forall j, id {:trigger HasId(layers[j], id)} | 0 <= j < n + 1 && HasId(layers[j], id) ::
              EnteredBefore(batches + [batch], |batches + [batch]|, table.name, id)
  {
    forall j, id | 0 <= j < n + 1 && HasId(layers[j], id)
      ensures EnteredBefore(batches + [batch], |batches + [batch]|, table.name, id)
    {
      EnteredBeforeExtends(batches, batch, table.name, id);
    }
  }

  lemma EntryGrows(before: seq<Batch>, batches: seq<Batch>, table: Table, layers: seq<seq<Row>>, n: nat)
    requires n < |layers|
    requires forall t :: Entered(batches, t)
                         == Entered(before,
                                    t) + (if t == table.name then multiset(Flatten(layers[..n])) else multiset{})
    ensures forall t :: Entered(batches + [Batch(table, layers[n])], t)
                        == Entered(before, t) + (if t == table.name then multiset(Flatten(layers[..n
                            + 1])) else multiset{})
  {
    var next := batches + [Batch(table, layers[n])];
    assert next[..|next| - 1] == batches;
    assert layers[..n + 1][..n] == layers[..n];
  }

  /** Every reference made by layer `n` is met by the batches so far. */
  lemma LayerBacked(batches: seq<Batch>, before: seq<Batch>, table: Table, rows: seq<Row>, layers: seq<seq<Row>>,
                    n: nat)
    requires n < |layers| && Layered(layers, table.SelfKeys()) && forall r | r in layers[n] :: r in rows
    requires |before| <= |batches| && batches[..|before|] == before
    requires forall j, id {:trigger HasId(layers[j], id)} | 0 <= j < n && HasId(layers[j], id) ::
               EnteredBefore(batches, |batches|, table.name, id)
    requires forall r, fk | r in rows && fk in table.foreignKeys && fk.target != table.name ::
               fk.column in r && (r[fk.column] == Null || EnteredBefore(before, |before|, fk.target, r[fk.column]))
    ensures forall r, fk | r in layers[n] && fk in table.foreignKeys ::
              fk.column in r && (r[fk.column] == Null || EnteredBefore(batches, |batches|, fk.target, r[fk.column]))
  {
    forall r, fk | r in layers[n] && fk in table.foreignKeys
      ensures fk.column in r && (r[fk.column] == Null || EnteredBefore(batches, |batches|, fk.target, r[fk.column]))
    {
      if fk.target == table.name {
        assert Met(layers, n, r, fk.column);
        if r[fk.column] != Null {
          var j :| 0 <= j < |layers[..n]| && HasId(layers[..n][j], r[fk.column]);
          assert HasId(layers[j], r[fk.column]);
        }
      } else if r[fk.column] != Null {
        var j :| 0 <= j < |before| && before[j].table.name == fk.target && HasId(before[j].rows, r[fk.column]);
        assert batches[j] == batches[..|before|][j];
      }
    }
  }
}
