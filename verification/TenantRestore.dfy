/** Restoring a validated bundle: secrets move to fresh references, rows enter in dependency
    order, and any failure puts the vault and the database back. */
module TenantRestore {
  import opened Common
  import opened Layering
  import opened TenantBundle

  /* ---------- secret relocation ---------- */

  /** A cell that holds a secret reference. */
  datatype Slot = Slot(table: string, index: nat, column: string)

  function SlotsOfRow(table: string, index: nat, row: Row, columns: seq<string>): seq<Slot> {
    if columns == [] then []
    else
      (if columns[0] in row && Truthy(row[columns[0]]) then [Slot(table, index, columns[0])] else [])
      + SlotsOfRow(table, index, row, columns[1..])
  }

  function SlotsOfRows(table: string, rows: seq<Row>, columns: seq<string>): seq<Slot> {
    if rows == [] then []
    else
      var last := |rows| - 1;
      SlotsOfRows(table, rows[..last], columns) + SlotsOfRow(table, last, rows[last], columns)
  }

  /** Every secret cell of a bundle, in the order in which the secrets are copied. */
  function SlotsOf(secrets: seq<SecretColumns>, tables: map<string, seq<Row>>): seq<Slot> {
    if secrets == [] then []
    else
      (if secrets[0].table in tables then SlotsOfRows(secrets[0].table, tables[secrets[0].table], secrets[0].columns)
         else [])
      + SlotsOf(secrets[1..], tables)
  }

  ghost predicate IsSlot(secrets: seq<SecretColumns>, tables: map<string, seq<Row>>, s: Slot) {
    && s.table in tables && s.index < |tables[s.table]|
    && s.column in tables[s.table][s.index] && Truthy(tables[s.table][s.index][s.column])
    && exists k :: 0 <= k < |secrets| && secrets[k].table == s.table && s.column in secrets[k].columns
  }

  lemma {:induction false} RowSlots(table: string, index: nat, row: Row, columns: seq<string>)
    requires Distinct(columns)
    ensures forall s :: s in SlotsOfRow(table, index, row, columns)
                        <==> && s.table == table && s.index == index && s.column in columns
                             && s.column in row && Truthy(row[s.column])
    ensures Distinct(SlotsOfRow(table, index, row, columns))
  {
    if columns != [] {
      RowSlots(table, index, row, columns[1..]);
      assert columns == [columns[0]] + columns[1..];
      assert columns[0] !in columns[1..];
    }
  }

  lemma {:induction false} RowsSlots(table: string, rows: seq<Row>, columns: seq<string>)
    requires Distinct(columns)
    ensures forall s :: s in SlotsOfRows(table, rows, columns)
                        <==> s.table == table && s.index < |rows| && s.column in columns && s.column in rows[s.index]
                             && Truthy(rows[s.index][s.column])
    ensures Distinct(SlotsOfRows(table, rows, columns))
  {
    if rows != [] {
      var last := |rows| - 1;
      RowsSlots(table, rows[..last], columns);
      RowSlots(table, last, rows[last], columns);
      DistinctAppend(SlotsOfRows(table, rows[..last], columns), SlotsOfRow(table, last, rows[last], columns));
    }
  }

  /** The enumeration visits each secret cell exactly once. */
  lemma {:induction false} SlotsComplete(secrets: seq<SecretColumns>, tables: map<string, seq<Row>>)
    requires forall i, j | 0 <= i < j < |secrets| :: secrets[i].table != secrets[j].table
    requires forall i | 0 <= i < |secrets| :: Distinct(secrets[i].columns)
    ensures forall s :: s in SlotsOf(secrets, tables) <==> IsSlot(secrets, tables, s)
    ensures Distinct(SlotsOf(secrets, tables))
  {
    if secrets != [] {
      var rest := secrets[1..];
      SlotsComplete(rest, tables);
      var head := if secrets[0].table in tables
        then SlotsOfRows(secrets[0].table, tables[secrets[0].table], secrets[0].columns) else [];
      if secrets[0].table in tables {
        RowsSlots(secrets[0].table, tables[secrets[0].table], secrets[0].columns);
      }
      forall s
        ensures IsSlot(secrets, tables, s) <==> s in head || IsSlot(rest, tables, s)
      {
        if IsSlot(rest, tables, s) {
          var k :| 0 <= k < |rest| && rest[k].table == s.table && s.column in rest[k].columns;
          assert secrets[k + 1] == rest[k];
        }
        if IsSlot(secrets, tables, s) && s !in head {
          var k :| 0 <= k < |secrets| && secrets[k].table == s.table && s.column in secrets[k].columns;
          assert k != 0 && rest[k - 1] == secrets[k];
        }
      }
      assert forall k | 0 <= k < |rest| :: rest[k] == secrets[k + 1];
      assert forall s | s in head :: !IsSlot(rest, tables, s);
      DistinctAppend(head, SlotsOf(rest, tables));
    }
  }

  const PREFIX := "GHBF_IMPORT_"

  function StripDashes(id: string): string {
    if id == "" then "" else (if id[0] == '-' then "" else [id[0]]) + StripDashes(id[1..])
  }

  /** The part of a fresh reference that tells two cells of one import apart. */
  function Suffix(id: string, column: string): string {
    StripDashes(id) + "_" + column
  }

  function Ref(ns: string, id: string, column: string): string {
    PREFIX + ns + "_" + Suffix(id, column)
  }

  predicate Addressed(tables: map<string, seq<Row>>, s: Slot) {
    s.table in tables && s.index < |tables[s.table]| && ID in tables[s.table][s.index]
    && tables[s.table][s.index][ID].Text?
  }

  function SlotId(tables: map<string, seq<Row>>, s: Slot): string {
    if Addressed(tables, s) then tables[s.table][s.index][ID].text else ""
  }

  function SlotRef(ns: string, tables: map<string, seq<Row>>, s: Slot): string {
    Ref(ns, SlotId(tables, s), s.column)
  }

  function SlotSuffix(tables: map<string, seq<Row>>, s: Slot): string {
    Suffix(SlotId(tables, s), s.column)
  }

  /** The secret that a cell refers to in the bundle. */
  function SlotSecret(payload: Payload, s: Slot): string {
    if s.table in payload.tables && s.index < |payload.tables[s.table]| && s.column in payload.tables[s.table][s.index]
       && payload.tables[s.table][s.index][s.column].Text?
       && payload.tables[s.table][s.index][s.column].text in payload.secrets
    then payload.secrets[payload.tables[s.table][s.index][s.column].text]
    else ""
  }

  /** The vault once the secrets of `slots` have been written in order. */
  function Stored(vault: map<string, string>, payload: Payload, slots: seq<Slot>, ns: string): map<string, string> {
    if slots == [] then vault
    else
      var last := |slots| - 1;
      Stored(vault, payload, slots[..last],
             ns)[SlotRef(ns, payload.tables, slots[last]) := SlotSecret(payload, slots[last])]
  }

  /** Two cells that get the same fresh reference hold the same secret. */
  ghost predicate NoClash(payload: Payload, slots: seq<Slot>) {
    forall s, t | s in slots && t in slots && SlotSuffix(payload.tables, s) == SlotSuffix(payload.tables, t) ::
      SlotSecret(payload, s) == SlotSecret(payload, t)
  }

  ghost predicate Resolved(payload: Payload, slots: seq<Slot>, ns: string, vault: map<string, string>) {
    forall s | s in slots ::
      SlotRef(ns, payload.tables, s) in vault && vault[SlotRef(ns, payload.tables, s)] == SlotSecret(payload, s)
  }

  /** Every reference that was written keeps the secret of the last cell that claimed it. */
  lemma {:induction false} LastWriterWins(vault: map<string, string>, payload: Payload, slots: seq<Slot>, ns: string,
                                          s: Slot)
    returns (n: nat)
    requires s in slots
    ensures n < |slots| && SlotRef(ns, payload.tables, s) == SlotRef(ns, payload.tables, slots[n])
    ensures forall m | n < m < |slots| :: SlotRef(ns, payload.tables, slots[m]) != SlotRef(ns, payload.tables, s)
    ensures SlotRef(ns, payload.tables, s) in Stored(vault, payload, slots, ns)
    ensures Stored(vault, payload, slots, ns)[SlotRef(ns, payload.tables, s)] == SlotSecret(payload, slots[n])
    decreases |slots|
  {
    n := |slots| - 1;
    var last := n;
    if SlotRef(ns, payload.tables, slots[last]) != SlotRef(ns, payload.tables, s) {
      assert slots == slots[..last] + [slots[last]];
      n := LastWriterWins(vault, payload, slots[..last], ns, s);
      assert forall m | n < m < last :: slots[..last][m] == slots[m];
    }
  }

  lemma RefsAgree(payload: Payload, ns: string, s: Slot, t: Slot)
    ensures SlotRef(ns, payload.tables, s) == SlotRef(ns, payload.tables, t)
            <==> SlotSuffix(payload.tables, s) == SlotSuffix(payload.tables, t)
  {
    var head := PREFIX + ns + "_";
    assert SlotRef(ns, payload.tables, s)[|head|..] == SlotSuffix(payload.tables, s);
    assert SlotRef(ns, payload.tables, t)[|head|..] == SlotSuffix(payload.tables, t);
  }

  /** Relocation keeps every secret reachable exactly when no two cells clash. */
  lemma RelocationFaithful(vault: map<string, string>, payload: Payload, slots: seq<Slot>, ns: string)
    ensures Resolved(payload, slots, ns, Stored(vault, payload, slots, ns)) <==> NoClash(payload, slots)
  {
    var after := Stored(vault, payload, slots, ns);
    if NoClash(payload, slots) {
      forall s | s in slots
        ensures SlotRef(ns, payload.tables, s) in after
                && after[SlotRef(ns, payload.tables, s)] == SlotSecret(payload, s)
      {
        var n := LastWriterWins(vault, payload, slots, ns, s);
        RefsAgree(payload, ns, s, slots[n]);
      }
    }
    if Resolved(payload, slots, ns, after) {
      forall s, t | s in slots && t in slots && SlotSuffix(payload.tables, s) == SlotSuffix(payload.tables, t)
        ensures SlotSecret(payload, s) == SlotSecret(payload, t)
      {
        RefsAgree(payload, ns, s, t);
      }
    }
  }

  lemma {:induction false} StripKeepsClear(id: string)
    requires '_' !in id
    ensures '_' !in StripDashes(id)
  {
    if id != "" {
      assert id == [id[0]] + id[1..];
      StripKeepsClear(id[1..]);
    }
  }

  /** Length of the part before the first underscore. */
  function Head(s: string): nat {
    if s == "" || s[0] == '_' then 0 else 1 + Head(s[1..])
  }

  lemma {:induction false} HeadOf(a: string, column: string)
    requires '_' !in a
    ensures Head(a + "_" + column) == |a|
  {
    if a != "" {
      var s := a + "_" + column;
      assert a == [a[0]] + a[1..];
      assert s[1..] == a[1..] + "_" + column;
      HeadOf(a[1..], column);
    } else {
      assert (a + "_" + column)[0] == '_';
    }
  }

  /** An id without underscores can be read back off a reference. */
  lemma SuffixInjective(id: string, column: string, id': string, column': string)
    requires '_' !in id && '_' !in id'
    requires Suffix(id, column) == Suffix(id', column')
    ensures StripDashes(id) == StripDashes(id') && column == column'
  {
    StripKeepsClear(id);
    StripKeepsClear(id');
    var a, b := StripDashes(id), StripDashes(id');
    HeadOf(a, column);
    HeadOf(b, column');
    assert Suffix(id, column)[..|a|] == a && Suffix(id', column')[..|b|] == b;
    assert Suffix(id, column)[|a| + 1..] == column && Suffix(id', column')[|b| + 1..] == column';
  }

  /** Rows whose ids, like UUIDs, hold no underscore and stay apart across the secret-bearing
      tables once dashes are dropped never clash. */
  lemma DistinctIdsNeverClash(payload: Payload, slots: seq<Slot>)
    requires forall s | s in slots :: '_' !in SlotId(payload.tables, s)
    requires forall s, t | s in slots && t in slots
                           && StripDashes(SlotId(payload.tables, s)) == StripDashes(SlotId(payload.tables, t)) ::
               s.table == t.table && s.index == t.index
    ensures NoClash(payload, slots)
  {
    forall s, t | s in slots && t in slots && SlotSuffix(payload.tables, s) == SlotSuffix(payload.tables, t)
      ensures SlotSecret(payload, s) == SlotSecret(payload, t)
    {
      SuffixInjective(SlotId(payload.tables, s), s.column, SlotId(payload.tables, t), t.column);
    }
  }

  /** A bundle row with the listed cells pointing at their fresh references. */
  function RelocatedRow(ns: string, tables: map<string, seq<Row>>, done: set<Slot>, table: string, index: nat): Row
    requires table in tables && index < |tables[table]|
  {
    map c | c in tables[table][index] ::
      if Slot(table, index, c) in done then Text(SlotRef(ns, tables, Slot(table, index, c)))
        else tables[table][index][c]
  }

  ghost predicate Relocated(ns: string, tables: map<string, seq<Row>>, data: map<string, seq<Row>>, done: set<Slot>) {
    && data.Keys == tables.Keys
    && (forall t | t in tables :: |data[t]| == |tables[t]|)
    && (forall t, i | t in tables && 0 <= i < |tables[t]| :: data[t][i] == RelocatedRow(ns, tables, done, t, i))
  }

  /* ---------- quiescing ---------- */

  const REWRITTEN := {"is_active", "settings", "is_enabled", "runtime_revision", "status", "version", "evidence",
                      "error_code"}
  const LOCAL_KEYS := {"admin_public_url", "miniapp_public_url", "_installation_evidence",
                       "_attention_acknowledgements"}

  function QuiescedTenant(row: Row, activate: bool): Option<Row> {
    if "is_active" in row && "settings" in row && row["settings"].Document? then
      Some(row["is_active" := if activate then row["is_active"] else Flag(false)]
              ["settings" := Document(row["settings"].entries - LOCAL_KEYS)])
    else None
  }

  function QuiescedBot(row: Row, activate: bool): Option<Row> {
    if "is_enabled" in row && "runtime_revision" in row && row["runtime_revision"].Number? then
      Some(row["is_enabled" := if activate then row["is_enabled"] else Flag(false)]
              ["runtime_revision" := Number(row["runtime_revision"].n + 1)])
    else None
  }

  function QuiescedUpdate(row: Row): Option<Row> {
    if "status" !in row then None
    else if row["status"] !in {Text("PROPOSED"), Text("APPROVED"), Text("BACKED_UP")} then Some(row)
    else if "version" in row && row["version"].Number? && "evidence" in row then
      Some(row["status" := Text("CANCELLED")]["version" := Number(row["version"].n + 1)]
              ["evidence" := Text("Cancelled during destination restore; request fresh local approval.")])
    else None
  }

  function QuiescedAnnouncement(row: Row): Option<Row> {
    if "status" !in row then None
    else Some(if row["status"] == Text("QUEUED") then row["status" := Text("CANCELLED")] else row)
  }

  function QuiescedDelivery(row: Row): Option<Row> {
    if "status" !in row || "error_code" !in row then None
    else if row["status"] in {Text("QUEUED"), Text("RUNNING")} then
      Some(row["status" := Text(if row["status"] == Text("RUNNING") then "UNKNOWN" else "CANCELLED")]
              ["error_code" := Text("DESTINATION_RESTORE")])
    else Some(row)
  }

  /** What a restored row carries over: nothing that would resume work or point at the source.
      `None` is the type error that an unexpected cell raises. */
  function Quiesced(table: string, row: Row, activate: bool): (r: Option<Row>)
    ensures r.Some? ==> r.value.Keys == row.Keys && forall c | c in row && c !in REWRITTEN :: r.value[c] == row[c]
  {
    if table == "tenants" then QuiescedTenant(row, activate)
    else if table == "bots" then QuiescedBot(row, activate)
    else if table == "customer_updates" then QuiescedUpdate(row)
    else if table == "announcements" then QuiescedAnnouncement(row)
    else if table == "announcement_deliveries" then QuiescedDelivery(row)
    else Some(row)
  }

  /** A status under which work would go on at the destination. */
  predicate Pending(table: string, status: Cell) {
    || (table == "customer_updates" && status in {Text("PROPOSED"), Text("APPROVED"), Text("BACKED_UP")})
    || (table == "announcements" && status == Text("QUEUED"))
    || (table == "announcement_deliveries" && status in {Text("QUEUED"), Text("RUNNING")})
  }

  /** Rows of one shape that agree outside the listed columns. */
  ghost predicate SameBut(row: Row, r: Row, columns: set<string>) {
    r.Keys == row.Keys && forall c | c in row && c !in columns :: r[c] == row[c]
  }

  /** A tenant goes on only where activation was asked for, and without the addresses of the source. */
  lemma TenantQuiesced(row: Row, activate: bool)
    ensures QuiescedTenant(row, activate).Some? <==>
            "is_active" in row && "settings" in row && row["settings"].Document?
    ensures QuiescedTenant(row, activate).Some? ==>
              var r := QuiescedTenant(row, activate).value;
              && SameBut(row, r, {"is_active", "settings"})
              && r["is_active"] == (if activate then row["is_active"] else Flag(false))
              && r["settings"].Document? && r["settings"].entries.Keys == row["settings"].entries.Keys -
                   {"admin_public_url", "miniapp_public_url", "_installation_evidence", "_attention_acknowledgements"}
              && forall k | k in r["settings"].entries :: r["settings"].entries[k] == row["settings"].entries[k]
  {
    ColumnsApart();
  }

  /** A bot runs only where activation was asked for, and starts anew. */
  lemma BotQuiesced(row: Row, activate: bool)
    ensures QuiescedBot(row, activate).Some? <==>
            "is_enabled" in row && "runtime_revision" in row && row["runtime_revision"].Number?
    ensures QuiescedBot(row, activate).Some? ==>
              var r := QuiescedBot(row, activate).value;
              && SameBut(row, r, {"is_enabled", "runtime_revision"})
              && r["is_enabled"] == (if activate then row["is_enabled"] else Flag(false))
              && r["runtime_revision"] == Number(row["runtime_revision"].n + 1)
  {
    ColumnsApart();
  }

  /** A change that was not yet carried out needs a new approval; any other is kept as it is. */
  lemma UpdateQuiesced(row: Row)
    ensures QuiescedUpdate(row).Some? <==>
            && "status" in row
            && (row["status"] in {Text("PROPOSED"), Text("APPROVED"), Text("BACKED_UP")} ==>
                  "version" in row && row["version"].Number? && "evidence" in row)
    ensures QuiescedUpdate(row).Some? ==>
              var r := QuiescedUpdate(row).value;
              if row["status"] in {Text("PROPOSED"), Text("APPROVED"), Text("BACKED_UP")} then
                && SameBut(row, r, {"status", "version", "evidence"})
                && r["status"] == Text("CANCELLED") && r["version"] == Number(row["version"].n + 1)
                && r["evidence"] == Text("Cancelled during destination restore; request fresh local approval.")
              else r == row
  {
    ColumnsApart();
  }

  lemma AnnouncementQuiesced(row: Row)
    ensures QuiescedAnnouncement(row).Some? <==> "status" in row
    ensures QuiescedAnnouncement(row).Some? ==>
              var r := QuiescedAnnouncement(row).value;
              if row["status"] == Text("QUEUED") then
                SameBut(row, r, {"status"}) && r["status"] == Text("CANCELLED")
              else r == row
  {
  }

  /** A send that was under way may have happened; one that was not is called off. */
  lemma DeliveryQuiesced(row: Row)
    ensures QuiescedDelivery(row).Some? <==> "status" in row && "error_code" in row
    ensures QuiescedDelivery(row).Some? ==>
              var r := QuiescedDelivery(row).value;
              if row["status"] in {Text("QUEUED"), Text("RUNNING")} then
                && SameBut(row, r, {"status", "error_code"}) && r["error_code"] == Text("DESTINATION_RESTORE")
                && (row["status"] == Text("RUNNING") ==> r["status"] == Text("UNKNOWN"))
                && (row["status"] == Text("QUEUED") ==> r["status"] == Text("CANCELLED"))
              else r == row
  {
    ColumnsApart();
  }

  /** No pending status is left, interrupted sends are UNKNOWN and everything else that was pending CANCELLED, and any
      other row with a status is kept, except that tenants and bots are switched off. */
  predicate ResumesNothing(table: string, row: Row, r: Row) {
    && ("status" in r ==> !Pending(table, r["status"]))
    && ("status" in row && Pending(table, row["status"]) ==>
          "status" in r
          && r["status"] == Text(if row["status"] == Text("RUNNING") then "UNKNOWN" else "CANCELLED"))
    && ("status" in row && !Pending(table, row["status"]) && table != "tenants" && table != "bots" ==> r == row)
  }

  lemma PendingIsCancelled(row: Row)
    ensures QuiescedUpdate(row).Some? ==> ResumesNothing("customer_updates", row, QuiescedUpdate(row).value)
    ensures QuiescedAnnouncement(row).Some? ==> ResumesNothing("announcements", row, QuiescedAnnouncement(row).value)
  {
    TablesApart();
    ColumnsApart();
  }

  lemma SendsAreCancelled(row: Row)
    ensures QuiescedDelivery(row).Some? ==> ResumesNothing("announcement_deliveries", row, QuiescedDelivery(row).value)
  {
    TablesApart();
    ColumnsApart();
  }

  /** A quiesced row resumes nothing. */
  lemma QuiescedResumesNothing(table: string, row: Row, activate: bool)
    requires Quiesced(table, row, activate).Some?
    ensures ResumesNothing(table, row, Quiesced(table, row, activate).value)
  {
    TablesApart();
    if table == "customer_updates" || table == "announcements" {
      PendingIsCancelled(row);
    } else if table == "announcement_deliveries" {
      SendsAreCancelled(row);
    }
  }

  /** The columns that a restore may rewrite in each table; in every other table there are none. */
  function RewrittenIn(table: string): set<string> {
    if table == "tenants" then {"is_active", "settings"}
    else if table == "bots" then {"is_enabled", "runtime_revision"}
    else if table == "customer_updates" then {"status", "version", "evidence"}
    else if table == "announcements" then {"status"}
    else if table == "announcement_deliveries" then {"status", "error_code"}
    else {}
  }

  /** Quiescing touches only those columns, so a row of any other table is left exactly as it is. */
  lemma QuiescedElsewhere(table: string, row: Row, activate: bool)
    requires Quiesced(table, row, activate).Some?
    ensures SameBut(row, Quiesced(table, row, activate).value, RewrittenIn(table))
    ensures table !in {"tenants", "bots", "customer_updates", "announcements", "announcement_deliveries"} ==>
              Quiesced(table, row, activate).value == row
  {
    TenantQuiesced(row, activate);
    BotQuiesced(row, activate);
    UpdateQuiesced(row);
    AnnouncementQuiesced(row);
    DeliveryQuiesced(row);
  }

  /** Which of the five tables a row is rewritten as is decided by the table's name alone. */
  lemma QuiescedByTable(row: Row, activate: bool)
    ensures Quiesced("tenants", row, activate) == QuiescedTenant(row, activate)
    ensures Quiesced("bots", row, activate) == QuiescedBot(row, activate)
    ensures Quiesced("customer_updates", row, activate) == QuiescedUpdate(row)
    ensures Quiesced("announcements", row, activate) == QuiescedAnnouncement(row)
    ensures Quiesced("announcement_deliveries", row, activate) == QuiescedDelivery(row)
  {
    TablesApart();
  }

  lemma TablesApart()
    ensures "tenants" !in {"bots", "customer_updates", "announcements", "announcement_deliveries"}
    ensures "bots" !in {"customer_updates", "announcements", "announcement_deliveries"}
    ensures "customer_updates" !in {"announcements", "announcement_deliveries"}
    ensures "announcements" != "announcement_deliveries"
  {
    assert |"tenants"| == 7 && |"bots"| == 4 && |"customer_updates"| == 16 && |"announcements"| == 13;
    assert |"announcement_deliveries"| == 23;
  }

  lemma ColumnsApart()
    ensures "is_active" != "settings" && "is_enabled" != "runtime_revision" && "status" != "version"
            && "status" != "evidence"
    ensures "version" != "evidence" && "status" != "error_code"
    ensures "CANCELLED" !in {"PROPOSED", "APPROVED", "BACKED_UP", "QUEUED", "RUNNING", "UNKNOWN"}
    ensures "UNKNOWN" !in {"QUEUED", "RUNNING"} && "QUEUED" != "RUNNING"
  {
    assert |"is_active"| == 9 && |"settings"| == 8 && |"is_enabled"| == 10 && |"runtime_revision"| == 16;
    assert |"status"| == 6 && |"version"| == 7 && |"evidence"| == 8 && |"error_code"| == 10;
    assert "CANCELLED"[0] != "BACKED_UP"[0] && |"PROPOSED"| == 8 && |"APPROVED"| == 8 && |"QUEUED"| == 6
           && |"RUNNING"| == 7;
    assert |"CANCELLED"| == 9 && |"UNKNOWN"| == 7 && "UNKNOWN"[0] != "RUNNING"[0];
  }

  ghost predicate AllQuiesced(data: map<string, seq<Row>>, quiet: map<string, seq<Row>>, activate: bool) {
    && quiet.Keys == data.Keys
    && (forall t | t in data :: TableQuiesced(t, data[t], quiet[t], activate))
  }

  ghost predicate TableQuiesced(table: string, rows: seq<Row>, quiet: seq<Row>, activate: bool) {
    |quiet| == |rows| && forall i | 0 <= i < |rows| :: Quiesced(table, rows[i], activate) == Some(quiet[i])
  }

  method QuiesceRows(table: string, rows: seq<Row>, activate: bool) returns (ok: bool, quiet: seq<Row>)
    ensures ok <==> forall i | 0 <= i < |rows| :: Quiesced(table, rows[i], activate).Some?
    ensures ok ==> |quiet| == |rows| && forall i | 0 <= i < |rows| ::
              Quiesced(table, rows[i], activate) == Some(quiet[i])
  {
    ok, quiet := true, [];
    for i := 0 to |rows|
      invariant ok && |quiet| == i
      invariant forall j | 0 <= j < i :: Quiesced(table, rows[j], activate) == Some(quiet[j])
    {
      var row := Quiesced(table, rows[i], activate);
      if row.None? {
        ok := false;
        return;
      }
      quiet := quiet + [row.value];
    }
  }

  /** Every row of the table can be rewritten. */
  ghost predicate Quiescable(table: string, rows: seq<Row>, activate: bool) {
    forall i | 0 <= i < |rows| :: Quiesced(table, rows[i], activate).Some?
  }

  ghost predicate Quieted(data: map<string, seq<Row>>, quiet: map<string, seq<Row>>, table: string, activate: bool) {
    && table in data && table in quiet && Quiescable(table, data[table], activate)
    && TableQuiesced(table, data[table], quiet[table], activate)
  }

  /** Rewrites every table; fails exactly when some row cannot be rewritten. */
  method QuiesceAll(schema: Schema, data: map<string, seq<Row>>, activate: bool)
    returns (ok: bool, quiet: map<string, seq<Row>>)
    requires schema.WellFormed() && data.Keys == schema.Names()
    ensures ok <==> forall t | t in data :: Quiescable(t, data[t], activate)
    ensures ok ==> AllQuiesced(data, quiet, activate)
  {
    ok, quiet := true, data;
    TablesNamed(schema);
    for n := 0 to |schema.tables|
      invariant ok && quiet.Keys == data.Keys
      invariant forall m | n <= m < |schema.tables| :: quiet[schema.tables[m].name] == data[schema.tables[m].name]
      invariant forall m | 0 <= m < n :: Quieted(data, quiet, schema.tables[m].name, activate)
    {
      var name := schema.tables[n].name;
      var rows: seq<Row>;
      ok, rows := QuiesceRows(name, quiet[name], activate);
      if !ok {
        assert !Quiescable(name, data[name], activate);
        return;
      }
      QuietedMore(data, quiet, name, rows, activate);
      quiet := quiet[name := rows];
    }
    EveryTableQuieted(schema, data, quiet, activate);
  }

  lemma QuietedMore(data: map<string, seq<Row>>, quiet: map<string, seq<Row>>, name: string, rows: seq<Row>,
                    activate: bool)
    requires name in data && Quiescable(name, data[name], activate) && TableQuiesced(name, data[name], rows, activate)
    ensures Quieted(data, quiet[name := rows], name, activate)
    ensures forall t | t != name && Quieted(data, quiet, t, activate) ::
              Quieted(data, quiet[name := rows], t, activate)
  {
  }

  lemma EveryTableQuieted(schema: Schema, data: map<string, seq<Row>>, quiet: map<string, seq<Row>>, activate: bool)
    requires data.Keys == schema.Names() && quiet.Keys == data.Keys
    requires forall m | 0 <= m < |schema.tables| :: Quieted(data, quiet, schema.tables[m].name, activate)
    ensures AllQuiesced(data, quiet, activate) && forall t | t in data :: Quiescable(t, data[t], activate)
  {
    TablesNamed(schema);
    forall t | t in data
      ensures Quieted(data, quiet, t, activate)
    {
      assert t in schema.Names();
    }
  }

  /* ---------- the destination ---------- */

  datatype Batch = Batch(table: Table, rows: seq<Row>)

  /** Some batch before the `n`-th put a row with this id into `table`. */
  ghost predicate EnteredBefore(batches: seq<Batch>, n: nat, table: string, id: Cell)
    requires n <= |batches|
  {
    exists j :: 0 <= j < n && batches[j].table.name == table && HasId(batches[j].rows, id)
  }

  ghost predicate Backed(batches: seq<Batch>, i: nat, r: Row, fk: ForeignKey)
    requires i <= |batches|
  {
    fk.column in r && (r[fk.column] == Null || EnteredBefore(batches, i, fk.target, r[fk.column]))
  }

  /** No batch, and so no prefix of the restore, refers to a row that is not yet there. */
  ghost predicate Closed(batches: seq<Batch>) {
    forall i, r, fk {:trigger Backed(batches, i, r, fk)}
      | 0 <= i < |batches| && r in batches[i].rows && fk in batches[i].table.foreignKeys :: Backed(batches, i, r, fk)
  }

  /** The rows that entered `table`, with their multiplicity. */
  ghost function Entered(batches: seq<Batch>, table: string): multiset<Row> {
    if batches == [] then multiset{}
    else
      var last := batches[|batches| - 1];
      Entered(batches[..|batches| - 1], table) + (if last.table.name == table then multiset(last.rows) else multiset{})
  }

  lemma {:induction false} EnteredIsBefore(batches: seq<Batch>, table: string, r: Row)
    requires r in Entered(batches, table) && ID in r
    ensures EnteredBefore(batches, |batches|, table, r[ID])
  {
    var n := |batches| - 1;
    if batches[n].table.name == table && r in batches[n].rows {
      assert HasId(batches[n].rows, r[ID]);
    } else {
      EnteredIsBefore(batches[..n], table, r);
      var j :| 0 <= j < n && batches[..n][j].table.name == table && HasId(batches[..n][j].rows, r[ID]);
      assert batches[j].table.name == table;
    }
  }

  lemma ClosedExtends(batches: seq<Batch>, batch: Batch)
    requires Closed(batches)
    requires forall r, fk | r in batch.rows && fk in batch.table.foreignKeys ::
               fk.column in r && (r[fk.column] == Null || EnteredBefore(batches, |batches|, fk.target, r[fk.column]))
    ensures Closed(batches + [batch])
  {
    var next := batches + [batch];
    forall i, r, fk | 0 <= i < |next| && r in next[i].rows && fk in next[i].table.foreignKeys
      ensures Backed(next, i, r, fk)
    {
      assert i < |batches| ==> Backed(batches, i, r, fk);
      if r[fk.column] != Null {
        var j :| 0 <= j < i && batches[j].table.name == fk.target && HasId(batches[j].rows, r[fk.column]);
        assert next[j] == batches[j];
      }
    }
  }

  lemma EnteredBeforeExtends(batches: seq<Batch>, batch: Batch, table: string, id: Cell)
    requires EnteredBefore(batches, |batches|, table, id) || (batch.table.name == table && HasId(batch.rows, id))
    ensures EnteredBefore(batches + [batch], |batches| + 1, table, id)
  {
    var next := batches + [batch];
    if EnteredBefore(batches, |batches|, table, id) {
      var j :| 0 <= j < |batches| && batches[j].table.name == table && HasId(batches[j].rows, id);
      assert next[j] == batches[j];
    } else {
      assert next[|batches|] == batch;
    }
  }
}
