/** A bundle that the validator accepts, the restore takes in, and that loses a secret on the way. */
module BundleExample {
  import opened Common
  import opened Layering
  import opened TenantBundle
  import opened TenantRestore
  import opened Destination

  const BOTS := "bots"
  const JOBS := "bot_provisioning_jobs"
  const TOKEN := "token_secret_ref"

  const OWNED := ForeignKey(TENANT_ID, TENANTS)

  const TENANT_TABLE := Table(TENANTS, {ID, "is_active", "settings"}, [])
  const BOT_TABLE := Table(BOTS, {ID, TENANT_ID, TOKEN, "is_enabled", "runtime_revision"}, [OWNED])
  const JOB_TABLE := Table(JOBS, {ID, TENANT_ID, TOKEN}, [OWNED])

  const SECRETS := [SecretColumns(BOTS, [TOKEN]), SecretColumns(JOBS, [TOKEN])]
  const SCHEMA := Schema("f", "s", [TENANT_TABLE, BOT_TABLE, JOB_TABLE], SECRETS)

  const TENANT_UUID := "5f0c1c9e-8a57-4a0e-9d1b-2f6a3c4d5e6f"
  const SHARED_UUID := "0b9d7a52-3e41-4c8f-8f26-7a1d9e0c5b34"

  const TENANT: Row := map[ID := Text(TENANT_UUID), "is_active" := Flag(true), "settings" := Document(map[])]
  const BOT: Row := map[ID := Text(SHARED_UUID), TENANT_ID := Text(TENANT_UUID), TOKEN := Text("x"),
                        "is_enabled" := Flag(true), "runtime_revision" := Number(0)]
  const JOB: Row := map[ID := Text(SHARED_UUID), TENANT_ID := Text(TENANT_UUID), TOKEN := Text("y")]

  const DATA: map<string, seq<Row>> := map[TENANTS := [TENANT], BOTS := [BOT], JOBS := [JOB]]
  const BUNDLE := Payload("f", "s", Text(TENANT_UUID), DATA, map["x" := "one", "y" := "two"])

  lemma NamesApart()
    ensures TENANTS != BOTS && TENANTS != JOBS && BOTS != JOBS
    ensures ID != TENANT_ID && ID != TOKEN && TENANT_ID != TOKEN
    ensures SCHEMA.Names() == {TENANTS, BOTS, JOBS}
  {
    assert |TENANTS| == 7 && |BOTS| == 4 && |JOBS| == 21;
    assert |ID| == 2 && |TENANT_ID| == 9 && |TOKEN| == 16;
    var names := SCHEMA.Names();
    assert SCHEMA.tables[0] in SCHEMA.tables && SCHEMA.tables[1] in SCHEMA.tables && SCHEMA.tables[2] in SCHEMA.tables;
  }

  lemma SchemaWellFormed()
    ensures SCHEMA.WellFormed()
  {
    NamesApart();
  }

  lemma KeysAreSettled()
    ensures KeysSettled(SCHEMA)
  {
    assert |ID| == 2 && |TENANT_ID| == 9 && |TOKEN| == 16;
    assert |"is_active"| == 9 && "is_active"[0] != TENANT_ID[0];
    assert forall c | c in REWRITTEN :: c != ID && c != TENANT_ID && c != TOKEN;
  }

  lemma Envelope()
    ensures EnvelopeValid(SCHEMA, BUNDLE)
  {
    NamesApart();
    assert DATA.Keys == {TENANTS, BOTS, JOBS};
  }

  lemma RowsAreValid()
    ensures RowsValid(TENANT_TABLE, DATA[TENANTS], Text(TENANT_UUID))
    ensures RowsValid(BOT_TABLE, DATA[BOTS], Text(TENANT_UUID)) && RowsValid(JOB_TABLE, DATA[JOBS], Text(TENANT_UUID))
  {
    NamesApart();
    assert TENANT_ID !in TENANT by {
      assert |"is_active"| == 9 && "is_active"[0] != TENANT_ID[0] && |"settings"| == 8;
    }
    assert TENANT.Keys == TENANT_TABLE.columns && BOT.Keys == BOT_TABLE.columns && JOB.Keys == JOB_TABLE.columns;
  }

  lemma OwnedLink(table: Table, row: Row)
    requires table.foreignKeys == [OWNED] && TENANT_ID in row && row[TENANT_ID] == Text(TENANT_UUID)
    ensures LinksValid(table, [row], DATA)
  {
    NamesApart();
    assert TENANT in DATA[TENANTS];
    assert HasId(DATA[TENANTS], Text(TENANT_UUID));
  }

  lemma LinksAreValid()
    ensures LinksValid(TENANT_TABLE, DATA[TENANTS], DATA)
    ensures LinksValid(BOT_TABLE, DATA[BOTS], DATA) && LinksValid(JOB_TABLE, DATA[JOBS], DATA)
  {
    NamesApart();
    OwnedLink(BOT_TABLE, BOT);
    OwnedLink(JOB_TABLE, JOB);
  }

  lemma ColumnsAre()
    ensures ColumnsOf(SECRETS, TENANTS) == [] && ColumnsOf(SECRETS, BOTS) == [TOKEN]
            && ColumnsOf(SECRETS, JOBS) == [TOKEN]
  {
    NamesApart();
    var rest := SECRETS[1..];
    assert rest == [SecretColumns(JOBS, [TOKEN])] && rest[1..] == [];
    assert ColumnsOf(rest[1..], TENANTS) == [];
    assert ColumnsOf(rest, TENANTS) == [] && ColumnsOf(rest, JOBS) == [TOKEN];
  }

  lemma SecretsOfTables()
    ensures SecretsOf(DATA[TENANTS], ColumnsOf(SECRETS, TENANTS)) == {}
    ensures SecretsOf(DATA[BOTS], ColumnsOf(SECRETS, BOTS)) == {Text("x")}
    ensures SecretsOf(DATA[JOBS], ColumnsOf(SECRETS, JOBS)) == {Text("y")}
  {
    NamesApart();
    ColumnsAre();
    assert BOT[TOKEN] == Text("x") && JOB[TOKEN] == Text("y");
    assert |"x"| == 1 && |"y"| == 1;
    assert TOKEN in [TOKEN] && DATA[BOTS][0] == BOT && DATA[JOBS][0] == JOB;
  }

  lemma SecretsAreValid()
    ensures SecretsValid(SCHEMA, BUNDLE)
  {
    NamesApart();
    SecretsOfTables();
    var required := RequiredSecrets(SCHEMA, DATA, 3);
    assert Text("x") in required by {
      assert SCHEMA.tables[1] == BOT_TABLE && Text("x") in SecretsOf(DATA[BOTS], ColumnsOf(SECRETS, BOTS));
    }
    assert Text("y") in required by {
      assert SCHEMA.tables[2] == JOB_TABLE && Text("y") in SecretsOf(DATA[JOBS], ColumnsOf(SECRETS, JOBS));
    }
    assert required == {Text("x"), Text("y")};
    assert (set k | k in BUNDLE.secrets :: Text(k)) == {Text("x"), Text("y")};
    assert |"one"| == 3 && |"two"| == 3;
  }

  lemma BundleIsValid()
    ensures Valid(SCHEMA, BUNDLE)
  {
    NamesApart();
    Envelope();
    RowsAreValid();
    LinksAreValid();
    SecretsAreValid();
    assert SCHEMA.tables[0] == TENANT_TABLE && SCHEMA.tables[1] == BOT_TABLE && SCHEMA.tables[2] == JOB_TABLE;
  }

  const BOT_SLOT := Slot(BOTS, 0, TOKEN)
  const JOB_SLOT := Slot(JOBS, 0, TOKEN)

  lemma SlotsAre()
    ensures BOT_SLOT in SlotsOf(SCHEMA.secrets, DATA) && JOB_SLOT in SlotsOf(SCHEMA.secrets, DATA)
  {
    NamesApart();
    SchemaWellFormed();
    SlotsComplete(SECRETS, DATA);
    assert |"x"| == 1 && |"y"| == 1;
    assert SECRETS[0].table == BOTS && TOKEN in SECRETS[0].columns && SECRETS[1].table == JOBS
           && TOKEN in SECRETS[1].columns;
    assert IsSlot(SECRETS, DATA, BOT_SLOT) && IsSlot(SECRETS, DATA, JOB_SLOT);
  }

  lemma SlotsOnly(s: Slot)
    requires s in SlotsOf(SCHEMA.secrets, DATA)
    ensures s == BOT_SLOT || s == JOB_SLOT
  {
    NamesApart();
    SchemaWellFormed();
    SlotsComplete(SECRETS, DATA);
    assert IsSlot(SECRETS, DATA, s);
    var k :| 0 <= k < |SECRETS| && SECRETS[k].table == s.table && s.column in SECRETS[k].columns;
    assert k == 0 || k == 1;
  }

  /** Two cells of rows with one id, in one column, clash when their secrets differ. */
  lemma SharedIdClashes(payload: Payload, slots: seq<Slot>, s: Slot, t: Slot)
    requires s in slots && t in slots && SlotId(payload.tables, s) == SlotId(payload.tables, t) && s.column == t.column
    requires SlotSecret(payload, s) != SlotSecret(payload, t)
    ensures !NoClash(payload, slots)
  {
    assert SlotSuffix(payload.tables, s) == SlotSuffix(payload.tables, t);
  }

  lemma Clash()
    ensures !NoClash(BUNDLE, SlotsOf(SCHEMA.secrets, DATA))
  {
    NamesApart();
    SlotsAre();
    assert SlotSecret(BUNDLE, BOT_SLOT) == "one" && SlotSecret(BUNDLE, JOB_SLOT) == "two" && "one"[0] != "two"[0];
    SharedIdClashes(BUNDLE, SlotsOf(SCHEMA.secrets, DATA), BOT_SLOT, JOB_SLOT);
  }

  /** Only the token cells move. */
  lemma OtherCellsStay(ns: string, done: set<Slot>, t: string, i: nat, c: string)
    requires done == SetOf(SlotsOf(SCHEMA.secrets, DATA)) && t in DATA && i < |DATA[t]| && c in DATA[t][i] && c != TOKEN
    ensures var row := RelocatedRow(ns, DATA, done, t, i); c in row && row[c] == DATA[t][i][c]
  {
    if Slot(t, i, c) in SlotsOf(SCHEMA.secrets, DATA) {
      SlotsOnly(Slot(t, i, c));
    }
  }

  lemma BotCanBeQuiesced(row: Row, activate: bool)
    requires "is_enabled" in row && "runtime_revision" in row && row["runtime_revision"] == Number(0)
    ensures Quiesced(BOTS, row, activate).Some?
  {
    NamesApart();
  }

  lemma TenantCanBeQuiesced(row: Row, activate: bool)
    requires "is_active" in row && "settings" in row && row["settings"] == Document(map[])
    ensures Quiesced(TENANTS, row, activate).Some?
  {
  }

  lemma JobCanBeQuiesced(row: Row, activate: bool)
    ensures Quiesced(JOBS, row, activate).Some?
  {
    NamesApart();
    assert |"customer_updates"| == 16 && |"announcements"| == 13 && |"announcement_deliveries"| == 23;
  }

  lemma RowsCanBeQuiesced(ns: string, activate: bool, done: set<Slot>, t: string, i: nat)
    requires done == SetOf(SlotsOf(SCHEMA.secrets, DATA)) && t in DATA && i < |DATA[t]|
    ensures Quiesced(t, RelocatedRow(ns, DATA, done, t, i), activate).Some?
  {
    NamesApart();
    var row := RelocatedRow(ns, DATA, done, t, i);
    if t == BOTS {
      assert |"is_enabled"| == 10 && |"runtime_revision"| == 16 && "runtime_revision"[0] != TOKEN[0];
      OtherCellsStay(ns, done, t, i, "is_enabled");
      OtherCellsStay(ns, done, t, i, "runtime_revision");
      BotCanBeQuiesced(row, activate);
    } else if t == TENANTS {
      assert |"is_active"| == 9 && |"settings"| == 8;
      OtherCellsStay(ns, done, t, i, "is_active");
      OtherCellsStay(ns, done, t, i, "settings");
      TenantCanBeQuiesced(row, activate);
    } else {
      JobCanBeQuiesced(row, activate);
    }
  }

  lemma NoSelfReferences(rows: seq<Row>, path: seq<Cell>)
    ensures !Cycle(rows, {}, path)
  {
    if |path| >= 2 {
      assert !Edge(rows, {}, path[0], path[0 + 1]);
    }
  }

  lemma NothingCyclic()
    ensures !SomeCycle(SCHEMA, DATA)
  {
    NamesApart();
    forall i | 0 <= i < |SCHEMA.tables|
      ensures !Cyclic(DATA[SCHEMA.tables[i].name], SCHEMA.tables[i].SelfKeys())
    {
      assert SCHEMA.tables[i].SelfKeys() == {};
      forall path
        ensures !Cycle(DATA[SCHEMA.tables[i].name], {}, path)
      {
        NoSelfReferences(DATA[SCHEMA.tables[i].name], path);
      }
    }
  }

  lemma BundleIsRewritable(ns: string, activate: bool)
    ensures Rewritable(SCHEMA, BUNDLE, ns, activate)
  {
    forall s | s in SlotsOf(SCHEMA.secrets, DATA)
      ensures Addressed(DATA, s)
    {
      SlotsOnly(s);
      NamesApart();
    }
    forall t, i | t in DATA && 0 <= i < |DATA[t]|
      ensures Quiesced(t, RelocatedRow(ns, DATA, SetOf(SlotsOf(SCHEMA.secrets, DATA)), t, i), activate).Some?
    {
      RowsCanBeQuiesced(ns, activate, SetOf(SlotsOf(SCHEMA.secrets, DATA)), t, i);
    }
  }

  /** The restore takes the bundle in: nothing about it can fail. */
  lemma RestoreTakesIt(ns: string, activate: bool)
    ensures SCHEMA.WellFormed() && KeysSettled(SCHEMA) && Valid(SCHEMA, BUNDLE)
    ensures Rewritable(SCHEMA, BUNDLE, ns, activate) && !SomeCycle(SCHEMA, BUNDLE.tables)
  {
    SchemaWellFormed();
    KeysAreSettled();
    BundleIsValid();
    NothingCyclic();
    BundleIsRewritable(ns, activate);
  }

  /** Restored into an empty installation within reach, under whatever namespace, the bundle is accepted and one of its
      two secrets is unreachable: the bot and the provisioning job share a row id. */
  method SharedIdLosesASecret(installation: Installation, ns: string, activate: bool)
    requires installation.batches == [] && installation.owner == None && Reachable(SCHEMA, BUNDLE, installation.budget)
    modifies installation
    ensures !Resolved(BUNDLE, SlotsOf(SCHEMA.secrets, DATA), ns, installation.vault)
    ensures installation.owner == Some(Text(TENANT_UUID))
  {
    RestoreTakesIt(ns, activate);
    Clash();
    var error, data := installation.Restore(SCHEMA, BUNDLE, ns, activate);
  }
}
