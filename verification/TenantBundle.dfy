/** Tenant bundles: the validator, and the restore of a validated bundle into an empty
    installation with its undo. */
module TenantBundle {
  import opened Common
  import opened Layering

  datatype ForeignKey = ForeignKey(column: string, target: string)

  datatype Table = Table(name: string, columns: set<string>, foreignKeys: seq<ForeignKey>) {
    function SelfKeys(): set<string> {
      set fk | fk in foreignKeys && fk.target == name :: fk.column
    }
  }

  datatype SecretColumns = SecretColumns(table: string, columns: seq<string>)

  /** The included tables in insertion order and the columns that hold secret references. */
  datatype Schema = Schema(format: string, fingerprint: string, tables: seq<Table>, secrets: seq<SecretColumns>) {
    function Names(): set<string> {
      set t | t in tables :: t.name
    }

    /** Tables are named apart and sorted by dependency; secret columns are ordinary columns. */
    ghost predicate WellFormed() {
      && TENANTS in Names()
      && (forall i, j | 0 <= i < j < |tables| :: tables[i].name != tables[j].name)
      && (forall i | 0 <= i < |tables| :: ID in tables[i].columns)
      && (forall i, fk | 0 <= i < |tables| && fk in tables[i].foreignKeys :: fk.column in tables[i].columns)
      && (forall i, j, fk | 0 <= i < j < |tables| && fk in tables[i].foreignKeys :: fk.target != tables[j].name)
      && (forall i, j | 0 <= i < j < |secrets| :: secrets[i].table != secrets[j].table)
      && (forall i | 0 <= i < |secrets| :: Distinct(secrets[i].columns) && secrets[i].table in Names())
      && (forall i, k, c | 0 <= i < |tables| && 0 <= k < |secrets| && secrets[k].table == tables[i].name
                           && c in secrets[k].columns ::
            c != ID && c in tables[i].columns && (forall fk | fk in tables[i].foreignKeys :: fk.column != c))
    }
  }

  datatype Payload = Payload(format: string, fingerprint: string, tenantId: Cell,
                             tables: map<string, seq<Row>>, secrets: map<string, string>)

  const TENANTS := "tenants"
  const TENANT_ID := "tenant_id"

  datatype BundleError =
    | SchemaMismatch | TableSetMismatch | TenantMismatch | BadColumns | CrossTenant | DuplicateId
    | Unresolved | BadSecrets | NotEmpty | CyclicReference | ForeignFault

  predicate Refusal(error: BundleError) {
    !error.NotEmpty? && !error.CyclicReference? && !error.ForeignFault?
  }

  /* ---------- validation ---------- */

  predicate Truthy(cell: Cell) {
    match cell
    case Null => false
    case Text(t) => t != ""
    case Number(n) => n != 0
    case Flag(b) => b
    case Document(d) => d != map[]
  }

  ghost predicate RowValid(table: Table, row: Row, tenantId: Cell) {
    row.Keys == table.columns && (TENANT_ID in row ==> row[TENANT_ID] == tenantId)
  }

  ghost predicate RowsValid(table: Table, rows: seq<Row>, tenantId: Cell) {
    && (forall i | 0 <= i < |rows| :: RowValid(table, rows[i], tenantId))
    && (forall i, j | 0 <= i < j < |rows| :: ID in rows[i] && ID in rows[j] && rows[i][ID] != rows[j][ID])
  }

  /** A reference is absent or names a row of its target table. */
  ghost predicate LinkValid(row: Row, fk: ForeignKey, tables: map<string, seq<Row>>) {
    fk.column in row && (row[fk.column] == Null || (fk.target in tables && HasId(tables[fk.target], row[fk.column])))
  }

  ghost predicate LinksValid(table: Table, rows: seq<Row>, tables: map<string, seq<Row>>) {
    forall i, fk {:trigger LinkValid(rows[i], fk, tables)} | 0 <= i < |rows| && fk in table.foreignKeys ::
      LinkValid(rows[i], fk, tables)
  }

  /** The secret references that the rows of one table carry. */
  function SecretsOf(rows: seq<Row>, columns: seq<string>): set<Cell> {
    set i, c | 0 <= i < |rows| && c in columns && c in rows[i] && Truthy(rows[i][c]) :: rows[i][c]
  }

  function ColumnsOf(secrets: seq<SecretColumns>, table: string): seq<string> {
    if secrets == [] then [] else if secrets[0].table == table then secrets[0].columns
      else ColumnsOf(secrets[1..], table)
  }

  function RequiredSecrets(schema: Schema, tables: map<string, seq<Row>>, n: nat): set<Cell>
    requires n <= |schema.tables|
  {
    set i, s | 0 <= i < n && schema.tables[i].name in tables
               && s in SecretsOf(tables[schema.tables[i].name], ColumnsOf(schema.secrets, schema.tables[i].name)) :: s
  }

  ghost predicate SecretsValid(schema: Schema, payload: Payload) {
    && RequiredSecrets(schema, payload.tables, |schema.tables|) == (set k | k in payload.secrets :: Text(k))
    && (forall k | k in payload.secrets :: payload.secrets[k] != "")
  }

  ghost predicate EnvelopeValid(schema: Schema, payload: Payload) {
    && payload.format == schema.format && payload.fingerprint == schema.fingerprint
    && payload.tables.Keys == schema.Names()
    && TENANTS in payload.tables && |payload.tables[TENANTS]| == 1
    && ID in payload.tables[TENANTS][0] && payload.tables[TENANTS][0][ID] == payload.tenantId
  }

  /** What a bundle must satisfy to be accepted. */
  ghost predicate Valid(schema: Schema, payload: Payload) {
    && EnvelopeValid(schema, payload)
    && (forall i | 0 <= i < |schema.tables| :: schema.tables[i].name in payload.tables)
    && AllRowsValid(schema, payload)
    && AllLinksValid(schema, payload)
    && SecretsValid(schema, payload)
  }

  /** One table's pass: columns, tenant, identities, and the secrets it will need. */
  method ValidateRows(table: Table, rows: seq<Row>, tenantId: Cell, columns: seq<string>)
    returns (error: Option<BundleError>, seen: set<Cell>, needed: set<Cell>)
    requires ID in table.columns
    ensures error == None <==> RowsValid(table, rows, tenantId)
    ensures error.Some? ==> Refusal(error.value)
    ensures error == None ==> seen == Ids(rows) && needed == SecretsOf(rows, columns)
  {
    error, seen, needed := None, {}, {};
    for i := 0 to |rows|
      invariant RowsValid(table, rows[..i], tenantId)
      invariant seen == Ids(rows[..i])
      invariant needed == SecretsOf(rows[..i], columns)
    {
      var row := rows[i];
      assert rows[..i + 1] == rows[..i] + [row];
      assert rows[..i + 1][i] == row;
      if row.Keys != table.columns {
        error := Some(BadColumns);
        return;
      }
      if TENANT_ID in row && row[TENANT_ID] != tenantId {
        error := Some(CrossTenant);
        return;
      }
      if row[ID] in seen {
        var twin :| twin in rows[..i] && ID in twin && twin[ID] == row[ID];
        var j :| 0 <= j < i && rows[j] == twin;
        error := Some(DuplicateId);
        return;
      }
      seen := seen + {row[ID]};
      needed := needed + set c | c in columns && c in row && Truthy(row[c]) :: row[c];
      SecretsExtend(rows[..i], row, columns);
      forall j | 0 <= j < i
        ensures rows[j][ID] != row[ID]
      {
        assert rows[..i][j] in rows[..i];
      }
    }
    assert rows[..|rows|] == rows;
  }

  lemma SecretsExtend(rows: seq<Row>, row: Row, columns: seq<string>)
    ensures SecretsOf(rows + [row], columns)
            == SecretsOf(rows, columns) + set c | c in columns && c in row && Truthy(row[c]) :: row[c]
  {
    var all := rows + [row];
    forall s | s in SecretsOf(rows, columns)
      ensures s in SecretsOf(all, columns)
    {
      var i, c :| 0 <= i < |rows| && c in columns && c in rows[i] && Truthy(rows[i][c]) && s == rows[i][c];
      assert all[i] == rows[i];
    }
    forall c | c in columns && c in row && Truthy(row[c])
      ensures row[c] in SecretsOf(all, columns)
    {
      assert all[|rows|] == row;
    }
  }

  /** The link pass over one table, against the identity index of every table. */
  method ValidateLinks(table: Table, rows: seq<Row>, tables: map<string, seq<Row>>, indexes: map<string, set<Cell>>)
    returns (ok: bool)
    requires forall i, fk | 0 <= i < |rows| && fk in table.foreignKeys :: fk.column in rows[i]
    requires indexes.Keys == tables.Keys
    requires forall name | name in tables :: indexes[name] == Ids(tables[name])
    ensures ok <==> LinksValid(table, rows, tables)
  {
    ok := true;
    for i := 0 to |rows|
      invariant ok
      invariant forall j, fk {:trigger LinkValid(rows[j], fk, tables)} | 0 <= j < i && fk in table.foreignKeys ::
                  LinkValid(rows[j], fk, tables)
    {
      for k := 0 to |table.foreignKeys|
        invariant ok
        invariant forall m {:trigger table.foreignKeys[m]} | 0 <= m < k ::
                    LinkValid(rows[i], table.foreignKeys[m], tables)
      {
        var fk := table.foreignKeys[k];
        var value := rows[i][fk.column];
        var index := if fk.target in indexes then indexes[fk.target] else {};
        assert fk.target in tables ==> (HasId(tables[fk.target], value) <==> value in Ids(tables[fk.target]));
        if value != Null && value !in index {
          assert !LinkValid(rows[i], fk, tables);
          ok := false;
          return;
        }
      }
      forall fk | fk in table.foreignKeys
        ensures LinkValid(rows[i], fk, tables)
      {
        var m :| 0 <= m < |table.foreignKeys| && table.foreignKeys[m] == fk;
      }
    }
  }

  ghost predicate AllRowsValid(schema: Schema, payload: Payload)
    requires forall i | 0 <= i < |schema.tables| :: schema.tables[i].name in payload.tables
  {
    forall i | 0 <= i < |schema.tables| ::
      RowsValid(schema.tables[i], payload.tables[schema.tables[i].name], payload.tenantId)
  }

  ghost predicate AllLinksValid(schema: Schema, payload: Payload)
    requires forall i | 0 <= i < |schema.tables| :: schema.tables[i].name in payload.tables
  {
    forall i | 0 <= i < |schema.tables| ::
      LinksValid(schema.tables[i], payload.tables[schema.tables[i].name], payload.tables)
  }

  /** The first pass over every table. */
  method ValidateAllRows(schema: Schema, payload: Payload)
    returns (error: Option<BundleError>, indexes: map<string, set<Cell>>, required: set<Cell>)
    requires forall i | 0 <= i < |schema.tables| :: ID in schema.tables[i].columns
    requires forall i | 0 <= i < |schema.tables| :: schema.tables[i].name in payload.tables
    ensures error == None <==> AllRowsValid(schema, payload)
    ensures error.Some? ==> Refusal(error.value)
    ensures error == None ==> required == RequiredSecrets(schema, payload.tables, |schema.tables|)
    ensures error == None ==> indexes.Keys == set j | 0 <= j < |schema.tables| :: schema.tables[j].name
    ensures error == None ==>
              forall name | name in indexes :: name in payload.tables && indexes[name] == Ids(payload.tables[name])
  {
    error, indexes, required := None, map[], {};
    for i := 0 to |schema.tables|
      invariant error == None
      invariant forall j | 0 <= j < i ::
                  RowsValid(schema.tables[j], payload.tables[schema.tables[j].name], payload.tenantId)
      invariant indexes.Keys == set j | 0 <= j < i :: schema.tables[j].name
      invariant forall name | name in indexes :: name in payload.tables && indexes[name] == Ids(payload.tables[name])
      invariant required == RequiredSecrets(schema, payload.tables, i)
    {
      var table := schema.tables[i];
      var rejected, seen, needed :=
        ValidateRows(table, payload.tables[table.name], payload.tenantId, ColumnsOf(schema.secrets, table.name));
      if rejected != None {
        error := rejected;
        return;
      }
      indexes := indexes[table.name := seen];
      required := required + needed;
    }
  }

  /** The second pass over every table. */
  method ValidateAllLinks(schema: Schema, payload: Payload, indexes: map<string, set<Cell>>) returns (ok: bool)
    requires forall i | 0 <= i < |schema.tables| :: schema.tables[i].name in payload.tables
    requires forall i, fk | 0 <= i < |schema.tables| && fk in schema.tables[i].foreignKeys ::
               fk.column in schema.tables[i].columns
    requires AllRowsValid(schema, payload)
    requires indexes.Keys == payload.tables.Keys
    requires forall name | name in indexes :: indexes[name] == Ids(payload.tables[name])
    ensures ok <==> AllLinksValid(schema, payload)
  {
    ok := true;
    for i := 0 to |schema.tables|
      invariant ok
      invariant forall j | 0 <= j < i ::
                  LinksValid(schema.tables[j], payload.tables[schema.tables[j].name], payload.tables)
    {
      var table := schema.tables[i];
      var rows := payload.tables[table.name];
      assert RowsValid(table, rows, payload.tenantId);
      assert forall k | 0 <= k < |rows| :: RowValid(table, rows[k], payload.tenantId);
      ok := ValidateLinks(table, rows, payload.tables, indexes);
      if !ok {
        return;
      }
    }
  }

  lemma TablesNamed(schema: Schema)
    ensures forall i | 0 <= i < |schema.tables| :: schema.tables[i].name in schema.Names()
    ensures schema.Names() == set j | 0 <= j < |schema.tables| :: schema.tables[j].name
  {
  }

  /** The validator accepts exactly the valid bundles. */
  method Validate(schema: Schema, payload: Payload) returns (error: Option<BundleError>)
    requires schema.WellFormed()
    ensures error == None <==> Valid(schema, payload)
    ensures error.Some? ==> Refusal(error.value)
  {
    TablesNamed(schema);
    if payload.format != schema.format || payload.fingerprint != schema.fingerprint {
      return Some(SchemaMismatch);
    }
    if payload.tables.Keys != schema.Names() || |payload.tables[TENANTS]| != 1 {
      return Some(TableSetMismatch);
    }
    if ID !in payload.tables[TENANTS][0] || payload.tables[TENANTS][0][ID] != payload.tenantId {
      return Some(TenantMismatch);
    }
    var rejected, indexes, required := ValidateAllRows(schema, payload);
    if rejected != None {
      return rejected;
    }
    var linked := ValidateAllLinks(schema, payload, indexes);
    if !linked {
      return Some(Unresolved);
    }
    if required != (set k | k in payload.secrets :: Text(k))
       || exists k | k in payload.secrets :: payload.secrets[k] == "" {
      return Some(BadSecrets);
    }
    return None;
  }
}
