/** The asset rows of the engine and the rows the SQL of `assets.update` works on are the same rows, column for column. */
module AssetColumns {
  import opened Domain
  import opened Engine
  import opened Outcomes
  import opened Queries
  import Sql

  function StatusText(status: AssetStatus): string {
    match status
    case Pawned => "pawned"
    case Redeemed => "redeemed"
    case Overdue => "overdue"
    case PendingLiquidation => "pending_liquidation"
    case Liquidated => "liquidated"
  }

  /** An engine asset as a table row, under some way of writing ids. */
  function RowOf(id: Id, a: Asset, name: Id -> string): Sql.Row {
    a.details + map["id" := Sql.Text(name(id)), "tenant_id" := Sql.Text(name(a.tenant)), "store_id" := Sql.Text(name(a.store)),
                    "status" := Sql.Text(StatusText(a.status)), "updated_at" := Sql.Number(a.updatedAt)]
  }

  const COLUMNS := set i | 0 <= i < |FIELD_MAP| :: FIELD_MAP[i].1

  /** The descriptive columns a request supplies. */
  function Changes(dto: map<string, Sql.Value>): Columns {
    map column | column in COLUMNS && column != "status" && Supplied(dto, column, |FIELD_MAP|).Some? ::
      Supplied(dto, column, |FIELD_MAP|).value
  }

  /** The request's status, if any, is this one. */
  ghost predicate Asks(dto: map<string, Sql.Value>, status: Option<AssetStatus>) {
    && ("status" in dto <==> status.Some?)
    && (status.Some? ==> dto["status"] == Sql.Text(StatusText(status.value)))
  }

  ghost predicate Injective(name: Id -> string) {
    forall a, b | name(a) == name(b) :: a == b
  }

  lemma {:induction false} SuppliedColumn(dto: map<string, Sql.Value>, column: string, n: nat)
    requires n <= |FIELD_MAP|
    ensures Supplied(dto, column, n).Some? <==> exists i | 0 <= i < n :: FIELD_MAP[i].1 == column && FIELD_MAP[i].0 in dto
  {
    if n == 0 {
    } else {
      SuppliedColumn(dto, column, n - 1);
    }
  }

  /** Only status is a field of the row itself; all other fields are descriptive columns. */
  lemma FixedColumns(dto: map<string, Sql.Value>)
    ensures Supplied(dto, "id", |FIELD_MAP|) == None && Supplied(dto, "tenant_id", |FIELD_MAP|) == None
    ensures Supplied(dto, "store_id", |FIELD_MAP|) == None && Supplied(dto, "updated_at", |FIELD_MAP|) == None
    ensures Supplied(dto, "status", |FIELD_MAP|) == if "status" in dto then Some(dto["status"]) else None
  {
    SuppliedColumn(dto, "id", |FIELD_MAP|);
    SuppliedColumn(dto, "tenant_id", |FIELD_MAP|);
    SuppliedColumn(dto, "store_id", |FIELD_MAP|);
    SuppliedColumn(dto, "updated_at", |FIELD_MAP|);
    SuppliedColumn(dto, "status", |FIELD_MAP|);
    assert FIELD_MAP[13] == ("status", "status");
  }

  /** A request supplies something exactly when it names a field of the map. */
  lemma SomethingSupplied(dto: map<string, Sql.Value>, status: Option<AssetStatus>)
    requires Asks(dto, status)
    ensures Touches(dto) <==> !(Changes(dto) == map[] && status == None)
  {
    FixedColumns(dto);
    forall column ensures Supplied(dto, column, |FIELD_MAP|).Some? <==>
                          exists i | 0 <= i < |FIELD_MAP| :: FIELD_MAP[i].1 == column && FIELD_MAP[i].0 in dto
    {
      SuppliedColumn(dto, column, |FIELD_MAP|);
    }
    if Touches(dto) {
      var i :| 0 <= i < |FIELD_MAP| && FIELD_MAP[i].0 in dto;
      assert Supplied(dto, FIELD_MAP[i].1, |FIELD_MAP|).Some?;
      if FIELD_MAP[i].1 != "status" {
        assert FIELD_MAP[i].1 in Changes(dto);
      }
    }
    if status.Some? {
      assert FIELD_MAP[13].0 in dto;
    }
    if Changes(dto) != map[] {
      var column :| column in Changes(dto);
    }
  }

  const FIXED := {"id", "tenant_id", "store_id", "status", "updated_at"}

  lemma ColumnOf(id: Id, a: Asset, name: Id -> string, column: string)
    ensures Sql.Get(RowOf(id, a, name), column) ==
              if column == "id" then Sql.Text(name(id))
              else if column == "tenant_id" then Sql.Text(name(a.tenant))
              else if column == "store_id" then Sql.Text(name(a.store))
              else if column == "status" then Sql.Text(StatusText(a.status))
              else if column == "updated_at" then Sql.Number(a.updatedAt)
              else Sql.Get(a.details, column)
  {
    hide StatusText;
  }

  lemma SuppliedChange(dto: map<string, Sql.Value>, column: string)
    requires column != "status"
    ensures column in Changes(dto) <==> Supplied(dto, column, |FIELD_MAP|).Some?
    ensures column in Changes(dto) ==> Changes(dto)[column] == Supplied(dto, column, |FIELD_MAP|).value
  {
    SuppliedColumn(dto, column, |FIELD_MAP|);
  }

  /** The rewritten engine row is the row overridden with exactly the supplied columns. */
  lemma RowOverridden(id: Id, a: Asset, a': Asset, name: Id -> string, dto: map<string, Sql.Value>,
          status: Option<AssetStatus>, now: int)
    requires Asks(dto, status)
    requires a'.tenant == a.tenant && a'.store == a.store && a'.updatedAt == now
    requires a'.status == if status.Some? then status.value else a.status
    requires forall k | k in Changes(dto) :: k in a'.details && a'.details[k] == Changes(dto)[k]
    requires forall k | k !in Changes(dto) ::
               (k in a'.details <==> k in a.details) && (k in a.details ==> a'.details[k] == a.details[k])
    ensures Overridden(RowOf(id, a, name), RowOf(id, a', name), dto, Sql.Number(now))
  {
    hide RowOf, Changes, Supplied, StatusText;
    FixedColumns(dto);
    forall column
      ensures Sql.Get(RowOf(id, a', name), column) ==
                if column == "updated_at" then Sql.Number(now)
                else if Supplied(dto, column, |FIELD_MAP|).Some? then Supplied(dto, column, |FIELD_MAP|).value
                else Sql.Get(RowOf(id, a, name), column)
    {
      ColumnOf(id, a, name, column);
      ColumnOf(id, a', name, column);
      if column !in FIXED {
        SuppliedChange(dto, column);
      }
    }
  }

  /**
   For every request the two models agree: every row of the engine's table changes exactly as
   `Queries.UpdateAsset` changes it.
   */
  lemma UpdatesAgree(db: Db, tenant: Id, id: Id, dto: map<string, Sql.Value>, status: Option<AssetStatus>, now: int,
          name: Id -> string, other: Id)
    requires Asks(dto, status) && Injective(name) && other in db.assets
    ensures var db' := Engine.UpdateAsset(db, tenant, id, Changes(dto), status, now).0;
            && other in db'.assets
            && (var row, row' := RowOf(other, db.assets[other], name), RowOf(other, db'.assets[other], name);
                if Touches(dto) && IsRow(row, name(id), name(tenant)) then Overridden(row, row', dto, Sql.Number(now))
                else row' == row)
  {
    hide Touches, Changes, Overridden, FindAsset, Asks, RowOf, IsRow, Injective, Engine.UpdateAsset;
    SomethingSupplied(dto, status);
    RowIdentified(other, db.assets[other], name, id, tenant);
    RewrittenRow(db, tenant, id, Changes(dto), status, now);
    if other == id && db.assets[id].tenant == tenant && Touches(dto) {
      var db' := Engine.UpdateAsset(db, tenant, id, Changes(dto), status, now).0;
      RowOverridden(id, db.assets[id], db'.assets[id], name, dto, status, now);
    }
  }

  lemma RowIdentified(other: Id, a: Asset, name: Id -> string, id: Id, tenant: Id)
    requires Injective(name)
    ensures IsRow(RowOf(other, a, name), name(id), name(tenant)) <==> other == id && a.tenant == tenant
  {
  }

  /** `AssetUpdateOutcome` for the one row a request may rewrite; every other row stays. */
  lemma RewrittenRow(db: Db, tenant: Id, id: Id, changes: Columns, status: Option<AssetStatus>, now: int)
    ensures var db' := Engine.UpdateAsset(db, tenant, id, changes, status, now).0;
            && (forall other | other in db.assets :: other in db'.assets &&
                  (other != id || db.assets[other].tenant != tenant || (changes == map[] && status == None) ==>
                   db'.assets[other] == db.assets[other]))
            && (id in db.assets && db.assets[id].tenant == tenant && !(changes == map[] && status == None) ==>
                var a, a' := db.assets[id], db'.assets[id];
                && a'.tenant == a.tenant && a'.store == a.store && a'.updatedAt == now
                && a'.status == (if status.Some? then status.value else a.status)
                && (forall k | k in changes :: k in a'.details && a'.details[k] == changes[k])
                && (forall k | k !in changes ::
                      (k in a'.details <==> k in a.details) && (k in a.details ==> a'.details[k] == a.details[k])))
  {
    hide FindAsset;
    AssetUpdateOutcome(db, AssetUpdate(tenant, id, changes, status, now));
  }

  // ---------------------------------------------------------------- field names and columns

  /** A field name in snake case: capital letters become an underscore and the small letter. */
  function SnakeCase(field: string): string {
    if field == "" then ""
    else if 'A' <= field[0] <= 'Z' then "_" + [(field[0] as int + 32) as char] + SnakeCase(field[1..])
    else [field[0]] + SnakeCase(field[1..])
  }

  predicate Small(word: string) {
    forall i | 0 <= i < |word| :: !('A' <= word[i] <= 'Z')
  }

  lemma {:induction false} SnakeWord(word: string, rest: string)
    requires Small(word)
    ensures SnakeCase(word + rest) == word + SnakeCase(rest)
  {
    if word == "" {
      assert word + rest == rest;
    } else {
      assert (word + rest)[1..] == word[1..] + rest;
      SnakeWord(word[1..], rest);
      assert [word[0]] + word[1..] == word;
    }
  }

  lemma OneWord(word: string)
    requires Small(word)
    ensures SnakeCase(word) == word
  {
    assert word + "" == word;
    SnakeWord(word, "");
  }

  lemma TwoWords(first: string, capital: char, second: string)
    requires Small(first) && 'A' <= capital <= 'Z' && Small(second)
    ensures SnakeCase(first + [capital] + second) == first + "_" + [(capital as int + 32) as char] + second
  {
    hide SnakeCase;
    assert first + [capital] + second == first + ([capital] + second);
    SnakeWord(first, [capital] + second);
    SnakeCapital(capital, second);
    OneWord(second);
  }

  lemma SnakeCapital(capital: char, rest: string)
    requires 'A' <= capital <= 'Z'
    ensures SnakeCase([capital] + rest) == "_" + [(capital as int + 32) as char] + SnakeCase(rest)
  {
    assert ([capital] + rest)[1..] == rest;
  }

  lemma ThreeWords(first: string, capital: char, second: string, other: char, third: string)
    requires Small(first) && 'A' <= capital <= 'Z' && Small(second) && 'A' <= other <= 'Z' && Small(third)
    ensures SnakeCase(first + [capital] + second + [other] + third) ==
            first + "_" + [(capital as int + 32) as char] + second + "_" + [(other as int + 32) as char] + third
  {
    hide SnakeCase;
    var tail := second + [other] + third;
    assert first + [capital] + second + [other] + third == first + ([capital] + tail);
    SnakeWord(first, [capital] + tail);
    SnakeCapital(capital, tail);
    TwoWords(second, other, third);
  }

  lemma Column1(word: string)
    requires Small(word)
    ensures word == SnakeCase(word)
  {
    OneWord(word);
  }

  lemma Column2(field: string, column: string, first: string, capital: char, small: char, second: string)
    requires Small(first) && 'A' <= capital <= 'Z' && Small(second) && small as int == capital as int + 32
    requires field == first + [capital] + second && column == first + "_" + [small] + second
    ensures column == SnakeCase(field)
  {
    TwoWords(first, capital, second);
  }

  lemma Column3(field: string, column: string, first: string, capital: char, small: char, second: string,
          other: char, little: char, third: string)
    requires Small(first) && 'A' <= capital <= 'Z' && Small(second) && 'A' <= other <= 'Z' && Small(third)
    requires small as int == capital as int + 32 && little as int == other as int + 32
    requires field == first + [capital] + second + [other] + third
    requires column == first + "_" + [small] + second + "_" + [little] + third
    ensures column == SnakeCase(field)
  {
    ThreeWords(first, capital, second, other, third);
  }

  lemma AssetFields()
    ensures SnakeCase("assetType") == "asset_type"
    ensures SnakeCase("assetName") == "asset_name"
  {
    hide SnakeCase;
    Column2("assetType", "asset_type", "asset", 'T', 't', "ype");
    Column2("assetName", "asset_name", "asset", 'N', 'n', "ame");
  }

  lemma SerialFields()
    ensures SnakeCase("serialNumber") == "serial_number"
    ensures SnakeCase("licensePlate") == "license_plate"
  {
    hide SnakeCase;
    Column2("serialNumber", "serial_number", "serial", 'N', 'n', "umber");
    Column2("licensePlate", "license_plate", "license", 'P', 'p', "late");
  }

  lemma NumberFields()
    ensures SnakeCase("chassisNumber") == "chassis_number"
    ensures SnakeCase("engineNumber") == "engine_number"
  {
    hide SnakeCase;
    Column2("chassisNumber", "chassis_number", "chassis", 'N', 'n', "umber");
    Column2("engineNumber", "engine_number", "engine", 'N', 'n', "umber");
  }

  lemma MoneyFields()
    ensures SnakeCase("conditionDescription") == "condition_description"
    ensures SnakeCase("valuationAmount") == "valuation_amount"
  {
    hide SnakeCase;
    Column2("conditionDescription", "condition_description", "condition", 'D', 'd', "escription");
    Column2("valuationAmount", "valuation_amount", "valuation", 'A', 'a', "mount");
  }

  lemma ProposalField()
    ensures SnakeCase("proposedLoanAmount") == "proposed_loan_amount"
  {
    hide SnakeCase;
    Column3("proposedLoanAmount", "proposed_loan_amount", "proposed", 'L', 'l', "oan", 'A', 'a', "mount");
  }

  lemma PlainFields()
    ensures SnakeCase("brand") == "brand" && SnakeCase("model") == "model" && SnakeCase("color") == "color"
    ensures SnakeCase("imei") == "imei" && SnakeCase("status") == "status"
  {
    hide SnakeCase;
    Column1("brand");
    Column1("model");
    Column1("color");
    Column1("imei");
    Column1("status");
  }

  /** Every field of the map goes to the column of the same name in snake case. */
  lemma ColumnsAreSnakeCase(i: nat)
    requires i < |FIELD_MAP|
    ensures FIELD_MAP[i].1 == SnakeCase(FIELD_MAP[i].0)
  {
    hide SnakeCase;
    AssetFields();
    SerialFields();
    NumberFields();
    MoneyFields();
    ProposalField();
    PlainFields();
  }
}
