/** The service methods that assemble SQL from the fields a request happens to carry. */
module Queries {
  import opened Domain
  import opened Sql

  /** A string field counts as given when it is truthy. */
  predicate Given(field: Option<string>) {
    field.Some? && field.value != ""
  }

  function OrElse(field: Option<nat>, default: nat): nat {
    if field.Some? then field.value else default
  }

  // What a request asks of a row, said directly.

  predicate Matches(row: Row, column: string, field: Option<string>) {
    Given(field) ==> Get(row, column) == Text(field.value)
  }

  predicate Contains(row: Row, column: string, field: Option<string>, like: Like) {
    Given(field) ==> Get(row, column).Text? && like(Get(row, column).s, "%" + field.value + "%")
  }

  predicate NotBefore(row: Row, column: string, date: Option<int>) {
    date.Some? ==> Get(row, column).Number? && Get(row, column).n >= date.value
  }

  predicate NotAfter(row: Row, column: string, date: Option<int>) {
    date.Some? ==> Get(row, column).Number? && Get(row, column).n <= date.value
  }

  /** A given field becomes an equality on the next parameter; an absent or empty one is passed over. */
  method PushEqual(conditions: seq<Condition>, params: seq<Value>, idx: nat, column: string, field: Option<string>,
          like: Like)
    returns (conditions': seq<Condition>, params': seq<Value>, idx': nat)
    requires AllBound(conditions, params) && idx == |params| + 1
    ensures AllBound(conditions', params') && idx' == |params'| + 1
    ensures forall row :: Where(conditions', params', row, like) <==>
              Where(conditions, params, row, like) && Matches(row, column, field)
  {
    hide Where, Holds, AllBound;
    conditions', params', idx' := conditions, params, idx;
    if Given(field) {
      PushAll(conditions, params, Compare(column, Equal, idx), Text(field.value), like);
      conditions' := conditions' + [Compare(column, Equal, idx)];
      idx' := idx' + 1;
      params' := params' + [Text(field.value)];
    }
  }

  /** The same with `column ILIKE $idx` and the field between percent signs. */
  method PushILike(conditions: seq<Condition>, params: seq<Value>, idx: nat, column: string, field: Option<string>,
          like: Like)
    returns (conditions': seq<Condition>, params': seq<Value>, idx': nat)
    requires AllBound(conditions, params) && idx == |params| + 1
    ensures AllBound(conditions', params') && idx' == |params'| + 1
    ensures forall row :: Where(conditions', params', row, like) <==>
              Where(conditions, params, row, like) && Contains(row, column, field, like)
  {
    hide Where, Holds, AllBound;
    conditions', params', idx' := conditions, params, idx;
    if Given(field) {
      PushAll(conditions, params, Compare(column, ILike, idx), Text("%" + field.value + "%"), like);
      conditions' := conditions' + [Compare(column, ILike, idx)];
      idx' := idx' + 1;
      params' := params' + [Text("%" + field.value + "%")];
    }
  }

  /** The same with `column >= $idx` and a date. */
  method PushAtLeast(conditions: seq<Condition>, params: seq<Value>, idx: nat, column: string, date: Option<int>,
          like: Like)
    returns (conditions': seq<Condition>, params': seq<Value>, idx': nat)
    requires AllBound(conditions, params) && idx == |params| + 1
    ensures AllBound(conditions', params') && idx' == |params'| + 1
    ensures forall row :: Where(conditions', params', row, like) <==>
              Where(conditions, params, row, like) && NotBefore(row, column, date)
  {
    hide Where, Holds, AllBound;
    conditions', params', idx' := conditions, params, idx;
    if date.Some? {
      PushAll(conditions, params, Compare(column, AtLeast, idx), Number(date.value), like);
      conditions' := conditions' + [Compare(column, AtLeast, idx)];
      idx' := idx' + 1;
      params' := params' + [Number(date.value)];
    }
  }

  /** The same with `column <= $idx` and a date. */
  method PushAtMost(conditions: seq<Condition>, params: seq<Value>, idx: nat, column: string, date: Option<int>,
          like: Like)
    returns (conditions': seq<Condition>, params': seq<Value>, idx': nat)
    requires AllBound(conditions, params) && idx == |params| + 1
    ensures AllBound(conditions', params') && idx' == |params'| + 1
    ensures forall row :: Where(conditions', params', row, like) <==>
              Where(conditions, params, row, like) && NotAfter(row, column, date)
  {
    hide Where, Holds, AllBound;
    conditions', params', idx' := conditions, params, idx;
    if date.Some? {
      PushAll(conditions, params, Compare(column, AtMost, idx), Number(date.value), like);
      conditions' := conditions' + [Compare(column, AtMost, idx)];
      idx' := idx' + 1;
      params' := params' + [Number(date.value)];
    }
  }

  // ---------------------------------------------------------------- ContractsService.findAll

  datatype ContractSearch = ContractSearch(
    contractCode: Option<string>, customerId: Option<string>, storeId: Option<string>, status: Option<string>,
    dueDateFrom: Option<int>, dueDateTo: Option<int>, page: Option<nat>, limit: Option<nat>)

  predicate WantedContract(row: Row, tenant: string, dto: ContractSearch, like: Like) {
    && Get(row, "tenant_id") == Text(tenant)
    && Contains(row, "contract_code", dto.contractCode, like)
    && Matches(row, "customer_id", dto.customerId)
    && Matches(row, "store_id", dto.storeId)
    && Matches(row, "status", dto.status)
    && NotBefore(row, "due_date", dto.dueDateFrom)
    && NotAfter(row, "due_date", dto.dueDateTo)
  }

  /** The wanted contracts, column by column: a field that is absent or empty asks for nothing. */
  lemma WantedContracts(row: Row, tenant: string, dto: ContractSearch, like: Like)
    ensures WantedContract(row, tenant, dto, like) <==>
      && Get(row, "tenant_id") == Text(tenant)
      && (dto.contractCode.Some? && dto.contractCode.value != "" ==>
            Get(row, "contract_code").Text? && like(Get(row, "contract_code").s, "%" + dto.contractCode.value + "%"))
      && (dto.customerId.Some? && dto.customerId.value != "" ==> Get(row, "customer_id") == Text(dto.customerId.value))
      && (dto.storeId.Some? && dto.storeId.value != "" ==> Get(row, "store_id") == Text(dto.storeId.value))
      && (dto.status.Some? && dto.status.value != "" ==> Get(row, "status") == Text(dto.status.value))
      && (dto.dueDateFrom.Some? ==> Get(row, "due_date").Number? && Get(row, "due_date").n >= dto.dueDateFrom.value)
      && (dto.dueDateTo.Some? ==> Get(row, "due_date").Number? && Get(row, "due_date").n <= dto.dueDateTo.value)
  {
    hide Get;
  }

  method BuildContractFilter(tenant: string, dto: ContractSearch, like: Like)
    returns (conditions: seq<Condition>, params: seq<Value>, idx: nat)
    ensures AllBound(conditions, params) && idx == |params| + 1
    ensures forall row :: Where(conditions, params, row, like) <==> WantedContract(row, tenant, dto, like)
  {
    TenantFilter(tenant, like);
    hide Where, Holds, AllBound, Matches, Contains, NotBefore, NotAfter;
    conditions, params, idx := [Compare("tenant_id", Equal, 1)], [Text(tenant)], 2;
    conditions, params, idx := PushILike(conditions, params, idx, "contract_code", dto.contractCode, like);
    conditions, params, idx := PushEqual(conditions, params, idx, "customer_id", dto.customerId, like);
    conditions, params, idx := PushEqual(conditions, params, idx, "store_id", dto.storeId, like);
    conditions, params, idx := PushEqual(conditions, params, idx, "status", dto.status, like);
    conditions, params, idx := PushAtLeast(conditions, params, idx, "due_date", dto.dueDateFrom, like);
    conditions, params, idx := PushAtMost(conditions, params, idx, "due_date", dto.dueDateTo, like);
  }

  /** The customers table by id. */
  type CustomerTable = map<Value, Row>

  /** A contract row with the columns the left join with customers adds, NULL where there is no customer. */
  function WithCustomer(row: Row, customers: CustomerTable): Row {
    var id := Get(row, "customer_id");
    var customer := if id != Null && id in customers then customers[id] else map[];
    row["customer_full_name" := Get(customer, "full_name")]["customer_phone" := Get(customer, "phone")]
       ["customer_identity_number" := Get(customer, "identity_number")]
  }

  /** contracts LEFT JOIN customers: ids are primary keys, so one row per contract. */
  function JoinCustomers(rows: seq<Row>, customers: CustomerTable): (r: seq<Row>)
    ensures |r| == |rows|
  {
    seq(|rows|, i requires 0 <= i < |rows| => WithCustomer(rows[i], customers))
  }

  /** The join adds the customer's name, phone and identity number, and leaves the contract's own columns alone. */
  lemma JoinedColumns(row: Row, customers: CustomerTable, column: string)
    ensures var joined := WithCustomer(row, customers);
            var id := Get(row, "customer_id");
            && (id != Null && id in customers ==>
                && Get(joined, "customer_full_name") == Get(customers[id], "full_name")
                && Get(joined, "customer_phone") == Get(customers[id], "phone")
                && Get(joined, "customer_identity_number") == Get(customers[id], "identity_number"))
            && (id == Null || id !in customers ==>
                Get(joined, "customer_full_name") == Get(joined, "customer_phone") == Get(joined, "customer_identity_number") == Null)
            && (column !in {"customer_full_name", "customer_phone", "customer_identity_number"} ==>
                Get(joined, column) == Get(row, column))
  {
  }

  /** Both queries of `findAll`: the count on the contracts alone, the page on the join with customers. */
  method FindContracts(table: seq<Row>, customers: CustomerTable, tenant: string, dto: ContractSearch, like: Like)
    returns (data: seq<Row>, total: nat, page: nat, limit: nat)
    requires OrElse(dto.page, 1) >= 1
    ensures page == (if dto.page.Some? then dto.page.value else 1) && limit == (if dto.limit.Some? then dto.limit.value else 20)
    ensures var wanted := Keep(table, row => WantedContract(row, tenant, dto, like));
            total == |wanted| && data == Page(JoinCustomers(wanted, customers), page, limit)
  {
    hide Where, AllBound, WantedContract, Select, Keep, JoinCustomers, Window;
    page, limit := OrElse(dto.page, 1), OrElse(dto.limit, 20);
    var offset := (page - 1) * limit;
    var conditions, params, idx := BuildContractFilter(tenant, dto, like);
    ghost var wanted := row => WantedContract(row, tenant, dto, like);
    SelectIsKeep(table, conditions, params, like, wanted);
    total := |Select(table, conditions, params, like)|;
    SelectExtends(table, conditions, params, [Number(limit), Number(offset)], like);
    params := params + [Number(limit), Number(offset)];
    var rows := JoinCustomers(Select(table, conditions, params, like), customers);
    data := Window(rows, params[idx - 1].n, params[idx].n);
  }

  /** The pages of the contract list together are the whole joined list, one row per counted contract. */
  lemma ContractPagesCoverTotal(wanted: seq<Row>, customers: CustomerTable, limit: nat, n: nat)
    requires limit >= 1 && n * limit >= |wanted|
    ensures Pages(JoinCustomers(wanted, customers), limit, n) == JoinCustomers(wanted, customers)
    ensures |Pages(JoinCustomers(wanted, customers), limit, n)| == |wanted|
  {
    PagesCoverList(JoinCustomers(wanted, customers), limit, n);
  }

  // ---------------------------------------------------------------- AuditService.query

  datatype AuditSearch = AuditSearch(
    storeId: Option<string>, userId: Option<string>, action: Option<string>, entityType: Option<string>,
    entityId: Option<string>, dateFrom: Option<int>, dateTo: Option<int>, page: Option<nat>, limit: Option<nat>)

  predicate WantedEntry(row: Row, tenant: string, dto: AuditSearch) {
    && Get(row, "tenant_id") == Text(tenant)
    && Matches(row, "store_id", dto.storeId)
    && Matches(row, "user_id", dto.userId)
    && Matches(row, "action", dto.action)
    && Matches(row, "entity_type", dto.entityType)
    && Matches(row, "entity_id", dto.entityId)
    && NotBefore(row, "created_at", dto.dateFrom)
    && NotAfter(row, "created_at", dto.dateTo)
  }

  /** The wanted log entries, column by column. */
  lemma WantedEntries(row: Row, tenant: string, dto: AuditSearch)
    ensures WantedEntry(row, tenant, dto) <==>
      && Get(row, "tenant_id") == Text(tenant)
      && (dto.storeId.Some? && dto.storeId.value != "" ==> Get(row, "store_id") == Text(dto.storeId.value))
      && (dto.userId.Some? && dto.userId.value != "" ==> Get(row, "user_id") == Text(dto.userId.value))
      && (dto.action.Some? && dto.action.value != "" ==> Get(row, "action") == Text(dto.action.value))
      && (dto.entityType.Some? && dto.entityType.value != "" ==> Get(row, "entity_type") == Text(dto.entityType.value))
      && (dto.entityId.Some? && dto.entityId.value != "" ==> Get(row, "entity_id") == Text(dto.entityId.value))
      && (dto.dateFrom.Some? ==> Get(row, "created_at").Number? && Get(row, "created_at").n >= dto.dateFrom.value)
      && (dto.dateTo.Some? ==> Get(row, "created_at").Number? && Get(row, "created_at").n <= dto.dateTo.value)
  {
    hide Get;
  }

  method BuildAuditFilter(tenant: string, dto: AuditSearch, like: Like)
    returns (conditions: seq<Condition>, params: seq<Value>)
    ensures AllBound(conditions, params)
    ensures forall row :: Where(conditions, params, row, like) <==> WantedEntry(row, tenant, dto)
  {
    TenantFilter(tenant, like);
    hide Where, Holds, AllBound, Matches, NotBefore, NotAfter;
    params, conditions := [Text(tenant)], [Compare("tenant_id", Equal, 1)];
    var idx := |params| + 1;
    conditions, params, idx := PushEqual(conditions, params, idx, "store_id", dto.storeId, like);
    conditions, params, idx := PushEqual(conditions, params, idx, "user_id", dto.userId, like);
    conditions, params, idx := PushEqual(conditions, params, idx, "action", dto.action, like);
    conditions, params, idx := PushEqual(conditions, params, idx, "entity_type", dto.entityType, like);
    conditions, params, idx := PushEqual(conditions, params, idx, "entity_id", dto.entityId, like);
    conditions, params, idx := PushAtLeast(conditions, params, idx, "created_at", dto.dateFrom, like);
    conditions, params, idx := PushAtMost(conditions, params, idx, "created_at", dto.dateTo, like);
  }

  /** The page query names the last two parameters; the count query runs on the list with those two cut off. */
  method QueryAudit(table: seq<Row>, tenant: string, dto: AuditSearch, like: Like)
    returns (data: seq<Row>, total: nat, page: nat, limit: nat)
    requires OrElse(dto.page, 1) >= 1
    ensures page == (if dto.page.Some? then dto.page.value else 1) && limit == (if dto.limit.Some? then dto.limit.value else 50)
    ensures var wanted := Keep(table, row => WantedEntry(row, tenant, dto));
            total == |wanted| && data == Page(wanted, page, limit)
  {
    hide Where, AllBound, WantedEntry, Select, Keep, Window;
    var conditions, params := BuildAuditFilter(tenant, dto, like);
    page, limit := OrElse(dto.page, 1), OrElse(dto.limit, 50);
    var offset := (page - 1) * limit;
    ghost var bound, wanted := params, row => WantedEntry(row, tenant, dto);
    SelectIsKeep(table, conditions, params, like, wanted);
    SelectExtends(table, conditions, params, [Number(limit), Number(offset)], like);
    params := params + [Number(limit), Number(offset)];
    var limitIdx, offsetIdx := |params| - 1, |params|;
    data := Window(Select(table, conditions, params, like), params[limitIdx - 1].n, params[offsetIdx - 1].n);
    assert params[..|params| - 2] == bound;
    total := |Select(table, conditions, params[..|params| - 2], like)|;
  }

  // ---------------------------------------------------------------- AssetsService.findAll

  datatype AssetSearch = AssetSearch(
    storeId: Option<string>, status: Option<string>, query: Option<string>, page: Option<nat>, limit: Option<nat>)

  const SEARCHED_COLUMNS := ["serial_number", "imei", "license_plate"]

  predicate WantedAsset(row: Row, tenant: string, dto: AssetSearch, like: Like) {
    && Get(row, "tenant_id") == Text(tenant)
    && Matches(row, "store_id", dto.storeId)
    && Matches(row, "status", dto.status)
    && (Given(dto.query) ==> exists column | column in SEARCHED_COLUMNS :: Contains(row, column, dto.query, like))
  }

  /** The wanted assets: one search text for serial number, IMEI and licence plate. */
  lemma WantedAssets(row: Row, tenant: string, dto: AssetSearch, like: Like)
    ensures WantedAsset(row, tenant, dto, like) <==>
      && Get(row, "tenant_id") == Text(tenant)
      && (dto.storeId.Some? && dto.storeId.value != "" ==> Get(row, "store_id") == Text(dto.storeId.value))
      && (dto.status.Some? && dto.status.value != "" ==> Get(row, "status") == Text(dto.status.value))
      && (dto.query.Some? && dto.query.value != "" ==>
            var pattern := "%" + dto.query.value + "%";
            || (Get(row, "serial_number").Text? && like(Get(row, "serial_number").s, pattern))
            || (Get(row, "imei").Text? && like(Get(row, "imei").s, pattern))
            || (Get(row, "license_plate").Text? && like(Get(row, "license_plate").s, pattern)))
  {
    hide Get;
    assert SEARCHED_COLUMNS[0] == "serial_number" && SEARCHED_COLUMNS[1] == "imei" && SEARCHED_COLUMNS[2] == "license_plate";
    if Given(dto.query) {
      assert (exists column | column in SEARCHED_COLUMNS :: Contains(row, column, dto.query, like)) <==>
             Contains(row, "serial_number", dto.query, like) || Contains(row, "imei", dto.query, like) ||
             Contains(row, "license_plate", dto.query, like) by {
        assert "serial_number" in SEARCHED_COLUMNS && "imei" in SEARCHED_COLUMNS && "license_plate" in SEARCHED_COLUMNS;
      }
    }
  }

  method BuildAssetFilter(tenant: string, dto: AssetSearch, like: Like)
    returns (conditions: seq<Condition>, params: seq<Value>, idx: nat)
    ensures AllBound(conditions, params) && idx == |params| + 1
    ensures forall row :: Where(conditions, params, row, like) <==> WantedAsset(row, tenant, dto, like)
  {
    TenantFilter(tenant, like);
    hide Where, Holds, AllBound, Matches;
    conditions, params, idx := [Compare("tenant_id", Equal, 1)], [Text(tenant)], 2;
    conditions, params, idx := PushEqual(conditions, params, idx, "store_id", dto.storeId, like);
    conditions, params, idx := PushEqual(conditions, params, idx, "status", dto.status, like);
    if Given(dto.query) {
      var pattern := Text("%" + dto.query.value + "%");
      PushAll(conditions, params, AnyILike(SEARCHED_COLUMNS, idx), pattern, like);
      conditions := conditions + [AnyILike(SEARCHED_COLUMNS, idx)];
      params := params + [pattern];
      idx := idx + 1;
    }
  }

  /** contract_assets as pairs of asset and contract id. */
  type LinkTable = seq<(Value, Value)>

  /** The contracts linked to an asset. */
  function ContractsOf(links: LinkTable, asset: Value): seq<Value> {
    if links == [] then []
    else
      var last := links[|links| - 1];
      ContractsOf(links[..|links| - 1], asset) + if last.0 == asset then [last.1] else []
  }

  /** One row of the left join per linked contract, or a single row with NULL. */
  function JoinRow(row: Row, contracts: seq<Value>): (r: seq<Row>)
    ensures |r| == if contracts == [] then 1 else |contracts|
  {
    if contracts == [] then [row["contract_id" := Null]]
    else seq(|contracts|, i requires 0 <= i < |contracts| => row["contract_id" := contracts[i]])
  }

  /** assets LEFT JOIN contract_assets */
  function JoinLinks(rows: seq<Row>, links: LinkTable): seq<Row> {
    if rows == [] then []
    else
      var last := rows[|rows| - 1];
      JoinLinks(rows[..|rows| - 1], links) + JoinRow(last, ContractsOf(links, Get(last, "id")))
  }

  /** The page query joins contract_assets, the count query does not. */
  method FindAssets(table: seq<Row>, links: LinkTable, tenant: string, dto: AssetSearch, like: Like)
    returns (data: seq<Row>, total: nat)
    requires OrElse(dto.page, 1) >= 1
    ensures var wanted := Keep(table, row => WantedAsset(row, tenant, dto, like));
            var page, limit := if dto.page.Some? then dto.page.value else 1, if dto.limit.Some? then dto.limit.value else 20;
            total == |wanted| && data == Page(JoinLinks(wanted, links), page, limit)
  {
    hide Where, AllBound, WantedAsset, Select, Keep, JoinLinks, Window;
    var page, limit := OrElse(dto.page, 1), OrElse(dto.limit, 20);
    var offset := (page - 1) * limit;
    var conditions, params, idx := BuildAssetFilter(tenant, dto, like);
    ghost var wanted := row => WantedAsset(row, tenant, dto, like);
    SelectIsKeep(table, conditions, params, like, wanted);
    SelectExtends(table, conditions, params, [Number(limit), Number(offset)], like);
    var countParams := params;
    var dataParams := params + [Number(limit), Number(offset)];
    data := Window(JoinLinks(Select(table, conditions, dataParams, like), links), dataParams[idx - 1].n, dataParams[idx].n);
    total := |Select(table, conditions, countParams, like)|;
  }

  /**
   The asset list has at least `total` rows, and exactly `total` just when no listed asset was
   ever linked to two contracts: an asset pledged twice is listed twice but counted once.
   */
  lemma {:induction false} AssetTotalCountsJoinedRows(rows: seq<Row>, links: LinkTable)
    ensures |rows| <= |JoinLinks(rows, links)|
    ensures |rows| == |JoinLinks(rows, links)| <==> forall row | row in rows :: |ContractsOf(links, Get(row, "id"))| <= 1
  {
    if rows == [] {
    } else {
      var front, last := rows[..|rows| - 1], rows[|rows| - 1];
      assert rows == front + [last];
      AssetTotalCountsJoinedRows(front, links);
      assert (forall row | row in rows :: |ContractsOf(links, Get(row, "id"))| <= 1) <==>
             (forall row | row in front :: |ContractsOf(links, Get(row, "id"))| <= 1) && |ContractsOf(links, Get(last, "id"))| <= 1;
    }
  }

  const ONE_ASSET: Row := map["id" := Text("asset")]

  const TWO_LINKS: LinkTable := [(Text("asset"), Text("settled contract")), (Text("asset"), Text("new contract"))]

  /** Such an asset: counted once, listed twice. */
  lemma TwiceLinkedIsListedTwice()
    ensures |[ONE_ASSET]| == 1 && |JoinLinks([ONE_ASSET], TWO_LINKS)| == 2
  {
    assert TWO_LINKS[..1] == [(Text("asset"), Text("settled contract"))] && TWO_LINKS[..1][..0] == [];
    assert ContractsOf(TWO_LINKS, Text("asset")) == [Text("settled contract"), Text("new contract")];
    assert [ONE_ASSET][..0] == [];
  }

  // ---------------------------------------------------------------- AssetsService.update

  /** The request fields `update` looks for, with their columns. */
  const FIELD_MAP: seq<(string, string)> := [
    ("assetType", "asset_type"), ("assetName", "asset_name"), ("brand", "brand"), ("model", "model"),
    ("color", "color"), ("serialNumber", "serial_number"), ("imei", "imei"), ("licensePlate", "license_plate"),
    ("chassisNumber", "chassis_number"), ("engineNumber", "engine_number"),
    ("conditionDescription", "condition_description"), ("valuationAmount", "valuation_amount"),
    ("proposedLoanAmount", "proposed_loan_amount"), ("status", "status")]

  /** The value a request supplies for a column, looking through the first n entries of the map. */
  function Supplied(dto: map<string, Value>, column: string, n: nat): Option<Value>
    requires n <= |FIELD_MAP|
  {
    if n == 0 then None
    else if FIELD_MAP[n - 1].1 == column && FIELD_MAP[n - 1].0 in dto then Some(dto[FIELD_MAP[n - 1].0])
    else Supplied(dto, column, n - 1)
  }

  /** The row with exactly the supplied columns replaced and the time of the update noted. */
  ghost predicate Overridden(row: Row, row': Row, dto: map<string, Value>, now: Value) {
    forall column ::
      Get(row', column) ==
        if column == "updated_at" then now
        else if Supplied(dto, column, |FIELD_MAP|).Some? then Supplied(dto, column, |FIELD_MAP|).value
        else Get(row, column)
  }

  ghost predicate Touches(dto: map<string, Value>) {
    exists i | 0 <= i < |FIELD_MAP| :: FIELD_MAP[i].0 in dto
  }

  ghost predicate IsRow(row: Row, id: string, tenant: string) {
    Get(row, "id") == Text(id) && Get(row, "tenant_id") == Text(tenant)
  }

  /** No two fields share a column, so every field a request carries reaches its own column. */
  lemma {:induction false} EveryFieldReachesItsColumn(dto: map<string, Value>, i: nat, n: nat)
    requires i < n <= |FIELD_MAP| && FIELD_MAP[i].0 in dto
    ensures Supplied(dto, FIELD_MAP[i].1, n) == Some(dto[FIELD_MAP[i].0])
    ensures FIELD_MAP[i].1 != "updated_at" && FIELD_MAP[i].1 != "id" && FIELD_MAP[i].1 != "tenant_id"
  {
    if i < n - 1 {
      EveryFieldReachesItsColumn(dto, i, n - 1);
    }
  }

  /** The row with the columns replaced that the first n entries of the map supply. */
  ghost predicate Replaced(row: Row, row': Row, dto: map<string, Value>, n: nat)
    requires n <= |FIELD_MAP|
  {
    forall column ::
      Get(row', column) == if Supplied(dto, column, n).Some? then Supplied(dto, column, n).value else Get(row, column)
  }

  lemma NothingReplaced(row: Row, dto: map<string, Value>)
    ensures Replaced(row, row, dto, 0)
  {
  }

  lemma GetPut(row: Row, column: string, v: Value, c: string)
    ensures Get(row[column := v], c) == if c == column then v else Get(row, c)
  {
  }

  lemma ReplacedMore(row: Row, row': Row, dto: map<string, Value>, n: nat, v: Value)
    requires n < |FIELD_MAP| && Replaced(row, row', dto, n) && FIELD_MAP[n].0 in dto && dto[FIELD_MAP[n].0] == v
    ensures Replaced(row, row'[FIELD_MAP[n].1 := v], dto, n + 1)
  {
    hide Get;
    var r := row'[FIELD_MAP[n].1 := v];
    forall c
      ensures Get(r, c) == if Supplied(dto, c, n + 1).Some? then Supplied(dto, c, n + 1).value else Get(row, c)
    {
      GetPut(row', FIELD_MAP[n].1, v, c);
    }
  }

  lemma ReplacedSame(row: Row, row': Row, dto: map<string, Value>, n: nat)
    requires n < |FIELD_MAP| && Replaced(row, row', dto, n) && FIELD_MAP[n].0 !in dto
    ensures Replaced(row, row', dto, n + 1)
  {
    hide Get;
  }

  /** The loop over the field map: one `column = $idx` and one value per field the request carries. */
  method BuildAssetUpdate(dto: map<string, Value>, now: Value)
    returns (fields: seq<Assignment>, values: seq<Value>, idx: nat)
    ensures AssignmentsBound(fields, values) && idx == |values| + 1
    ensures fields != [] <==> Touches(dto)
    ensures forall row :: Replaced(row, Assign(row, fields, values, now), dto, |FIELD_MAP|)
  {
    AssignNothing([], now);
    hide Assign, AssignmentsBound, Replaced;
    fields, values, idx := [], [], 1;
    forall row ensures Replaced(row, Assign(row, fields, values, now), dto, 0) {
      NothingReplaced(row, dto);
    }
    for i := 0 to |FIELD_MAP|
      invariant AssignmentsBound(fields, values) && idx == |values| + 1
      invariant fields != [] <==> exists j | 0 <= j < i :: FIELD_MAP[j].0 in dto
      invariant forall row :: Replaced(row, Assign(row, fields, values, now), dto, i)
    {
      var (key, column) := FIELD_MAP[i];
      ghost var sets, bound := fields, values;
      if key in dto {
        AssignPush(fields, values, Set(column, idx), dto[key], now);
        fields := fields + [Set(column, idx)];
        idx := idx + 1;
        values := values + [dto[key]];
        forall row ensures Replaced(row, Assign(row, fields, values, now), dto, i + 1) {
          ReplacedMore(row, Assign(row, sets, bound, now), dto, i, dto[key]);
        }
      } else {
        forall row ensures Replaced(row, Assign(row, fields, values, now), dto, i + 1) {
          ReplacedSame(row, Assign(row, fields, values, now), dto, i);
        }
      }
    }
  }

  /**
   Exactly the row with this id and tenant gets exactly the fields the request carries; without fields nothing
   is written.
   */
  method UpdateAsset(table: seq<Row>, dto: map<string, Value>, id: string, tenant: string, now: Value)
    returns (table': seq<Row>)
    ensures |table'| == |table|
    ensures forall i | 0 <= i < |table| ::
              if Touches(dto) && IsRow(table[i], id, tenant) then Overridden(table[i], table'[i], dto, now)
              else table'[i] == table[i]
  {
    var fields, values, idx := BuildAssetUpdate(dto, now);
    if |fields| == 0 {
      return table;
    }
    ghost var sets, bound := fields, values;
    fields := fields + [SetNow("updated_at")];
    values := values + [Text(id), Text(tenant)];
    forall row ensures AssignmentsBound(fields, values) &&
                       Assign(row, fields, values, now) == Assign(row, sets, bound, now)["updated_at" := now]
    {
      AssignExtends(row, sets, bound, [Text(id), Text(tenant)], now);
      assert fields[..|sets|] == sets;
    }
    table' := Update(table, fields, values, idx, idx + 1, now);
  }

  // ---------------------------------------------------------------- ContractsService.update

  /** The row with the given notes and due date, and the time of the update; other columns stay. */
  ghost predicate Amended(row: Row, row': Row, notes: Option<Value>, dueDate: Option<Value>, now: Value) {
    forall column ::
      Get(row', column) ==
        if column == "due_date" && dueDate.Some? then dueDate.value
        else if column == "notes" && notes.Some? then notes.value
        else if column == "updated_at" then now
        else Get(row, column)
  }

  lemma AmendTime(row: Row, now: Value)
    ensures Amended(row, row["updated_at" := now], None, None, now)
  {
  }

  lemma AmendNotes(row: Row, row': Row, notes: Option<Value>, now: Value)
    requires notes.Some? && Amended(row, row', None, None, now)
    ensures Amended(row, row'["notes" := notes.value], notes, None, now)
  {
    var r := row'["notes" := notes.value];
    assert forall column :: Get(r, column) == if column == "notes" then notes.value else Get(row', column);
  }

  lemma AmendDueDate(row: Row, row': Row, notes: Option<Value>, dueDate: Option<Value>, now: Value)
    requires dueDate.Some? && Amended(row, row', notes, None, now)
    ensures Amended(row, row'["due_date" := dueDate.value], notes, dueDate, now)
  {
    var r := row'["due_date" := dueDate.value];
    assert forall column :: Get(r, column) == if column == "due_date" then dueDate.value else Get(row', column);
  }

  /** The SET list of `update`, whose first parameters are the tenant and the id. */
  method BuildContractUpdate(
          notes: Option<Value>, dueDate: Option<Value>, id: string, tenant: string, now: Value)
    returns (updates: seq<Assignment>, params: seq<Value>)
    ensures AssignmentsBound(updates, params)
    ensures |params| >= 2 && params[0] == Text(tenant) && params[1] == Text(id)
    ensures forall row :: Amended(row, Assign(row, updates, params, now), notes, dueDate, now)
  {
    updates, params := [SetNow("updated_at")], [Text(tenant), Text(id)];
    var idx := 3;
    AssignNothing(params, now);
    hide Assign, AssignmentsBound, Amended;
    forall row ensures Amended(row, Assign(row, updates, params, now), None, None, now) {
      AmendTime(row, now);
    }
    if notes.Some? {
      ghost var sets, bound := updates, params;
      AssignPush(sets, bound, Set("notes", idx), notes.value, now);
      updates := updates + [Set("notes", idx)];
      idx := idx + 1;
      params := params + [notes.value];
      forall row ensures Amended(row, Assign(row, updates, params, now), notes, None, now) {
        AmendNotes(row, Assign(row, sets, bound, now), notes, now);
      }
    }
    if dueDate.Some? {
      ghost var sets, bound := updates, params;
      AssignPush(sets, bound, Set("due_date", idx), dueDate.value, now);
      updates := updates + [Set("due_date", idx)];
      idx := idx + 1;
      params := params + [dueDate.value];
      forall row ensures Amended(row, Assign(row, updates, params, now), notes, dueDate, now) {
        AmendDueDate(row, Assign(row, sets, bound, now), notes, dueDate, now);
      }
    }
  }

  /** The statement `update` ends with: exactly the tenant's row with that id is amended. */
  method UpdateContract(
          table: seq<Row>, notes: Option<Value>, dueDate: Option<Value>, id: string, tenant: string, now: Value)
    returns (table': seq<Row>)
    ensures |table'| == |table|
    ensures forall i | 0 <= i < |table| ::
              if IsRow(table[i], id, tenant) then Amended(table[i], table'[i], notes, dueDate, now) else table'[i] == table[i]
  {
    hide Assign, AssignmentsBound, Amended;
    var updates, params := BuildContractUpdate(notes, dueDate, id, tenant, now);
    table' := Update(table, updates, params, 2, 1, now);
  }
}
