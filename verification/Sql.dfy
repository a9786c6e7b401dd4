/**
 The SQL the dynamic queries are made of: conditions and assignments that name positional
 parameters, and what executing them on a table means.
 */
module Sql {
  datatype Value = Null | Text(s: string) | Number(n: int)

  /** A row by column name; a column that is not there is NULL. */
  type Row = map<string, Value>

  /** value ILIKE pattern: left to the database, any relation will do. */
  type Like = (string, string) -> bool

  function Get(row: Row, column: string): Value {
    if column in row then row[column] else Null
  }

  datatype Op = Equal | AtLeast | AtMost | ILike

  /** `column op $k`, or a disjunction `(c1 ILIKE $k OR c2 ILIKE $k ...)`. */
  datatype Condition = Compare(column: string, op: Op, k: nat) | AnyILike(columns: seq<string>, k: nat)

  /** `column = $k`, or `column = NOW()`. */
  datatype Assignment = Set(column: string, k: nat) | SetNow(column: string)

  predicate Related(op: Op, a: Value, b: Value, like: Like) {
    match op
    case Equal => a != Null && a == b
    case AtLeast => a.Number? && b.Number? && a.n >= b.n
    case AtMost => a.Number? && b.Number? && a.n <= b.n
    case ILike => a.Text? && b.Text? && like(a.s, b.s)
  }

  predicate Bound(k: nat, params: seq<Value>) {
    1 <= k <= |params|
  }

  predicate AllBound(conditions: seq<Condition>, params: seq<Value>) {
    forall c | c in conditions :: Bound(c.k, params)
  }

  predicate Holds(c: Condition, params: seq<Value>, row: Row, like: Like)
    requires Bound(c.k, params)
  {
    match c
    case Compare(column, op, k) => Related(op, Get(row, column), params[k - 1], like)
    case AnyILike(columns, k) => exists column | column in columns :: Related(ILike, Get(row, column), params[k - 1], like)
  }

  /** All conditions hold of the row. */
  predicate Where(conditions: seq<Condition>, params: seq<Value>, row: Row, like: Like)
    requires AllBound(conditions, params)
  {
    forall c | c in conditions :: Holds(c, params, row, like)
  }

  /** The rows a WHERE clause lets through, in table order. */
  function Select(table: seq<Row>, conditions: seq<Condition>, params: seq<Value>, like: Like): seq<Row>
    requires AllBound(conditions, params)
  {
    if table == [] then []
    else
      var last := table[|table| - 1];
      Select(table[..|table| - 1], conditions, params, like) + if Where(conditions, params, last, like) then [last] else []
  }

  /** The rows with a property, in table order. */
  function Keep(table: seq<Row>, p: Row -> bool): seq<Row> {
    if table == [] then []
    else
      var last := table[|table| - 1];
      Keep(table[..|table| - 1], p) + if p(last) then [last] else []
  }

  /** ORDER BY's result cut by LIMIT and OFFSET. */
  function Window<T>(rows: seq<T>, limit: nat, offset: nat): seq<T> {
    var from := if offset < |rows| then offset else |rows|;
    var to := if from + limit < |rows| then from + limit else |rows|;
    rows[from..to]
  }

  // ---------------------------------------------------------------- conditions

  lemma {:induction false} SelectIsKeep(table: seq<Row>, conditions: seq<Condition>, params: seq<Value>, like: Like,
          p: Row -> bool)
    requires AllBound(conditions, params)
    requires forall row :: Where(conditions, params, row, like) == p(row)
    ensures Select(table, conditions, params, like) == Keep(table, p)
  {
    if table == [] {
    } else {
      SelectIsKeep(table[..|table| - 1], conditions, params, like, p);
    }
  }

  /** Parameters appended for LIMIT and OFFSET do not disturb the conditions. */
  lemma {:induction false} SelectExtends(table: seq<Row>, conditions: seq<Condition>, params: seq<Value>,
          more: seq<Value>, like: Like)
    requires AllBound(conditions, params)
    ensures AllBound(conditions, params + more)
    ensures Select(table, conditions, params + more, like) == Select(table, conditions, params, like)
  {
    if table == [] {
    } else {
      SelectExtends(table[..|table| - 1], conditions, params, more, like);
      WhereExtends(conditions, params, more, table[|table| - 1], like);
    }
  }

  lemma WhereExtends(conditions: seq<Condition>, params: seq<Value>, more: seq<Value>, row: Row, like: Like)
    requires AllBound(conditions, params)
    ensures AllBound(conditions, params + more)
    ensures Where(conditions, params + more, row, like) == Where(conditions, params, row, like)
  {
    forall c | c in conditions ensures Holds(c, params + more, row, like) == Holds(c, params, row, like) {
      assert (params + more)[c.k - 1] == params[c.k - 1];
    }
  }

  /** Pushing a condition on the last of one more parameter. */
  lemma WherePush(conditions: seq<Condition>, params: seq<Value>, c: Condition, v: Value, row: Row, like: Like)
    requires AllBound(conditions, params) && c.k == |params| + 1
    ensures AllBound(conditions + [c], params + [v])
    ensures Where(conditions + [c], params + [v], row, like) <==>
            Where(conditions, params, row, like) && Holds(c, params + [v], row, like)
  {
    WhereExtends(conditions, params, [v], row, like);
    var longer := conditions + [c];
    assert forall d | d in longer :: d in conditions || d == c;
    assert c in longer && forall d | d in conditions :: d in longer;
  }

  /** What pushing a condition with its parameter does to the whole filter. */
  lemma PushAll(conditions: seq<Condition>, params: seq<Value>, c: Condition, v: Value, like: Like)
    requires AllBound(conditions, params) && c.k == |params| + 1
    ensures AllBound(conditions + [c], params + [v])
    ensures forall row :: Where(conditions + [c], params + [v], row, like) <==>
              Where(conditions, params, row, like) && Accepts(c, v, row, like)
  {
    forall row ensures Where(conditions + [c], params + [v], row, like) <==>
                       Where(conditions, params, row, like) && Accepts(c, v, row, like)
    {
      WherePush(conditions, params, c, v, row, like);
    }
    WherePush(conditions, params, c, v, map[], like);
  }

  /** A condition whose parameter has the value v. */
  predicate Accepts(c: Condition, v: Value, row: Row, like: Like) {
    match c
    case Compare(column, op, _) => Related(op, Get(row, column), v, like)
    case AnyILike(columns, _) => exists column | column in columns :: Related(ILike, Get(row, column), v, like)
  }

  /** The filter every query starts from: the tenant, as $1. */
  lemma TenantFilter(tenant: string, like: Like)
    ensures var conditions, params := [Compare("tenant_id", Equal, 1)], [Text(tenant)];
            AllBound(conditions, params) &&
            forall row :: Where(conditions, params, row, like) <==> Get(row, "tenant_id") == Text(tenant)
  {
    var c := Compare("tenant_id", Equal, 1);
    assert c in [c];
  }

  // ---------------------------------------------------------------- pages

  function Page<T>(rows: seq<T>, page: nat, limit: nat): seq<T>
    requires page >= 1
  {
    Window(rows, limit, (page - 1) * limit)
  }

  /** Pages 1 to n, one after the other. */
  function Pages<T>(rows: seq<T>, limit: nat, n: nat): seq<T> {
    if n == 0 then [] else Pages(rows, limit, n - 1) + Page(rows, n, limit)
  }

  lemma {:induction false} PagesArePrefix<T>(rows: seq<T>, limit: nat, n: nat)
    requires limit >= 1
    ensures n * limit >= 0
    ensures Pages(rows, limit, n) == rows[..if n * limit < |rows| then n * limit else |rows|]
  {
    if n > 0 {
      PagesArePrefix(rows, limit, n - 1);
      assert n * limit == (n - 1) * limit + limit;
    }
  }

  /** Enough pages, put one after the other, are the whole list: nothing is lost, repeated or reordered. */
  lemma PagesCoverList<T>(rows: seq<T>, limit: nat, n: nat)
    requires limit >= 1 && n * limit >= |rows|
    ensures Pages(rows, limit, n) == rows
  {
    PagesArePrefix(rows, limit, n);
  }

  // ---------------------------------------------------------------- assignments

  predicate AssignmentsBound(sets: seq<Assignment>, params: seq<Value>) {
    forall a | a in sets && a.Set? :: Bound(a.k, params)
  }

  /** The SET list applied to a row, left to right. */
  function Assign(row: Row, sets: seq<Assignment>, params: seq<Value>, now: Value): Row
    requires AssignmentsBound(sets, params)
  {
    if sets == [] then row
    else
      var front, last := sets[..|sets| - 1], sets[|sets| - 1];
      assert last in sets;
      Assign(row, front, params, now)[last.column := if last.Set? then params[last.k - 1] else now]
  }

  /** The SET list applied to the rows whose id and tenant equal two of the parameters. */
  function Update(table: seq<Row>, sets: seq<Assignment>, params: seq<Value>, idK: nat, tenantK: nat,
          now: Value): (r: seq<Row>)
    requires AssignmentsBound(sets, params) && Bound(idK, params) && Bound(tenantK, params)
    ensures |r| == |table|
  {
    seq(|table|, i requires 0 <= i < |table| =>
      if Related(Equal, Get(table[i], "id"), params[idK - 1], (_, _) => false) &&
         Related(Equal, Get(table[i], "tenant_id"), params[tenantK - 1], (_, _) => false)
      then Assign(table[i], sets, params, now) else table[i])
  }

  lemma {:induction false} AssignExtends(row: Row, sets: seq<Assignment>, params: seq<Value>, more: seq<Value>,
          now: Value)
    requires AssignmentsBound(sets, params)
    ensures AssignmentsBound(sets, params + more)
    ensures Assign(row, sets, params + more, now) == Assign(row, sets, params, now)
  {
    if sets == [] {
    } else {
      AssignExtends(row, sets[..|sets| - 1], params, more, now);
      assert sets[|sets| - 1] in sets;
    }
  }

  lemma AssignNothing(params: seq<Value>, now: Value)
    ensures AssignmentsBound([], params)
    ensures forall row :: Assign(row, [], params, now) == row
    ensures AssignmentsBound([SetNow("updated_at")], params)
    ensures forall row :: Assign(row, [SetNow("updated_at")], params, now) == row["updated_at" := now]
  {
    forall row ensures Assign(row, [SetNow("updated_at")], params, now) == row["updated_at" := now] {
      assert [SetNow("updated_at")][..0] == [];
    }
  }

  /** Pushing `column = $k` with its value replaces that column last, and no other. */
  lemma AssignPush(sets: seq<Assignment>, params: seq<Value>, a: Assignment, v: Value, now: Value)
    requires AssignmentsBound(sets, params) && a.Set? && a.k == |params| + 1
    ensures AssignmentsBound(sets + [a], params + [v])
    ensures forall row :: Assign(row, sets + [a], params + [v], now) == Assign(row, sets, params, now)[a.column := v]
  {
    AssignExtends(map[], sets, params, [v], now);
    forall row ensures Assign(row, sets + [a], params + [v], now) == Assign(row, sets, params, now)[a.column := v] {
      AssignExtends(row, sets, params, [v], now);
      assert (sets + [a])[..|sets|] == sets;
    }
  }
}
