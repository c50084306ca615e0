/** Backend-neutral stand-ins for the SQLAlchemy objects the builder
    produces (clauses, join chains and select statements) and the helpers
    that turn stored names into columns (base.py:69-94, 180-209, 307-320). */
module Expressions {
  import opened Values

  /** A filter clause: a column comparison `(table, column, operator,
      value, escape modifier)`, a conjunction, a disjunction, a negation, or
      a clause handed in by the caller. `operator` is the SQLAlchemy
      column method that the filter operator maps to. */
  datatype Clause =
    | Compare(table: string, column: string, operator: string, value: Value, escape: Option<string>)
    | And(clauses: seq<Clause>)
    | Or(clauses: seq<Clause>)
    | Not(clause: Clause)
    | Raw(text: string)

  datatype ColumnRef = ColumnRef(table: string, name: string)

  datatype OrderCol = Asc(col: ColumnRef) | Desc(col: ColumnRef)

  /** The join condition of a disambiguated join: the left side's `id`
      equals the lookup field of the joined table. */
  datatype OnClause = OnClause(left: string, right: ColumnRef)

  /** `select_from`: the root table, or a join of a chain with one more
      table, with an explicit condition when the join was disambiguated. */
  datatype From = Table(name: string) | Join(left: From, right: string, on: Option<OnClause>)

  /** Number of joins in a chain. */
  function Depth(f: From): nat
  {
    match f
    case Table(_) => 0
    case Join(l, _, _) => Depth(l) + 1
  }

  /** The table a join chain starts from. */
  function RootTable(f: From): string
  {
    match f
    case Table(n) => n
    case Join(l, _, _) => RootTable(l)
  }

  datatype Select = Select(
    tables: seq<string>,
    from: From,
    where: Option<Clause>,
    orderBy: seq<OrderCol>,
    limit: Option<int>,
    offset: Option<int>,
    groupBy: seq<ColumnRef>,
    distinct: seq<ColumnRef>)

  /** The statements a query set records as its `_expression`. */
  datatype Expr =
    | SelectExpr(select: Select)
    | ExistsExpr(select: Select)
    | BulkUpdateExpr(table: string, key: string, columns: seq<string>)

  /** `s.lstrip(c)`. */
  function LStrip(s: string, c: char): (r: string)
    ensures |r| <= |s| && r == s[|s| - |r|..]
    ensures r == [] || r[0] != c
    ensures forall i :: 0 <= i < |s| - |r| ==> s[i] == c
  {
    if s != [] && s[0] == c then LStrip(s[1..], c) else s
  }

  /** `prepare_order_by`: every leading `-` is stripped, the stripped name
      must be a column of the table, and the column is descending exactly
      when the name started with `-`. */
  function PrepareOrderBy(table: string, columns: set<string>, name: string): (r: Result<OrderCol, Error>)
    ensures r.Success? <==> LStrip(name, '-') in columns
    ensures r.Failure? ==> r.error == KeyError(LStrip(name, '-'))
    ensures r.Success? ==> r.value.col == ColumnRef(table, LStrip(name, '-'))
    ensures r.Success? ==> (r.value.Desc? <==> |name| > 0 && name[0] == '-')
  {
    var col := LStrip(name, '-');
    if col !in columns then Failure(KeyError(col))
    else if |name| > 0 && name[0] == '-' then Success(Desc(ColumnRef(table, col)))
    else Success(Asc(ColumnRef(table, col)))
  }

  /** `prepare_group_by`: leading `-` stripped, never descending. */
  function PrepareGroupBy(table: string, columns: set<string>, name: string): (r: Result<ColumnRef, Error>)
    ensures r.Success? <==> LStrip(name, '-') in columns
    ensures r.Success? ==> r.value == ColumnRef(table, LStrip(name, '-'))
    ensures r.Failure? ==> r.error == KeyError(LStrip(name, '-'))
  {
    var col := LStrip(name, '-');
    if col in columns then Success(ColumnRef(table, col)) else Failure(KeyError(col))
  }

  /** `prepare_fields_for_distinct`: the name taken as it is. */
  function PrepareDistinct(table: string, columns: set<string>, name: string): (r: Result<ColumnRef, Error>)
    ensures r.Success? <==> name in columns
    ensures r.Success? ==> r.value == ColumnRef(table, name)
    ensures r.Failure? ==> r.error == KeyError(name)
  {
    if name in columns then Success(ColumnRef(table, name)) else Failure(KeyError(name))
  }

  /** `list(map(f, xs))` where `f` may raise: the first failure, in order,
      or every result. */
  function MapAll<A, B>(xs: seq<A>, f: A -> Result<B, Error>): (r: Result<seq<B>, Error>)
    ensures r.Success? <==> forall i :: 0 <= i < |xs| ==> f(xs[i]).Success?
    ensures r.Success? ==> |r.value| == |xs| && forall i :: 0 <= i < |xs| ==> r.value[i] == f(xs[i]).value
    ensures r.Failure? ==> exists i :: 0 <= i < |xs| && f(xs[i]) == Failure(r.error) && forall j :: 0 <= j < i ==> f(xs[j]).Success?
  {
    if xs == [] then Success([])
    else match f(xs[0])
      case Failure(e) => Failure(e)
      case Success(y) =>
        match MapAll(xs[1..], f)
        case Failure(e) =>
          var i :| 0 <= i < |xs[1..]| && f(xs[1..][i]) == Failure(e) && forall j :: 0 <= j < i ==> f(xs[1..][j]).Success?;
          assert f(xs[i + 1]) == Failure(e);
          Failure(e)
        case Success(ys) => Success([y] + ys)
  }

  /** `build_filter_clauses_expression`: one clause is used as it is, two or
      more are joined with `and_`, none leaves the select unfiltered. */
  function WhereOf(filters: seq<Clause>): (w: Option<Clause>)
    ensures w.None? <==> filters == []
    ensures |filters| == 1 ==> w == Some(filters[0])
    ensures |filters| >= 2 ==> w == Some(And(filters))
  {
    if filters == [] then None
    else if |filters| == 1 then Some(filters[0])
    else Some(And(filters))
  }

  /** `if self.limit_count:` / `if self._offset:`: None and 0 are skipped. */
  function IfTruthy(n: Option<int>): (r: Option<int>)
    ensures r.Some? <==> n.Some? && n.value != 0
    ensures r.Some? ==> r == n
  {
    if n.Some? && n.value != 0 then n else None
  }

  /** The part of `build_select` after the tables are known: filters, then
      ordering, limit, offset, grouping and distinct columns, each only when
      set; a stored name that is not a column raises KeyError. */
  function AssembleSelect(tables: seq<string>, from: From, table: string, columns: set<string>,
                          filters: seq<Clause>, orderBy: seq<string>, limit: Option<int>, offset: Option<int>,
                          groupBy: seq<string>, distinctOn: seq<string>): (r: Result<Select, Error>)
    ensures r.Success? <==>
      (forall i :: 0 <= i < |orderBy| ==> LStrip(orderBy[i], '-') in columns) &&
      (forall i :: 0 <= i < |groupBy| ==> LStrip(groupBy[i], '-') in columns) &&
      (forall i :: 0 <= i < |distinctOn| ==> distinctOn[i] in columns)
    ensures r.Success? ==>
      r.value.tables == tables && r.value.from == from && r.value.where == WhereOf(filters) &&
      r.value.limit == IfTruthy(limit) && r.value.offset == IfTruthy(offset) &&
      |r.value.orderBy| == |orderBy| && |r.value.groupBy| == |groupBy| && |r.value.distinct| == |distinctOn|
    ensures r.Success? ==> forall i :: 0 <= i < |orderBy| ==> r.value.orderBy[i] == PrepareOrderBy(table, columns, orderBy[i]).value
    ensures r.Success? ==> forall i :: 0 <= i < |groupBy| ==> r.value.groupBy[i] == ColumnRef(table, LStrip(groupBy[i], '-'))
    ensures r.Success? ==> forall i :: 0 <= i < |distinctOn| ==> r.value.distinct[i] == ColumnRef(table, distinctOn[i])
  {
    var order := MapAll(orderBy, n => PrepareOrderBy(table, columns, n));
    var group := MapAll(groupBy, n => PrepareGroupBy(table, columns, n));
    var distinct := MapAll(distinctOn, n => PrepareDistinct(table, columns, n));
    if order.Failure? then Failure(order.error)
    else if group.Failure? then Failure(group.error)
    else if distinct.Failure? then Failure(distinct.error)
    else Success(Select(tables, from, WhereOf(filters), order.value, IfTruthy(limit), IfTruthy(offset), group.value, distinct.value))
  }
}
