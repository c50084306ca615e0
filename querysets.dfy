/** The query set itself (base.py:36-723): a class whose chain methods
    clone the receiver and assign the clone's attributes, whose
    `filter_query` appends to the clause list in place, and whose terminal
    operations record the statement they issue in `expression`. Each method
    is proved against the function of `QueryState` that specifies it. */
module QuerySets {
  import opened Values
  import opened Schema
  import opened Lookups
  import opened Expressions
  import opened Relationships
  import opened Filters
  import opened QueryState

  /** The first loops of `bulk_update` (base.py:622-630): each instance's
      selected attributes, resolved, then passed through
      `extract_values_from_field`. */
  method ExtractRows(objs: seq<Entity>, fields: seq<string>, resolve: Value -> Value, extract: Dict -> Dict) returns (newRows: seq<Dict>)
    ensures newRows == NewRows(objs, fields, resolve, extract)
  {
    var selected: seq<Dict> := [];
    var i := 0;
    while i < |objs|
      invariant 0 <= i <= |objs| && |selected| == i
      invariant forall j :: 0 <= j < i ==> selected[j] == Selected(objs[j].attrs, fields, resolve, [])
    {
      var attrs := objs[i].attrs;
      var row: Dict := [];
      var k := 0;
      while k < |attrs|
        invariant 0 <= k <= |attrs|
        invariant Selected(attrs[k..], fields, resolve, row) == Selected(attrs, fields, resolve, [])
      {
        assert attrs[k..][0] == attrs[k] && attrs[k..][1..] == attrs[k + 1..];
        if attrs[k].0 in fields {
          row := Set(row, attrs[k].0, resolve(attrs[k].1));
        }
        k := k + 1;
      }
      assert attrs[k..] == [];
      selected := selected + [row];
      i := i + 1;
    }
    newRows := [];
    i := 0;
    while i < |selected|
      invariant 0 <= i <= |selected| && |newRows| == i
      invariant forall j :: 0 <= j < i ==> newRows[j] == extract(selected[j])
    {
      newRows := newRows + [extract(selected[i])];
      i := i + 1;
    }
  }

  /** The bind-parameter dictionary of `bulk_update` (base.py:634): every key
      of every row, each once, in first-seen order. */
  method CollectColumns(rows: seq<Dict>) returns (columns: seq<string>)
    ensures columns == BindColumns(rows, [])
  {
    columns := [];
    var i := 0;
    while i < |rows|
      invariant 0 <= i <= |rows|
      invariant BindColumns(rows[i..], columns) == BindColumns(rows, [])
    {
      assert rows[i..][0] == rows[i] && rows[i..][1..] == rows[i + 1..];
      var keys := Keys(rows[i]);
      ghost var start := columns;
      var k := 0;
      while k < |keys|
        invariant 0 <= k <= |keys|
        invariant AddKeys(keys[k..], columns) == AddKeys(keys, start)
      {
        assert keys[k..][0] == keys[k] && keys[k..][1..] == keys[k + 1..];
        if keys[k] !in columns {
          columns := columns + [keys[k]];
        }
        k := k + 1;
      }
      assert keys[k..] == [];
      i := i + 1;
    }
    assert rows[i..] == [];
  }

  /** The `query_list` of `bulk_update` (base.py:635-639): each instance's
      primary key, then its values. */
  method QueryRows(pkname: string, objs: seq<Entity>, newRows: seq<Dict>) returns (queryList: seq<Dict>)
    requires |newRows| == |objs|
    ensures |queryList| == |objs|
    ensures forall j :: 0 <= j < |objs| ==> queryList[j] == Row(pkname, objs[j].pk, newRows[j])
  {
    queryList := [];
    var i := 0;
    while i < |objs|
      invariant 0 <= i <= |objs| && |queryList| == i
      invariant forall j :: 0 <= j < i ==> queryList[j] == Row(pkname, objs[j].pk, newRows[j])
    {
      queryList := queryList + [Update([(pkname, objs[i].pk)], newRows[i])];
      i := i + 1;
    }
  }

  class QuerySet {
    const model: ModelDef
    var filterClauses: seq<Clause>
    var selectRelated: seq<string>
    var limitCount: Option<int>
    var offset: Option<int>
    var orderBy: seq<string>
    var groupBy: seq<string>
    var distinctOn: seq<string>
    var expression: Option<Expr>
    var cache: Option<seq<Entity>>
    var m2mRelated: Option<string>

    function St(): State
      reads this
    {
      State(model, filterClauses, selectRelated, limitCount, offset, orderBy, groupBy, distinctOn, expression, cache, m2mRelated)
    }

    ghost predicate Valid()
      reads this
    {
      Consistent(St())
    }

    /** `__init__` (base.py:41-67). */
    constructor (model: ModelDef, filterClauses: seq<Clause>, selectRelated: seq<string>, limitCount: Option<int>, offset: Option<int>,
                 orderBy: seq<string>, groupBy: seq<string>, distinctOn: seq<string>, m2mRelated: Option<string>)
      requires WellFormed(model)
      ensures Valid()
      ensures St() == Init(model, filterClauses, selectRelated, limitCount, offset, orderBy, groupBy, distinctOn, m2mRelated)
    {
      this.model := model;
      this.filterClauses := filterClauses;
      this.limitCount := limitCount;
      this.selectRelated := selectRelated;
      this.offset := offset;
      this.orderBy := orderBy;
      this.groupBy := groupBy;
      this.distinctOn := distinctOn;
      this.expression := None;
      this.cache := None;
      if model.isMulti && !TruthyName(m2mRelated) {
        this.m2mRelated := Some(model.multiRelated[0]);
      } else {
        this.m2mRelated := m2mRelated;
      }
    }

    /** A query set allocated without `__init__` and given every
        attribute, as `clone` and `__deepcopy__` build theirs. */
    constructor Copy(s: State)
      requires Consistent(s)
      ensures Valid() && St() == s
    {
      model := s.model;
      filterClauses := s.filterClauses;
      limitCount := s.limitCount;
      selectRelated := s.selectRelated;
      offset := s.offset;
      orderBy := s.orderBy;
      groupBy := s.groupBy;
      distinctOn := s.distinctOn;
      expression := s.expression;
      cache := s.cache;
      m2mRelated := s.m2mRelated;
    }

    /** `clone` (base.py:322-339): a new query set with the same state. */
    method Clone() returns (q: QuerySet)
      requires Valid()
      ensures fresh(q) && q.Valid() && q.St() == St()
    {
      q := new QuerySet.Copy(St());
    }

    /** `__deepcopy__` (base.py:715-723). */
    method DeepCopy() returns (q: QuerySet)
      requires Valid()
      ensures fresh(q) && q.Valid() && q.St() == QueryState.DeepCopy(St())
    {
      q := new QuerySet.Copy(St().(cache := None));
    }

    /** `filter_query` (base.py:211-302): compiles the keywords in order,
        then appends to the receiver's own clause list and returns a new
        query set over that list; a keyword that raises leaves the receiver
        as it was. */
    method FilterQuery(graph: Graph, settings: Settings, exclude: bool, kwargs: Dict) returns (r: Result<QuerySet, Error>)
      requires Valid()
      modifies this`filterClauses
      ensures Valid()
      ensures r.Failure? ==> FilterSpec(graph, settings, old(St()), exclude, kwargs) == Failure(r.error) && St() == old(St())
      ensures r.Success? ==> fresh(r.value) && r.value.Valid() && FilterSpec(graph, settings, old(St()), exclude, kwargs) == Success(r.value.St())
      ensures r.Success? ==> St() == old(St()).(filterClauses := r.value.filterClauses)
    {
      var compiled := CompileKeywords(graph, settings, model, PkRewrite(kwargs, model.pkname), selectRelated);
      if compiled.Failure? {
        return Failure(compiled.error);
      }
      var (clauses, related) := compiled.value;
      ghost var newClauses := if exclude then filterClauses + [Not(And(clauses))] else filterClauses + clauses;
      assert FilterResult(graph, settings, model, exclude, kwargs, filterClauses, selectRelated) == Success((newClauses, related));
      ghost var spec := FilterSpec(graph, settings, St(), exclude, kwargs);
      assert spec == Success(Init(model, newClauses, related, limitCount, offset, orderBy, [], [], m2mRelated));
      if exclude {
        filterClauses := filterClauses + [Not(And(clauses))];
      } else {
        filterClauses := filterClauses + clauses;
      }
      var q := new QuerySet(model, filterClauses, related, limitCount, offset, orderBy, [], [], m2mRelated);
      assert q.St() == spec.value;
      r := Success(q);
    }

    /** `filter_or_exclude` (base.py:369-385), on a clone. */
    method FilterOrExclude(graph: Graph, settings: Settings, clause: Option<Clause>, exclude: bool, kwargs: Dict) returns (r: Result<QuerySet, Error>)
      requires Valid()
      ensures r.Failure? ==> FilterOrExcludeSpec(graph, settings, St(), clause, exclude, kwargs) == Failure(r.error)
      ensures r.Success? ==> fresh(r.value) && r.value.Valid() &&
                             FilterOrExcludeSpec(graph, settings, St(), clause, exclude, kwargs) == Success(r.value.St())
    {
      var q := Clone();
      if clause.None? {
        r := q.FilterQuery(graph, settings, exclude, kwargs);
        return;
      }
      q.filterClauses := q.filterClauses + [clause.value];
      r := Success(q);
    }

    /** `filter` (base.py:387-395). */
    method Filter(graph: Graph, settings: Settings, clause: Option<Clause>, kwargs: Dict) returns (r: Result<QuerySet, Error>)
      requires Valid()
      ensures r.Failure? ==> FilterOrExcludeSpec(graph, settings, St(), clause, false, kwargs) == Failure(r.error)
      ensures r.Success? ==> fresh(r.value) && r.value.Valid() &&
                             FilterOrExcludeSpec(graph, settings, St(), clause, false, kwargs) == Success(r.value.St())
    {
      r := FilterOrExclude(graph, settings, clause, false, kwargs);
    }

    /** `exclude` (base.py:397-405). */
    method Exclude(graph: Graph, settings: Settings, clause: Option<Clause>, kwargs: Dict) returns (r: Result<QuerySet, Error>)
      requires Valid()
      ensures r.Failure? ==> FilterOrExcludeSpec(graph, settings, St(), clause, true, kwargs) == Failure(r.error)
      ensures r.Success? ==> fresh(r.value) && r.value.Valid() &&
                             FilterOrExcludeSpec(graph, settings, St(), clause, true, kwargs) == Success(r.value.St())
    {
      r := FilterOrExclude(graph, settings, clause, true, kwargs);
    }

    /** `lookup` (base.py:407-430): the search clauses go into a local copy
        of the clause list, and the clone is returned without them. */
    method Lookup(term: string) returns (r: Result<QuerySet, Error>)
      requires Valid()
      ensures r.Failure? ==> LookupSpec(St(), term) == Failure(r.error)
      ensures r.Success? ==> fresh(r.value) && r.value.Valid() && LookupSpec(St(), term) == Success(r.value.St())
    {
      var q := Clone();
      if term == "" {
        return Success(q);
      }
      var localClauses := q.filterClauses;
      var search := SearchClauses(model, term);
      if search.Failure? {
        return Failure(search.error);
      }
      if |search.value| > 1 {
        localClauses := localClauses + [Or(search.value)];
      } else {
        localClauses := localClauses + search.value;
      }
      r := Success(q);
    }

    /** `order_by` (base.py:432-438): the names replace the stored ones. */
    method OrderBy(names: seq<string>) returns (q: QuerySet)
      requires Valid()
      ensures fresh(q) && q.Valid() && q.St() == St().(orderBy := names)
    {
      q := Clone();
      q.orderBy := names;
    }

    /** `limit` (base.py:440-446). */
    method Limit(n: int) returns (q: QuerySet)
      requires Valid()
      ensures fresh(q) && q.Valid() && q.St() == St().(limitCount := Some(n))
    {
      q := Clone();
      q.limitCount := Some(n);
    }

    /** `offset` (base.py:448-454). */
    method Offset(n: int) returns (q: QuerySet)
      requires Valid()
      ensures fresh(q) && q.Valid() && q.St() == St().(offset := Some(n))
    {
      q := Clone();
      q.offset := Some(n);
    }

    /** `group_by` (base.py:456-462). */
    method GroupBy(names: seq<string>) returns (q: QuerySet)
      requires Valid()
      ensures fresh(q) && q.Valid() && q.St() == St().(groupBy := names)
    {
      q := Clone();
      q.groupBy := names;
    }

    /** `distinct` (base.py:464-470). */
    method Distinct(names: seq<string>) returns (q: QuerySet)
      requires Valid()
      ensures fresh(q) && q.Valid() && q.St() == St().(distinctOn := names)
    {
      q := Clone();
      q.distinctOn := names;
    }

    /** `select_related` (base.py:472-487). */
    method SelectRelated(related: Related) returns (r: Result<QuerySet, Error>)
      requires Valid()
      ensures r.Failure? ==> SelectRelatedSpec(St(), related) == Failure(r.error)
      ensures r.Success? ==> fresh(r.value) && r.value.Valid() && SelectRelatedSpec(St(), related) == Success(r.value.St())
    {
      var q := Clone();
      match related {
        case Path(p) => q.selectRelated := selectRelated + [p];
        case PathList(ps) => q.selectRelated := selectRelated + ps;
        case PathTuple(_) => return Failure(TypeError);
      }
      r := Success(q);
    }

    /** `build_select` (base.py:180-209): the select, also recorded as the
        receiver's expression. */
    method BuildSelect(graph: Graph) returns (r: Result<Select, Error>)
      requires Valid()
      modifies this`expression
      ensures Valid()
      ensures r == BuildSelectSpec(graph, old(St()))
      ensures expression == if r.Success? then Some(SelectExpr(r.value)) else old(expression)
    {
      var tablesFrom := BuildTablesSelectFrom(graph, model, selectRelated);
      if tablesFrom.Failure? {
        return Failure(tablesFrom.error);
      }
      var (tables, from) := tablesFrom.value;
      r := AssembleSelect(tables, from, model.tablename, model.columns, filterClauses, orderBy, limitCount, offset, groupBy, distinctOn);
      if r.Success? {
        expression := Some(SelectExpr(r.value));
      }
    }

    /** `exists` (base.py:489-496). */
    method Exists(graph: Graph, db: Database) returns (r: Result<bool, Error>)
      requires Valid()
      modifies this`expression
      ensures Valid()
      ensures r == ExistsSpec(graph, db, old(St()))
      ensures expression == match BuildSelectSpec(graph, old(St()))
                            case Success(sel) => Some(ExistsExpr(sel))
                            case Failure(_) => old(expression)
    {
      var sel := BuildSelect(graph);
      if sel.Failure? {
        return Failure(sel.error);
      }
      expression := Some(ExistsExpr(sel.value));
      r := Success(db.fetchVal(ExistsExpr(sel.value)));
    }

    /** `get_or_none` (base.py:507-520): the filtered query set builds the
        select; the receiver records it. */
    method GetOrNone(graph: Graph, settings: Settings, db: Database, kwargs: Dict) returns (r: Result<Option<Entity>, Error>)
      requires Valid()
      modifies this`expression
      ensures Valid()
      ensures r == GetOrNoneSpec(graph, settings, db, old(St()), kwargs)
      ensures expression == match GetOrNonePlan(graph, settings, old(St()), kwargs)
                            case Success(sel) => Some(SelectExpr(sel))
                            case Failure(_) => old(expression)
    {
      var q := Filter(graph, settings, None, kwargs);
      if q.Failure? {
        return Failure(q.error);
      }
      var sel := q.value.BuildSelect(graph);
      if sel.Failure? {
        return Failure(sel.error);
      }
      var limited := sel.value.(limit := Some(2));
      expression := Some(SelectExpr(limited));
      var rows := db.fetchAll(SelectExpr(limited));
      r := ClassifyOrNone(rows);
    }

    /** `all` (base.py:522-549). */
    method All(graph: Graph, settings: Settings, db: Database, kwargs: Dict) returns (r: Result<seq<Value>, Error>)
      requires Valid()
      modifies this`expression
      ensures Valid()
      ensures r == AllSpec(graph, settings, db, old(St()), kwargs)
      ensures kwargs != [] ==> expression == old(expression)
      ensures kwargs == [] ==> expression == match AllPlan(graph, settings, old(St()), [])
                                             case Success(sel) => Some(SelectExpr(sel))
                                             case Failure(_) => old(expression)
      decreases |kwargs|
    {
      var q := Clone();
      if model.isMulti {
        q.distinctOn := [m2mRelated.value];
      }
      assert q.St() == AllState(St());
      if kwargs != [] {
        var f := q.Filter(graph, settings, None, kwargs);
        if f.Failure? {
          return Failure(f.error);
        }
        ProjectSameRelated(St(), f.value.St());
        r := f.value.All(graph, settings, db, []);
        return;
      }
      var sel := q.BuildSelect(graph);
      if sel.Failure? {
        return Failure(sel.error);
      }
      expression := Some(SelectExpr(sel.value));
      var rows := db.fetchAll(SelectExpr(sel.value));
      r := Project(St(), rows);
    }

    /** `get` (base.py:551-566). */
    method Get(graph: Graph, settings: Settings, db: Database, kwargs: Dict) returns (r: Result<Entity, Error>)
      requires Valid()
      modifies this`expression
      ensures Valid()
      ensures r == GetSpec(graph, settings, db, old(St()), kwargs)
      ensures kwargs != [] ==> expression == old(expression)
      ensures kwargs == [] ==> expression == match GetPlan(graph, settings, old(St()), [])
                                             case Success(sel) => Some(SelectExpr(sel))
                                             case Failure(_) => old(expression)
      decreases |kwargs|
    {
      if kwargs != [] {
        var f := Filter(graph, settings, None, kwargs);
        if f.Failure? {
          return Failure(f.error);
        }
        r := f.value.Get(graph, settings, db, []);
        return;
      }
      var sel := BuildSelect(graph);
      if sel.Failure? {
        return Failure(sel.error);
      }
      var limited := sel.value.(limit := Some(2));
      var rows := db.fetchAll(SelectExpr(limited));
      expression := Some(SelectExpr(limited));
      r := Classify(rows);
    }

    /** `first` (base.py:568-578). */
    method First(graph: Graph, settings: Settings, db: Database, kwargs: Dict) returns (r: Result<Option<Value>, Error>)
      requires Valid()
      ensures r == FirstSpec(graph, settings, db, St(), kwargs)
    {
      var q := Clone();
      if kwargs != [] {
        var f := q.Filter(graph, settings, None, kwargs);
        if f.Failure? {
          return Failure(f.error);
        }
        var ordered := f.value.OrderBy(["id"]);
        var got := ordered.Get(graph, settings, db, []);
        if got.Failure? {
          return Failure(got.error);
        }
        return Success(Some(Obj(got.value)));
      }
      var limited := q.Limit(1);
      var ordered := limited.OrderBy(["id"]);
      var rows := ordered.All(graph, settings, db, []);
      if rows.Failure? {
        return Failure(rows.error);
      }
      r := Success(if rows.value == [] then None else Some(rows.value[0]));
    }

    /** `last` (base.py:580-590). */
    method Last(graph: Graph, settings: Settings, db: Database, kwargs: Dict) returns (r: Result<Option<Value>, Error>)
      requires Valid()
      ensures r == LastSpec(graph, settings, db, St(), kwargs)
    {
      var q := Clone();
      if kwargs != [] {
        var f := q.Filter(graph, settings, None, kwargs);
        if f.Failure? {
          return Failure(f.error);
        }
        var ordered := f.value.OrderBy(["-id"]);
        var got := ordered.Get(graph, settings, db, []);
        if got.Failure? {
          return Failure(got.error);
        }
        return Success(Some(Obj(got.value)));
      }
      var ordered := q.OrderBy(["-id"]);
      var rows := ordered.All(graph, settings, db, []);
      if rows.Failure? {
        return Failure(rows.error);
      }
      r := Success(if rows.value == [] then None else Some(rows.value[0]));
    }

    /** `get_or_create` (base.py:667-679). */
    method GetOrCreate(graph: Graph, settings: Settings, db: Database, defaults: Dict, kwargs: Dict) returns (r: Result<CreateOutcome, Error>)
      requires Valid()
      modifies this`expression
      ensures Valid()
      ensures r == GetOrCreateSpec(graph, settings, db, old(St()), defaults, kwargs)
      ensures kwargs != [] ==> expression == old(expression)
      ensures kwargs == [] ==> expression == match GetPlan(graph, settings, old(St()), [])
                                             case Success(sel) => Some(SelectExpr(sel))
                                             case Failure(_) => old(expression)
    {
      var got := Get(graph, settings, db, kwargs);
      match got {
        case Success(e) => r := Success(Fetched(e));
        case Failure(ObjectNotFound) => r := Success(Created(Update(kwargs, defaults)));
        case Failure(e) => r := Failure(e);
      }
    }

    /** `update_or_create` (base.py:681-694). */
    method UpdateOrCreate(graph: Graph, settings: Settings, db: Database, defaults: Dict, kwargs: Dict) returns (r: Result<CreateOutcome, Error>)
      requires Valid()
      modifies this`expression
      ensures Valid()
      ensures r == UpdateOrCreateSpec(graph, settings, db, old(St()), defaults, kwargs)
      ensures kwargs != [] ==> expression == old(expression)
      ensures kwargs == [] ==> expression == match GetPlan(graph, settings, old(St()), [])
                                             case Success(sel) => Some(SelectExpr(sel))
                                             case Failure(_) => old(expression)
    {
      var got := Get(graph, settings, db, kwargs);
      match got {
        case Success(e) => r := Success(Updated(e, defaults));
        case Failure(ObjectNotFound) => r := Success(Created(Update(kwargs, defaults)));
        case Failure(e) => r := Failure(e);
      }
    }

    /** `contains` (base.py:696-702). */
    method Contains(graph: Graph, settings: Settings, db: Database, instance: Entity) returns (r: Result<bool, Error>)
      requires Valid()
      ensures r == ContainsSpec(graph, settings, db, St(), instance)
    {
      if instance.pk == NoneVal {
        return Failure(ValueError);
      }
      var q := Filter(graph, settings, None, [("pk", instance.pk)]);
      if q.Failure? {
        return Failure(q.error);
      }
      r := q.value.Exists(graph, db);
    }

    /** `bulk_update` (base.py:612-643): the rows it sends, one per
        instance, and the statement it records. */
    method BulkUpdate(objs: seq<Entity>, fields: seq<string>, resolve: Value -> Value, extract: Dict -> Dict) returns (r: Result<seq<Dict>, Error>)
      requires Valid()
      modifies this`expression
      ensures Valid()
      ensures r.Failure? ==> BulkUpdateSpec(old(St()), objs, fields, resolve, extract) == Failure(r.error) && expression == old(expression)
      ensures r.Success? ==> expression.Some? && BulkUpdateSpec(old(St()), objs, fields, resolve, extract) == Success((r.value, expression.value))
    {
      var newRows := ExtractRows(objs, fields, resolve, extract);
      if model.pkname !in model.columns {
        return Failure(AttributeError(model.pkname));
      }
      var columns := CollectColumns(newRows);
      var queryList := QueryRows(model.pkname, objs, newRows);
      ghost var spec := BulkUpdateSpec(St(), objs, fields, resolve, extract);
      assert spec.value.0 == queryList;
      expression := Some(BulkUpdateExpr(model.tablename, model.pkname, columns));
      r := Success(queryList);
    }
  }
}
