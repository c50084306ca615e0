/** The state of a query set and what each of its operations does to it
    (base.py): the chain methods that return a new query set, the select
    it builds, and how the terminal operations read the rows the database
    returns. The class in `QuerySets` is proved against these functions. */
module QueryState {
  import opened Values
  import opened Schema
  import opened Lookups
  import opened Expressions
  import opened Relationships
  import opened Filters

  /** The attributes of a query set (base.py:53-64). */
  datatype State = State(
    model: ModelDef,
    filterClauses: seq<Clause>,
    selectRelated: seq<string>,
    limitCount: Option<int>,
    offset: Option<int>,
    orderBy: seq<string>,
    groupBy: seq<string>,
    distinctOn: seq<string>,
    expression: Option<Expr>,
    cache: Option<seq<Entity>>,
    m2mRelated: Option<string>)

  /** What every query set keeps: a well-formed model and, for a
      many-to-many model, a related name that is set, either truthy or the
      model's first related name. */
  predicate Consistent(s: State)
  {
    WellFormed(s.model) &&
    (s.model.isMulti ==> TruthyName(s.m2mRelated) || s.m2mRelated == Some(s.model.multiRelated[0]))
  }

  /** `__init__` (base.py:41-67); an absent list is passed as `[]`. */
  function Init(model: ModelDef, filterClauses: seq<Clause>, selectRelated: seq<string>, limitCount: Option<int>, offset: Option<int>,
                orderBy: seq<string>, groupBy: seq<string>, distinctOn: seq<string>, m2mRelated: Option<string>): (s: State)
    requires WellFormed(model)
    ensures Consistent(s) && s.expression.None? && s.cache.None?
    ensures (!model.isMulti || TruthyName(m2mRelated)) ==> s.m2mRelated == m2mRelated
    ensures model.isMulti && !TruthyName(m2mRelated) ==> s.m2mRelated == Some(model.multiRelated[0])
  {
    State(model, filterClauses, selectRelated, limitCount, offset, orderBy, groupBy, distinctOn, None, None,
          if model.isMulti && !TruthyName(m2mRelated) then Some(model.multiRelated[0]) else m2mRelated)
  }

  /** `__deepcopy__` (base.py:715-723): everything copied but the cache. */
  function DeepCopy(s: State): (r: State)
    ensures r.cache.None? && r.(cache := s.cache) == s
  {
    s.(cache := None)
  }

  /** The query set `filter_query` returns (base.py:211-302): the new
      clause list and related paths, the limit, offset, ordering and
      related name carried over, and grouping, distinct columns, expression
      and cache left at their initial values. */
  function FilterSpec(graph: Graph, settings: Settings, s: State, exclude: bool, kwargs: Dict): (r: Result<State, Error>)
    requires Consistent(s)
    ensures r.Success? <==> FilterResult(graph, settings, s.model, exclude, kwargs, s.filterClauses, s.selectRelated).Success?
    ensures r.Failure? ==> r.error == FilterResult(graph, settings, s.model, exclude, kwargs, s.filterClauses, s.selectRelated).error
    ensures r.Success? ==> Consistent(r.value)
    ensures r.Success? ==>
      (r.value.filterClauses, r.value.selectRelated) == FilterResult(graph, settings, s.model, exclude, kwargs, s.filterClauses, s.selectRelated).value
    ensures r.Success? ==> r.value.model == s.model && r.value.limitCount == s.limitCount && r.value.offset == s.offset
    ensures r.Success? ==> r.value.orderBy == s.orderBy && r.value.m2mRelated == s.m2mRelated
    ensures r.Success? ==> r.value.groupBy == [] && r.value.distinctOn == [] && r.value.expression.None? && r.value.cache.None?
  {
    match FilterResult(graph, settings, s.model, exclude, kwargs, s.filterClauses, s.selectRelated)
    case Failure(e) => Failure(e)
    case Success((filterClauses, selectRelated)) =>
      Success(Init(s.model, filterClauses, selectRelated, s.limitCount, s.offset, s.orderBy, [], [], s.m2mRelated))
  }

  /** `filter_or_exclude` (base.py:369-385): with a clause, the clause is
      appended and the keywords are ignored; otherwise the keywords are
      compiled. */
  function FilterOrExcludeSpec(graph: Graph, settings: Settings, s: State, clause: Option<Clause>, exclude: bool, kwargs: Dict): (r: Result<State, Error>)
    requires Consistent(s)
    ensures r.Success? ==> Consistent(r.value)
    ensures clause.Some? ==> r == Success(s.(filterClauses := s.filterClauses + [clause.value]))
    ensures clause.None? ==> r == FilterSpec(graph, settings, s, exclude, kwargs)
  {
    if clause.Some? then Success(s.(filterClauses := s.filterClauses + [clause.value]))
    else FilterSpec(graph, settings, s, exclude, kwargs)
  }

  /** As written, `exclude` with a clause is `filter` with that clause: the
      clause is not negated. */
  lemma ExcludeClauseNotNegated(graph: Graph, settings: Settings, s: State, c: Clause, kwargs: Dict)
    requires Consistent(s)
    ensures FilterOrExcludeSpec(graph, settings, s, Some(c), true, kwargs) == FilterOrExcludeSpec(graph, settings, s, Some(c), false, kwargs)
    ensures FilterOrExcludeSpec(graph, settings, s, Some(c), true, kwargs).value.filterClauses == s.filterClauses + [c]
  {
  }

  /** `filter_or_exclude` with the clause negated when excluding, as
      `exclude` promises. */
  function FilterOrExcludeFixed(graph: Graph, settings: Settings, s: State, clause: Option<Clause>, exclude: bool, kwargs: Dict): (r: Result<State, Error>)
    requires Consistent(s)
    ensures r.Success? ==> Consistent(r.value)
    ensures clause.None? ==> r == FilterSpec(graph, settings, s, exclude, kwargs)
  {
    if clause.Some? then Success(s.(filterClauses := s.filterClauses + [if exclude then Not(clause.value) else clause.value]))
    else FilterSpec(graph, settings, s, exclude, kwargs)
  }

  /** With the correction, excluding by a clause adds its negation and
      filtering by it adds the clause, so the two never coincide. */
  lemma ExcludeClauseFixed(graph: Graph, settings: Settings, s: State, c: Clause, kwargs: Dict)
    requires Consistent(s)
    ensures FilterOrExcludeFixed(graph, settings, s, Some(c), true, kwargs).value.filterClauses == s.filterClauses + [Not(c)]
    ensures FilterOrExcludeFixed(graph, settings, s, Some(c), false, kwargs).value.filterClauses == s.filterClauses + [c]
    ensures FilterOrExcludeFixed(graph, settings, s, Some(c), true, kwargs) != FilterOrExcludeFixed(graph, settings, s, Some(c), false, kwargs)
  {
    var a := FilterOrExcludeFixed(graph, settings, s, Some(c), true, kwargs).value.filterClauses;
    var b := FilterOrExcludeFixed(graph, settings, s, Some(c), false, kwargs).value.filterClauses;
    assert a[|s.filterClauses|] == Not(c) != c == b[|s.filterClauses|];
  }

  // ---- lookup (base.py:407-430) ----

  /** The names of the character and text fields, in field order. */
  function SearchFields(fields: seq<Field>): (names: seq<string>)
    ensures forall n :: n in names <==> exists f :: f in fields && f.name == n && (f.kind.CharField? || f.kind.TextField?)
  {
    if fields == [] then []
    else
      var rest := SearchFields(fields[1..]);
      assert forall f :: f in fields[1..] ==> f in fields;
      assert forall f :: f in fields ==> f == fields[0] || f in fields[1..];
      if fields[0].kind.CharField? || fields[0].kind.TextField? then [fields[0].name] + rest else rest
  }

  /** `ilike("%term%")` on every searchable column; a searchable field
      without a column raises KeyError. */
  function SearchClauses(m: ModelDef, term: string): (r: Result<seq<Clause>, Error>)
    ensures r.Success? <==> forall n :: n in SearchFields(m.fields) ==> n in m.columns
    ensures r.Success? ==> |r.value| == |SearchFields(m.fields)|
    ensures r.Success? ==> forall i :: 0 <= i < |r.value| ==> r.value[i] == Compare(m.tablename, SearchFields(m.fields)[i], "ilike", StrVal("%" + term + "%"), None)
  {
    MapAll(SearchFields(m.fields), (n: string) =>
      if n in m.columns then Success(Compare(m.tablename, n, "ilike", StrVal("%" + term + "%"), None)) else Failure(KeyError(n)))
  }

  /** `lookup` as written: the search clauses are built into a copy of the
      clause list that is then dropped, so a search that does not raise
      returns the receiver's state unchanged. */
  function LookupSpec(s: State, term: string): (r: Result<State, Error>)
    ensures term == "" ==> r == Success(s)
    ensures r.Success? ==> r.value == s
    ensures r.Failure? <==> term != "" && SearchClauses(s.model, term).Failure?
  {
    if term == "" then Success(s)
    else match SearchClauses(s.model, term)
      case Failure(e) => Failure(e)
      case Success(_) => Success(s)
  }

  /** `lookup` with the search attached: one `or_` of the clauses when
      there are several, the single clause otherwise. */
  function LookupFixed(s: State, term: string): (r: Result<State, Error>)
    ensures term == "" ==> r == Success(s)
    ensures r.Success? <==> LookupSpec(s, term).Success?
    ensures r.Success? && term != "" ==>
      var search := SearchClauses(s.model, term).value;
      r.value == s.(filterClauses := s.filterClauses + if |search| > 1 then [Or(search)] else search)
  {
    if term == "" then Success(s)
    else match SearchClauses(s.model, term)
      case Failure(e) => Failure(e)
      case Success(search) =>
        Success(s.(filterClauses := s.filterClauses + if |search| > 1 then [Or(search)] else search))
  }

  /** A model with one character column searched for "a": as written the
      filters stay as they were, while the search, attached, adds the
      `ilike` clause. */
  lemma LookupDropsSearch(s: State)
    requires s.model.fields == [Field("name", CharField, "VARCHAR")] && "name" in s.model.columns
    ensures LookupSpec(s, "a") == Success(s)
    ensures LookupFixed(s, "a") == Success(s.(filterClauses := s.filterClauses + [Compare(s.model.tablename, "name", "ilike", StrVal("%a%"), None)]))
  {
    assert SearchFields(s.model.fields) == ["name"];
    assert "%" + "a" + "%" == "%a%";
    var search := SearchClauses(s.model, "a").value;
    assert search == [Compare(s.model.tablename, "name", "ilike", StrVal("%a%"), None)];
  }

  // ---- select_related (base.py:472-487) ----

  /** The argument of `select_related`: one path, a list or a tuple. */
  datatype Related = Path(path: string) | PathList(paths: seq<string>) | PathTuple(tuple: seq<string>)

  /** As written: a single path is wrapped in a list and appended, a list
      is appended without de-duplication, and a tuple is concatenated to a
      list, which raises TypeError. */
  function SelectRelatedSpec(s: State, related: Related): (r: Result<State, Error>)
    ensures r.Failure? <==> related.PathTuple?
    ensures r.Failure? ==> r.error == TypeError
    ensures related.Path? ==> r == Success(s.(selectRelated := s.selectRelated + [related.path]))
    ensures related.PathList? ==> r == Success(s.(selectRelated := s.selectRelated + related.paths))
  {
    match related
    case Path(p) => Success(s.(selectRelated := s.selectRelated + [p]))
    case PathList(ps) => Success(s.(selectRelated := s.selectRelated + ps))
    case PathTuple(_) => Failure(TypeError)
  }

  /** Selecting the same path twice lists it twice, unlike the paths a
      filter implies. */
  lemma SelectRelatedRepeats(s: State, p: string)
    ensures var once := SelectRelatedSpec(s, Path(p)).value;
      var twice := SelectRelatedSpec(once, Path(p)).value;
      twice.selectRelated == s.selectRelated + [p, p] && !NoDuplicates(twice.selectRelated)
  {
    var twice := s.selectRelated + [p] + [p];
    assert twice == s.selectRelated + [p, p];
    assert twice[|twice| - 2] == twice[|twice| - 1];
  }

  /** `select_related` with a tuple taken like a list. */
  function SelectRelatedFixed(s: State, related: Related): (r: State)
    ensures related.Path? ==> r == SelectRelatedSpec(s, related).value
    ensures related.PathList? ==> r == SelectRelatedSpec(s, related).value
    ensures related.PathTuple? ==> r == SelectRelatedSpec(s, PathList(related.tuple)).value
  {
    match related
    case Path(p) => s.(selectRelated := s.selectRelated + [p])
    case PathList(ps) => s.(selectRelated := s.selectRelated + ps)
    case PathTuple(ps) => s.(selectRelated := s.selectRelated + ps)
  }

  // ---- build_select (base.py:180-209) ----

  function BuildSelectSpec(graph: Graph, s: State): Result<Select, Error>
  {
    match TablesSelectFrom(graph, s.model, s.selectRelated)
    case Failure(e) => Failure(e)
    case Success((tables, from)) =>
      AssembleSelect(tables, from, s.model.tablename, s.model.columns, s.filterClauses, s.orderBy, s.limitCount,
                     s.offset, s.groupBy, s.distinctOn)
  }

  /** The select selects the root table and one table per related segment,
      filters by the clauses (none, one, or their conjunction), orders,
      groups and de-duplicates by one column per stored name, and skips a
      limit or offset of 0 or None. */
  lemma BuildSelectMeaning(graph: Graph, s: State)
    requires BuildSelectSpec(graph, s).Success?
    ensures var sel := BuildSelectSpec(graph, s).value;
      |sel.tables| == 1 + TotalParts(s.selectRelated) && sel.tables[0] == s.model.tablename &&
      sel.where == WhereOf(s.filterClauses) &&
      (sel.limit.Some? <==> s.limitCount.Some? && s.limitCount.value != 0) &&
      (sel.offset.Some? <==> s.offset.Some? && s.offset.value != 0) &&
      |sel.orderBy| == |s.orderBy| && |sel.groupBy| == |s.groupBy| && |sel.distinct| == |s.distinctOn|
  {
    TablesSelectFromShape(graph, s.model, s.selectRelated);
  }

  // ---- terminal operations ----

  /** The database, as what it answers to a statement: `fetch_all` and
      `fetch_val`. */
  datatype Database = Database(fetchAll: Expr -> seq<Entity>, fetchVal: Expr -> bool)

  /** How `get` reads the rows (base.py:562-566). */
  function Classify(rows: seq<Entity>): (r: Result<Entity, Error>)
    ensures rows == [] <==> r == Failure(ObjectNotFound)
    ensures |rows| > 1 <==> r == Failure(MultipleObjectsReturned)
    ensures |rows| == 1 <==> r.Success?
    ensures r.Success? ==> r.value == rows[0]
  {
    if rows == [] then Failure(ObjectNotFound)
    else if |rows| > 1 then Failure(MultipleObjectsReturned)
    else Success(rows[0])
  }

  /** How `get_or_none` reads them (base.py:516-520): None for no row,
      otherwise as `get`. */
  function ClassifyOrNone(rows: seq<Entity>): (r: Result<Option<Entity>, Error>)
    ensures rows == [] <==> r == Success(None)
    ensures rows != [] ==> r == match Classify(rows) case Success(e) => Success(Some(e)) case Failure(e) => Failure(e)
  {
    if rows == [] then Success(None)
    else if |rows| > 1 then Failure(MultipleObjectsReturned)
    else Success(Some(rows[0]))
  }

  /** The select `get` issues (base.py:551-558): keywords are applied as a
      filter first, then the select is capped at two rows. */
  function GetPlan(graph: Graph, settings: Settings, s: State, kwargs: Dict): (r: Result<Select, Error>)
    requires Consistent(s)
    ensures r.Success? ==> r.value.limit == Some(2)
    decreases |kwargs|
  {
    if kwargs != [] then
      match FilterSpec(graph, settings, s, false, kwargs)
      case Failure(e) => Failure(e)
      case Success(f) => GetPlan(graph, settings, f, [])
    else match BuildSelectSpec(graph, s)
      case Failure(e) => Failure(e)
      case Success(sel) => Success(sel.(limit := Some(2)))
  }

  function GetSpec(graph: Graph, settings: Settings, db: Database, s: State, kwargs: Dict): (r: Result<Entity, Error>)
    requires Consistent(s)
    ensures GetPlan(graph, settings, s, kwargs).Failure? ==> r == Failure(GetPlan(graph, settings, s, kwargs).error)
    ensures r.Success? <==> GetPlan(graph, settings, s, kwargs).Success? &&
                            |db.fetchAll(SelectExpr(GetPlan(graph, settings, s, kwargs).value))| == 1
    ensures r.Success? ==> r.value == db.fetchAll(SelectExpr(GetPlan(graph, settings, s, kwargs).value))[0]
  {
    match GetPlan(graph, settings, s, kwargs)
    case Failure(e) => Failure(e)
    case Success(sel) => Classify(db.fetchAll(SelectExpr(sel)))
  }

  /** The select `get_or_none` issues (base.py:507-513): it always goes
      through `filter`, even without keywords. */
  function GetOrNonePlan(graph: Graph, settings: Settings, s: State, kwargs: Dict): (r: Result<Select, Error>)
    requires Consistent(s)
    ensures r.Success? ==> r.value.limit == Some(2)
  {
    match FilterSpec(graph, settings, s, false, kwargs)
    case Failure(e) => Failure(e)
    case Success(f) =>
      match BuildSelectSpec(graph, f)
      case Failure(e) => Failure(e)
      case Success(sel) => Success(sel.(limit := Some(2)))
  }

  function GetOrNoneSpec(graph: Graph, settings: Settings, db: Database, s: State, kwargs: Dict): Result<Option<Entity>, Error>
    requires Consistent(s)
  {
    match GetOrNonePlan(graph, settings, s, kwargs)
    case Failure(e) => Failure(e)
    case Success(sel) => ClassifyOrNone(db.fetchAll(SelectExpr(sel)))
  }

  /** With keywords, `get_or_none` issues the select `get` issues, so it
      answers as `get` does except that no row gives None. */
  lemma GetOrNoneAsGet(graph: Graph, settings: Settings, db: Database, s: State, kwargs: Dict)
    requires Consistent(s) && kwargs != []
    ensures GetOrNonePlan(graph, settings, s, kwargs) == GetPlan(graph, settings, s, kwargs)
    ensures GetPlan(graph, settings, s, kwargs).Success? ==>
      GetOrNoneSpec(graph, settings, db, s, kwargs) ==
        match GetSpec(graph, settings, db, s, kwargs)
        case Success(e) => Success(Some(e))
        case Failure(ObjectNotFound) => Success(None)
        case Failure(e) => Failure(e)
  {
  }

  /** Without keywords, `get` keeps the receiver's distinct columns while
      `get_or_none` drops them, because its filter resets them. */
  lemma GetOrNoneDropsDistinct(graph: Graph, settings: Settings, s: State)
    requires Consistent(s)
    requires GetPlan(graph, settings, s, []).Success? && GetOrNonePlan(graph, settings, s, []).Success?
    ensures |GetPlan(graph, settings, s, []).value.distinct| == |s.distinctOn|
    ensures GetOrNonePlan(graph, settings, s, []).value.distinct == []
    ensures GetOrNonePlan(graph, settings, s, []).value.groupBy == []
  {
    BuildSelectMeaning(graph, s);
    BuildSelectMeaning(graph, FilterSpec(graph, settings, s, false, []).value);
  }

  /** `all` on a many-to-many model selects distinct on its related name. */
  function AllState(s: State): (r: State)
    requires Consistent(s)
    ensures Consistent(r)
    ensures r.(distinctOn := s.distinctOn) == s
    ensures s.model.isMulti ==> r.distinctOn == [s.m2mRelated.value]
    ensures !s.model.isMulti ==> r == s
  {
    if s.model.isMulti then s.(distinctOn := [s.m2mRelated.value]) else s
  }

  /** The select `all` issues (base.py:522-533): keywords are applied as a
      filter first and `all` runs again on the result. */
  function AllPlan(graph: Graph, settings: Settings, s: State, kwargs: Dict): Result<Select, Error>
    requires Consistent(s)
    decreases |kwargs|
  {
    var q := AllState(s);
    if kwargs != [] then
      match FilterSpec(graph, settings, q, false, kwargs)
      case Failure(e) => Failure(e)
      case Success(f) => AllPlan(graph, settings, f, [])
    else BuildSelectSpec(graph, q)
  }

  /** Rows as `all` returns them (base.py:541-549): each row's instance, or
      for a many-to-many model the attribute named by the related name. */
  function Project(s: State, rows: seq<Entity>): (r: Result<seq<Value>, Error>)
    requires Consistent(s)
    ensures r.Success? ==> |r.value| == |rows|
    ensures !s.model.isMulti ==> r.Success? && forall i :: 0 <= i < |rows| ==> r.value[i] == Obj(rows[i])
  {
    if !s.model.isMulti then Success(seq(|rows|, i requires 0 <= i < |rows| => Obj(rows[i])))
    else
      var name := s.m2mRelated.value;
      MapAll(rows, (e: Entity) => match Get(e.attrs, name) case Some(v) => Success(v) case None => Failure(AttributeError(name)))
  }

  /** Projection looks only at the model and the related name. */
  lemma ProjectSameRelated(s: State, t: State)
    requires Consistent(s) && Consistent(t) && s.model == t.model && s.m2mRelated == t.m2mRelated
    ensures forall rows :: Project(s, rows) == Project(t, rows)
  {
  }

  function AllSpec(graph: Graph, settings: Settings, db: Database, s: State, kwargs: Dict): Result<seq<Value>, Error>
    requires Consistent(s)
  {
    match AllPlan(graph, settings, s, kwargs)
    case Failure(e) => Failure(e)
    case Success(sel) => Project(s, db.fetchAll(SelectExpr(sel)))
  }

  /** On a many-to-many model the select of `all` is distinct on exactly the
      related name, with keywords too, although their filter resets the
      distinct columns. */
  lemma AllDistinctOnRelated(graph: Graph, settings: Settings, s: State, kwargs: Dict)
    requires Consistent(s) && s.model.isMulti
    requires AllPlan(graph, settings, s, kwargs).Success?
    ensures AllPlan(graph, settings, s, kwargs).value.distinct == [ColumnRef(s.model.tablename, s.m2mRelated.value)]
  {
    if kwargs != [] {
      var f := FilterSpec(graph, settings, AllState(s), false, kwargs).value;
      assert AllPlan(graph, settings, s, kwargs) == AllPlan(graph, settings, f, []);
      AllDistinctOnRelatedNoKwargs(graph, f);
    } else {
      AllDistinctOnRelatedNoKwargs(graph, s);
    }
  }

  lemma AllDistinctOnRelatedNoKwargs(graph: Graph, s: State)
    requires Consistent(s) && s.model.isMulti
    requires BuildSelectSpec(graph, AllState(s)).Success?
    ensures BuildSelectSpec(graph, AllState(s)).value.distinct == [ColumnRef(s.model.tablename, s.m2mRelated.value)]
  {
    var q := AllState(s);
    assert q.distinctOn == [s.m2mRelated.value];
  }

  /** `first` (base.py:568-578): with keywords, a `get` ordered by `id`;
      without, the first of `all` limited to one row ordered by `id`, or
      None. */
  function FirstSpec(graph: Graph, settings: Settings, db: Database, s: State, kwargs: Dict): Result<Option<Value>, Error>
    requires Consistent(s)
  {
    if kwargs != [] then
      match FilterSpec(graph, settings, s, false, kwargs)
      case Failure(e) => Failure(e)
      case Success(f) =>
        match GetSpec(graph, settings, db, f.(orderBy := ["id"]), [])
        case Failure(e) => Failure(e)
        case Success(e) => Success(Some(Obj(e)))
    else
      match AllSpec(graph, settings, db, s.(limitCount := Some(1), orderBy := ["id"]), [])
      case Failure(e) => Failure(e)
      case Success(rows) => Success(if rows == [] then None else Some(rows[0]))
  }

  /** `last` (base.py:580-590): the same ordered by `-id`, with no limit. */
  function LastSpec(graph: Graph, settings: Settings, db: Database, s: State, kwargs: Dict): Result<Option<Value>, Error>
    requires Consistent(s)
  {
    if kwargs != [] then
      match FilterSpec(graph, settings, s, false, kwargs)
      case Failure(e) => Failure(e)
      case Success(f) =>
        match GetSpec(graph, settings, db, f.(orderBy := ["-id"]), [])
        case Failure(e) => Failure(e)
        case Success(e) => Success(Some(Obj(e)))
    else
      match AllSpec(graph, settings, db, s.(orderBy := ["-id"]), [])
      case Failure(e) => Failure(e)
      case Success(rows) => Success(if rows == [] then None else Some(rows[0]))
  }

  /** On an empty table `first()` answers None but `first(**kwargs)` raises
      ObjectNotFound, whenever their selects can be built. */
  lemma FirstOnEmptyTable(graph: Graph, settings: Settings, db: Database, s: State, kwargs: Dict)
    requires Consistent(s) && kwargs != []
    requires forall x :: db.fetchAll(x) == []
    requires AllPlan(graph, settings, s.(limitCount := Some(1), orderBy := ["id"]), []).Success?
    requires FilterSpec(graph, settings, s, false, kwargs).Success?
    requires GetPlan(graph, settings, FilterSpec(graph, settings, s, false, kwargs).value.(orderBy := ["id"]), []).Success?
    ensures FirstSpec(graph, settings, db, s, []) == Success(None)
    ensures FirstSpec(graph, settings, db, s, kwargs) == Failure(ObjectNotFound)
  {
    var sel := AllPlan(graph, settings, s.(limitCount := Some(1), orderBy := ["id"]), []).value;
    assert db.fetchAll(SelectExpr(sel)) == [];
    var f := FilterSpec(graph, settings, s, false, kwargs).value;
    var sel2 := GetPlan(graph, settings, f.(orderBy := ["id"]), []).value;
    assert db.fetchAll(SelectExpr(sel2)) == [];
  }

  /** `first()` on a model without an `id` column raises KeyError. */
  lemma FirstNeedsId(graph: Graph, settings: Settings, db: Database, s: State)
    requires Consistent(s) && "id" !in s.model.columns
    requires TablesSelectFrom(graph, s.model, s.selectRelated).Success?
    ensures FirstSpec(graph, settings, db, s, []) == Failure(KeyError("id"))
  {
    assert LStrip("id", '-') == "id";
    var first := AllState(s.(limitCount := Some(1), orderBy := ["id"]));
    assert MapAll(first.orderBy, n => PrepareOrderBy(first.model.tablename, first.model.columns, n)) == Failure(KeyError("id"));
    assert BuildSelectSpec(graph, first).Failure?;
  }

  /** `last()` on a model without an `id` column raises KeyError. */
  lemma LastNeedsId(graph: Graph, settings: Settings, db: Database, s: State)
    requires Consistent(s) && "id" !in s.model.columns
    requires TablesSelectFrom(graph, s.model, s.selectRelated).Success?
    ensures LastSpec(graph, settings, db, s, []) == Failure(KeyError("id"))
  {
    assert "-id"[1..] == "id";
    assert LStrip("-id", '-') == "id";
    var last := AllState(s.(orderBy := ["-id"]));
    assert MapAll(last.orderBy, n => PrepareOrderBy(last.model.tablename, last.model.columns, n)) == Failure(KeyError("id"));
    assert BuildSelectSpec(graph, last).Failure?;
  }

  /** `first` and `last` order on the hard-coded `id`: on a model without an
      `id` column they raise KeyError once the joins are built. */
  lemma FirstLastNeedId(graph: Graph, settings: Settings, db: Database, s: State)
    requires Consistent(s) && "id" !in s.model.columns
    requires TablesSelectFrom(graph, s.model, s.selectRelated).Success?
    ensures FirstSpec(graph, settings, db, s, []) == Failure(KeyError("id"))
    ensures LastSpec(graph, settings, db, s, []) == Failure(KeyError("id"))
  {
    FirstNeedsId(graph, settings, db, s);
    LastNeedsId(graph, settings, db, s);
  }

  /** What `get_or_create` / `update_or_create` settle on: the fetched
      instance (to be updated with the defaults, for `update_or_create`),
      or the values to create one with. */
  datatype CreateOutcome = Fetched(instance: Entity) | Updated(instance: Entity, defaults: Dict) | Created(values: Dict)

  /** `get_or_create` (base.py:667-679): only ObjectNotFound leads to a
      creation, with the keywords updated by the defaults. */
  function GetOrCreateSpec(graph: Graph, settings: Settings, db: Database, s: State, defaults: Dict, kwargs: Dict): (r: Result<CreateOutcome, Error>)
    requires Consistent(s)
    ensures r.Success? && r.value.Created? <==> GetSpec(graph, settings, db, s, kwargs) == Failure(ObjectNotFound)
  {
    match GetSpec(graph, settings, db, s, kwargs)
    case Success(e) => Success(Fetched(e))
    case Failure(ObjectNotFound) => Success(Created(Update(kwargs, defaults)))
    case Failure(e) => Failure(e)
  }

  /** `update_or_create` (base.py:681-694). */
  function UpdateOrCreateSpec(graph: Graph, settings: Settings, db: Database, s: State, defaults: Dict, kwargs: Dict): (r: Result<CreateOutcome, Error>)
    requires Consistent(s)
    ensures r.Success? && r.value.Created? <==> GetSpec(graph, settings, db, s, kwargs) == Failure(ObjectNotFound)
  {
    match GetSpec(graph, settings, db, s, kwargs)
    case Success(e) => Success(Updated(e, defaults))
    case Failure(ObjectNotFound) => Success(Created(Update(kwargs, defaults)))
    case Failure(e) => Failure(e)
  }

  /** A record created by either operation holds the defaults over the
      keywords: a key of the defaults takes the default's value, any other
      keeps the keyword's. */
  lemma CreatedValues(graph: Graph, settings: Settings, db: Database, s: State, defaults: Dict, kwargs: Dict, x: string)
    requires Consistent(s) && IsDict(defaults)
    requires GetOrCreateSpec(graph, settings, db, s, defaults, kwargs).Success?
    requires GetOrCreateSpec(graph, settings, db, s, defaults, kwargs).value.Created?
    ensures GetOrCreateSpec(graph, settings, db, s, defaults, kwargs) == UpdateOrCreateSpec(graph, settings, db, s, defaults, kwargs)
    ensures Get(GetOrCreateSpec(graph, settings, db, s, defaults, kwargs).value.values, x) ==
      if x in Keys(defaults) then Get(defaults, x) else Get(kwargs, x)
  {
    GetUpdate(kwargs, defaults, x);
  }

  /** The select `contains` checks (base.py:696-702): the receiver
      filtered by `pk`. */
  function ContainsPlan(graph: Graph, settings: Settings, s: State, instance: Entity): (r: Result<Select, Error>)
    requires Consistent(s)
    ensures instance.pk == NoneVal ==> r == Failure(ValueError)
  {
    if instance.pk == NoneVal then Failure(ValueError)
    else match FilterSpec(graph, settings, s, false, [("pk", instance.pk)])
      case Failure(e) => Failure(e)
      case Success(f) => BuildSelectSpec(graph, f)
  }

  function ContainsSpec(graph: Graph, settings: Settings, db: Database, s: State, instance: Entity): Result<bool, Error>
    requires Consistent(s)
  {
    match ContainsPlan(graph, settings, s, instance)
    case Failure(e) => Failure(e)
    case Success(sel) => Success(db.fetchVal(ExistsExpr(sel)))
  }

  /** `exists` (base.py:489-496): the select wrapped in EXISTS. */
  function ExistsSpec(graph: Graph, db: Database, s: State): Result<bool, Error>
  {
    match BuildSelectSpec(graph, s)
    case Failure(e) => Failure(e)
    case Success(sel) => Success(db.fetchVal(ExistsExpr(sel)))
  }

  /** An instance whose key is truthy is looked for by comparing the
      primary-key column; one whose key is 0 is looked for by a keyword
      `pk`, which raises KeyError on a model without such a column or
      accessor. */
  lemma ContainsByPk(graph: Graph, settings: Settings, s: State, instance: Entity)
    requires Consistent(s)
    ensures instance.pk == IntVal(0) && "pk" !in s.model.columns && "pk" !in s.model.reverse ==>
      ContainsPlan(graph, settings, s, instance) == Failure(KeyError("'pk'"))
    ensures Truthy(instance.pk) && !instance.pk.Obj? && !HasSep(s.model.pkname) && s.model.pkname in s.model.columns &&
            "exact" in settings.filterOperators && ContainsPlan(graph, settings, s, instance).Success? ==>
      ContainsPlan(graph, settings, s, instance).value.where ==
        WhereOf(s.filterClauses + [Compare(s.model.tablename, s.model.pkname, settings.filterOperators["exact"], instance.pk, None)])
  {
    if instance.pk == IntVal(0) && "pk" !in s.model.columns && "pk" !in s.model.reverse {
      ZeroPkRaises(graph, settings, s.model, s.filterClauses, s.selectRelated);
    }
    if Truthy(instance.pk) && !instance.pk.Obj? && !HasSep(s.model.pkname) && s.model.pkname in s.model.columns &&
       "exact" in settings.filterOperators && ContainsPlan(graph, settings, s, instance).Success? {
      TruthyPkCompares(graph, settings, s.model, instance.pk, s.filterClauses, s.selectRelated);
      BuildSelectMeaning(graph, FilterSpec(graph, settings, s, false, [("pk", instance.pk)]).value);
    }
  }

  // ---- bulk_update (base.py:612-643) ----

  /** The selected attributes of one instance, resolved, in attribute
      order. */
  function Selected(attrs: Dict, fields: seq<string>, resolve: Value -> Value, acc: Dict): Dict
    decreases |attrs|
  {
    if attrs == [] then acc
    else Selected(attrs[1..], fields, resolve, if attrs[0].0 in fields then Set(acc, attrs[0].0, resolve(attrs[0].1)) else acc)
  }

  /** An instance's row holds exactly its selected attributes, resolved. */
  lemma {:induction false} SelectedMeaning(attrs: Dict, fields: seq<string>, resolve: Value -> Value, acc: Dict, x: string)
    requires IsDict(attrs)
    ensures Get(Selected(attrs, fields, resolve, acc), x) ==
      if x in fields && x in Keys(attrs) then Some(resolve(Get(attrs, x).value)) else Get(acc, x)
    decreases |attrs|
  {
    if attrs != [] {
      var k := attrs[0].0;
      var acc2 := if k in fields then Set(acc, k, resolve(attrs[0].1)) else acc;
      assert IsDict(attrs[1..]);
      SelectedMeaning(attrs[1..], fields, resolve, acc2, x);
      if k in fields {
        GetSet(acc, k, resolve(attrs[0].1), x);
      }
      assert Keys(attrs) == [k] + Keys(attrs[1..]);
      if x == k {
        assert k !in Keys(attrs[1..]);
      }
    }
  }

  /** The keys over all rows, each once, in the order they first appear. */
  function AddKeys(keys: seq<string>, acc: seq<string>): seq<string>
    decreases |keys|
  {
    if keys == [] then acc else AddKeys(keys[1..], AddOnce(acc, keys[0]))
  }

  function BindColumns(rows: seq<Dict>, acc: seq<string>): seq<string>
    decreases |rows|
  {
    if rows == [] then acc else BindColumns(rows[1..], AddKeys(Keys(rows[0]), acc))
  }

  lemma {:induction false} AddKeysMeaning(keys: seq<string>, acc: seq<string>)
    ensures forall x :: x in AddKeys(keys, acc) <==> x in acc || x in keys
    ensures NoDuplicates(acc) ==> NoDuplicates(AddKeys(keys, acc))
    ensures |AddKeys(keys, acc)| >= |acc| && AddKeys(keys, acc)[..|acc|] == acc
    decreases |keys|
  {
    if keys != [] {
      var acc2 := AddOnce(acc, keys[0]);
      AddKeysMeaning(keys[1..], acc2);
      assert forall x :: x in keys <==> x == keys[0] || x in keys[1..];
      var r := AddKeys(keys, acc);
      assert r[..|acc|] == r[..|acc2|][..|acc|];
    }
  }

  /** The bind columns are the keys of the rows, each once, in first-seen
      order. */
  lemma {:induction false} BindColumnsMeaning(rows: seq<Dict>, acc: seq<string>)
    ensures forall x :: x in BindColumns(rows, acc) <==> x in acc || exists i :: 0 <= i < |rows| && x in Keys(rows[i])
    ensures NoDuplicates(acc) ==> NoDuplicates(BindColumns(rows, acc))
    decreases |rows|
  {
    if rows != [] {
      var acc2 := AddKeys(Keys(rows[0]), acc);
      AddKeysMeaning(Keys(rows[0]), acc);
      BindColumnsMeaning(rows[1..], acc2);
      forall x ensures (exists i :: 0 <= i < |rows| && x in Keys(rows[i])) <==>
                       x in Keys(rows[0]) || exists i :: 0 <= i < |rows[1..]| && x in Keys(rows[1..][i]) {
        if exists i :: 0 <= i < |rows| && x in Keys(rows[i]) {
          var i :| 0 <= i < |rows| && x in Keys(rows[i]);
          if i > 0 {
            assert rows[1..][i - 1] == rows[i];
          }
        }
        if exists i :: 0 <= i < |rows[1..]| && x in Keys(rows[1..][i]) {
          var i :| 0 <= i < |rows[1..]| && x in Keys(rows[1..][i]);
          assert rows[i + 1] == rows[1..][i];
        }
      }
    }
  }

  /** The row sent for one instance: its primary key, then its values,
      which win on a clash. */
  function Row(pkname: string, pk: Value, values: Dict): Dict
  {
    Update([(pkname, pk)], values)
  }

  lemma RowMeaning(pkname: string, pk: Value, values: Dict, x: string)
    requires IsDict(values)
    ensures Get(Row(pkname, pk, values), x) == if x in Keys(values) then Get(values, x) else if x == pkname then Some(pk) else None
  {
    GetUpdate([(pkname, pk)], values, x);
  }

  /** The values extracted for each instance (`extract_values_from_field`
      is the opaque `extract`). */
  function NewRows(objs: seq<Entity>, fields: seq<string>, resolve: Value -> Value, extract: Dict -> Dict): (r: seq<Dict>)
    ensures |r| == |objs|
    ensures forall i :: 0 <= i < |objs| ==> r[i] == extract(Selected(objs[i].attrs, fields, resolve, []))
  {
    seq(|objs|, i requires 0 <= i < |objs| => extract(Selected(objs[i].attrs, fields, resolve, [])))
  }

  /** `bulk_update` as the rows it sends and the statement it records: a
      primary key that is not a column of the table raises
      AttributeError. */
  function BulkUpdateSpec(s: State, objs: seq<Entity>, fields: seq<string>, resolve: Value -> Value, extract: Dict -> Dict): (r: Result<(seq<Dict>, Expr), Error>)
    ensures r.Failure? <==> s.model.pkname !in s.model.columns
    ensures r.Failure? ==> r.error == AttributeError(s.model.pkname)
    ensures r.Success? ==> |r.value.0| == |objs|
    ensures r.Success? ==> forall i :: 0 <= i < |objs| ==> r.value.0[i] == Row(s.model.pkname, objs[i].pk, NewRows(objs, fields, resolve, extract)[i])
    ensures r.Success? ==> r.value.1 == BulkUpdateExpr(s.model.tablename, s.model.pkname, BindColumns(NewRows(objs, fields, resolve, extract), []))
  {
    var newRows := NewRows(objs, fields, resolve, extract);
    if s.model.pkname !in s.model.columns then Failure(AttributeError(s.model.pkname))
    else
      Success((seq(|objs|, i requires 0 <= i < |objs| => Row(s.model.pkname, objs[i].pk, newRows[i])),
               BulkUpdateExpr(s.model.tablename, s.model.pkname, BindColumns(newRows, []))))
  }
}
