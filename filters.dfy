/** How `filter_query` turns keyword arguments into clauses
    (base.py:211-302): the `pk` rewrite, the column each keyword names, the
    operator and its value, and the related paths it implies. */
module Filters {
  import opened Values
  import opened Schema
  import opened Lookups
  import opened Expressions

  /** `settings.filter_operators` (an operator name mapped to the column
      method it calls) and `settings.default_related_lookup_field`. */
  datatype Settings = Settings(filterOperators: map<string, string>, defaultRelatedLookupField: string)

  /** `if kwargs.get("pk"): kwargs[pk_name] = kwargs.pop("pk")`. */
  function PkRewrite(kwargs: Dict, pkname: string): Dict
  {
    match Get(kwargs, "pk")
    case Some(v) => if Truthy(v) then Set(Pop(kwargs, "pk"), pkname, v) else kwargs
    case None => kwargs
  }

  /** A truthy `pk` moves to the primary-key name and every other keyword
      keeps its value; a falsy or absent one is left where it is. */
  lemma PkRewriteMeaning(kwargs: Dict, pkname: string, x: string)
    ensures Get(kwargs, "pk").Some? && Truthy(Get(kwargs, "pk").value) ==>
      Get(PkRewrite(kwargs, pkname), x) ==
        if x == pkname then Get(kwargs, "pk") else if x == "pk" then None else Get(kwargs, x)
    ensures !(Get(kwargs, "pk").Some? && Truthy(Get(kwargs, "pk").value)) ==> PkRewrite(kwargs, pkname) == kwargs
  {
    match Get(kwargs, "pk")
    case Some(v) =>
      if Truthy(v) {
        GetSet(Pop(kwargs, "pk"), pkname, v, x);
        GetPop(kwargs, "pk", x);
      }
    case None =>
  }

  /** The comparison a keyword builds on a column (base.py:268-287): the
      operator must be configured; `contains`/`icontains` need a string,
      which is escaped and wrapped in `%`; any other operator takes the
      value as it is, a model instance standing for its primary key. */
  function Comparison(settings: Settings, table: string, column: string, op: string, value: Value): (r: Result<Clause, Error>)
    ensures op !in settings.filterOperators ==> r == Failure(KeyError(op))
    ensures r.Success? ==> r.value.Compare? && r.value.table == table && r.value.column == column &&
                            op in settings.filterOperators && r.value.operator == settings.filterOperators[op]
    ensures r.Success? && (op == "contains" || op == "icontains") ==>
      value.StrVal? && r.value.value == StrVal(ContainsPattern(value.s).0) && r.value.escape == ContainsPattern(value.s).1 &&
      (r.value.escape == Some("\\") <==> HasWildcard(value.s))
    ensures r.Success? && op != "contains" && op != "icontains" ==>
      r.value.escape == None && r.value.value == (if value.Obj? then value.e.pk else value)
    ensures op in settings.filterOperators && (op == "contains" || op == "icontains") && !value.StrVal? ==> r == Failure(TypeError)
  {
    if op !in settings.filterOperators then Failure(KeyError(op))
    else
      var attr := settings.filterOperators[op];
      if op == "contains" || op == "icontains" then
        if !value.StrVal? then Failure(TypeError)
        else
          var (pattern, escape) := ContainsPattern(value.s);
          Success(Compare(table, column, attr, StrVal(pattern), escape))
      else
        Success(Compare(table, column, attr, if value.Obj? then value.e.pk else value, None))
  }

  /** The related path a keyword implies, when it walks one. */
  function ImpliedPath(key: string, operators: set<string>): Option<string>
  {
    if HasSep(key) && ParseKey(key, operators).related != [] then Some(Lookups.Join(ParseKey(key, operators).related)) else None
  }

  /** `if related_str not in select_related: select_related.append(...)`. */
  function AddOnce(xs: seq<string>, p: string): seq<string>
  {
    if p in xs then xs else xs + [p]
  }

  /** The column a keyword compares (base.py:223-266), as `(model's table,
      column, operator)`. With the separator, the path is walked and the
      field must be a column of the model reached. Without it, the keyword
      is a root column, or else a reverse accessor compared on the default
      related lookup field of the model it points to; when it is neither,
      the KeyError of the root-column lookup is raised again with its
      message, the key in quotes. */
  function Column(graph: Graph, settings: Settings, m: ModelDef, key: string): (r: Result<(string, string, string), Error>)
    ensures !HasSep(key) && key in m.columns ==> r == Success((m.tablename, key, "exact"))
    ensures !HasSep(key) && key !in m.columns && ReverseTo(graph, m, key).Failure? ==> r == Failure(KeyError("'" + key + "'"))
    ensures !HasSep(key) && key !in m.columns && ReverseTo(graph, m, key).Success? ==>
      var t := ReverseTo(graph, m, key).value;
      r == if settings.defaultRelatedLookupField in t.columns then Success((t.tablename, settings.defaultRelatedLookupField, "exact"))
           else Failure(KeyError(settings.defaultRelatedLookupField))
    ensures HasSep(key) ==> var k := ParseKey(key, settings.filterOperators.Keys);
      match Walk(graph, m, k.related)
      case Failure(e) => r == Failure(e)
      case Success(t) => r == if k.field in t.columns then Success((t.tablename, k.field, k.op)) else Failure(KeyError(k.field))
  {
    if HasSep(key) then
      var k := ParseKey(key, settings.filterOperators.Keys);
      match Walk(graph, m, k.related)
      case Failure(e) => Failure(e)
      case Success(t) => if k.field in t.columns then Success((t.tablename, k.field, k.op)) else Failure(KeyError(k.field))
    else if key in m.columns then Success((m.tablename, key, "exact"))
    else match ReverseTo(graph, m, key)
      case Failure(_) => Failure(KeyError("'" + key + "'"))
      case Success(t) =>
        if settings.defaultRelatedLookupField in t.columns then Success((t.tablename, settings.defaultRelatedLookupField, "exact"))
        else Failure(KeyError(settings.defaultRelatedLookupField))
  }

  /** `Column` as `filter_query` computes it, with the walk along the
      related parts written as its loop (base.py:244-252). */
  method ResolveColumn(graph: Graph, settings: Settings, m: ModelDef, key: string) returns (r: Result<(string, string, string), Error>)
    ensures r == Column(graph, settings, m, key)
  {
    if HasSep(key) {
      var k := ParseKey(key, settings.filterOperators.Keys);
      var current := m;
      var i := 0;
      while i < |k.related|
        invariant 0 <= i <= |k.related|
        invariant Walk(graph, current, k.related[i..]) == Walk(graph, m, k.related)
      {
        assert k.related[i..][0] == k.related[i] && k.related[i..][1..] == k.related[i + 1..];
        var step := WalkStep(graph, current, k.related[i]);
        if step.Failure? {
          return Failure(step.error);
        }
        current := step.value;
        i := i + 1;
      }
      assert k.related[i..] == [];
      if k.field in current.columns {
        r := Success((current.tablename, k.field, k.op));
      } else {
        r := Failure(KeyError(k.field));
      }
    } else if key in m.columns {
      r := Success((m.tablename, key, "exact"));
    } else {
      var t := ReverseTo(graph, m, key);
      if t.Failure? {
        r := Failure(KeyError("'" + key + "'"));
      } else if settings.defaultRelatedLookupField in t.value.columns {
        r := Success((t.value.tablename, settings.defaultRelatedLookupField, "exact"));
      } else {
        r := Failure(KeyError(settings.defaultRelatedLookupField));
      }
    }
  }

  /** One keyword: its clause, and the related paths with the implied one
      added when it is new. */
  function CompileKwarg(graph: Graph, settings: Settings, m: ModelDef, key: string, value: Value, related: seq<string>): (r: Result<(Clause, seq<string>), Error>)
  {
    match Column(graph, settings, m, key)
    case Failure(e) => Failure(e)
    case Success((table, column, op)) =>
      match Comparison(settings, table, column, op, value)
      case Failure(e) => Failure(e)
      case Success(c) =>
        var implied := ImpliedPath(key, settings.filterOperators.Keys);
        Success((c, if implied.Some? then AddOnce(related, implied.value) else related))
  }

  /** The body of `filter_query`'s loop for one keyword (base.py:222-287). */
  method CompileKeyword(graph: Graph, settings: Settings, m: ModelDef, key: string, value: Value, related: seq<string>)
    returns (r: Result<(Clause, seq<string>), Error>)
    ensures r == CompileKwarg(graph, settings, m, key, value, related)
  {
    var column := ResolveColumn(graph, settings, m, key);
    if column.Failure? {
      return Failure(column.error);
    }
    var (table, name, op) := column.value;
    var clause := Comparison(settings, table, name, op, value);
    if clause.Failure? {
      return Failure(clause.error);
    }
    var implied := ImpliedPath(key, settings.filterOperators.Keys);
    var related2 := related;
    if implied.Some? && implied.value !in related {
      related2 := related + [implied.value];
    }
    r := Success((clause.value, related2));
  }

  /** The loop over the keywords, in order; the first keyword that raises
      ends it. */
  function CompileAll(graph: Graph, settings: Settings, m: ModelDef, kwargs: Dict, clauses: seq<Clause>, related: seq<string>): Result<(seq<Clause>, seq<string>), Error>
    decreases |kwargs|
  {
    if kwargs == [] then Success((clauses, related))
    else match CompileKwarg(graph, settings, m, kwargs[0].0, kwargs[0].1, related)
      case Failure(e) => Failure(e)
      case Success((c, related2)) => CompileAll(graph, settings, m, kwargs[1..], clauses + [c], related2)
  }

  /** One step of `CompileAll` on the keyword at position `i`. */
  lemma CompileAllStep(graph: Graph, settings: Settings, m: ModelDef, kwargs: Dict, i: nat, clauses: seq<Clause>, related: seq<string>)
    requires i < |kwargs|
    ensures var step := CompileKwarg(graph, settings, m, kwargs[i].0, kwargs[i].1, related);
      CompileAll(graph, settings, m, kwargs[i..], clauses, related) ==
        if step.Failure? then Failure(step.error)
        else CompileAll(graph, settings, m, kwargs[i + 1..], clauses + [step.value.0], step.value.1)
  {
    assert kwargs[i..][0] == kwargs[i] && kwargs[i..][1..] == kwargs[i + 1..];
  }

  /** `filter_query`'s loop over the keywords (base.py:222-287). */
  method CompileKeywords(graph: Graph, settings: Settings, m: ModelDef, kwargs: Dict, related: seq<string>)
    returns (r: Result<(seq<Clause>, seq<string>), Error>)
    ensures r == CompileAll(graph, settings, m, kwargs, [], related)
  {
    var clauses: seq<Clause> := [];
    var current := related;
    var i := 0;
    while i < |kwargs|
      invariant 0 <= i <= |kwargs|
      invariant CompileAll(graph, settings, m, kwargs[i..], clauses, current) == CompileAll(graph, settings, m, kwargs, [], related)
    {
      var (key, value) := kwargs[i];
      CompileAllStep(graph, settings, m, kwargs, i, clauses, current);
      var step := CompileKeyword(graph, settings, m, key, value, current);
      if step.Failure? {
        return Failure(step.error);
      }
      clauses := clauses + [step.value.0];
      current := step.value.1;
      i := i + 1;
    }
    assert kwargs[i..] == [];
    r := Success((clauses, current));
  }

  /** The receiver's filter clauses and the related paths after
      `filter_query`: `exclude` adds one negated conjunction, a filter adds
      every clause. */
  function FilterResult(graph: Graph, settings: Settings, m: ModelDef, exclude: bool, kwargs: Dict,
                        filterClauses: seq<Clause>, selectRelated: seq<string>): Result<(seq<Clause>, seq<string>), Error>
  {
    match CompileAll(graph, settings, m, PkRewrite(kwargs, m.pkname), [], selectRelated)
    case Failure(e) => Failure(e)
    case Success((clauses, related)) =>
      Success((if exclude then filterClauses + [Not(And(clauses))] else filterClauses + clauses, related))
  }

  predicate NoDuplicates(xs: seq<string>)
  {
    forall i, j :: 0 <= i < j < |xs| ==> xs[i] != xs[j]
  }

  /** The loop compiles one clause per keyword, in order; the related paths
      only grow, at the end, each new one once, and afterwards hold every
      path a keyword implies. */
  lemma {:induction false} CompileAllShape(graph: Graph, settings: Settings, m: ModelDef, kwargs: Dict, clauses: seq<Clause>, related: seq<string>)
    requires CompileAll(graph, settings, m, kwargs, clauses, related).Success?
    ensures var (cs, rs) := CompileAll(graph, settings, m, kwargs, clauses, related).value;
      |cs| == |clauses| + |kwargs| && cs[..|clauses|] == clauses &&
      |rs| >= |related| && rs[..|related|] == related &&
      (NoDuplicates(related) ==> NoDuplicates(rs)) &&
      (forall i :: 0 <= i < |kwargs| && ImpliedPath(kwargs[i].0, settings.filterOperators.Keys).Some? ==>
         ImpliedPath(kwargs[i].0, settings.filterOperators.Keys).value in rs) &&
      (forall p :: p in rs && p !in related ==> exists i :: 0 <= i < |kwargs| && ImpliedPath(kwargs[i].0, settings.filterOperators.Keys) == Some(p))
    decreases |kwargs|
  {
    if kwargs != [] {
      var (c, related2) := CompileKwarg(graph, settings, m, kwargs[0].0, kwargs[0].1, related).value;
      CompileAllShape(graph, settings, m, kwargs[1..], clauses + [c], related2);
      var (cs, rs) := CompileAll(graph, settings, m, kwargs, clauses, related).value;
      var ops := settings.filterOperators.Keys;
      assert cs[..|clauses|] == (cs[..|clauses| + 1])[..|clauses|];
      assert rs[..|related|] == (rs[..|related2|])[..|related|];
      var implied := ImpliedPath(kwargs[0].0, ops);
      if implied.Some? {
        assert implied.value in related2;
        assert implied.value in rs[..|related2|];
      }
      forall i | 0 <= i < |kwargs| && ImpliedPath(kwargs[i].0, ops).Some?
        ensures ImpliedPath(kwargs[i].0, ops).value in rs
      {
        if i > 0 {
          assert kwargs[1..][i - 1] == kwargs[i];
        }
      }
      forall p | p in rs && p !in related
        ensures exists i :: 0 <= i < |kwargs| && ImpliedPath(kwargs[i].0, ops) == Some(p)
      {
        if p in related2 {
          assert implied == Some(p);
        } else {
          var i :| 0 <= i < |kwargs[1..]| && ImpliedPath(kwargs[1..][i].0, ops) == Some(p);
          assert kwargs[i + 1] == kwargs[1..][i];
        }
      }
    }
  }

  /** Running the loop again on the paths it produced adds nothing: filtering
      twice through the same path keeps one entry. */
  lemma {:induction false} CompileAllAgain(graph: Graph, settings: Settings, m: ModelDef, kwargs: Dict,
                                           clauses: seq<Clause>, clauses2: seq<Clause>, related: seq<string>, rs: seq<string>)
    requires CompileAll(graph, settings, m, kwargs, clauses, related).Success?
    requires forall i :: 0 <= i < |kwargs| && ImpliedPath(kwargs[i].0, settings.filterOperators.Keys).Some? ==>
               ImpliedPath(kwargs[i].0, settings.filterOperators.Keys).value in rs
    ensures CompileAll(graph, settings, m, kwargs, clauses2, rs).Success?
    ensures CompileAll(graph, settings, m, kwargs, clauses2, rs).value.1 == rs
    decreases |kwargs|
  {
    if kwargs != [] {
      var (c, related2) := CompileKwarg(graph, settings, m, kwargs[0].0, kwargs[0].1, related).value;
      var (c2, rs2) := CompileKwarg(graph, settings, m, kwargs[0].0, kwargs[0].1, rs).value;
      assert rs2 == rs;
      forall i | 0 <= i < |kwargs[1..]| && ImpliedPath(kwargs[1..][i].0, settings.filterOperators.Keys).Some?
        ensures ImpliedPath(kwargs[1..][i].0, settings.filterOperators.Keys).value in rs
      {
        assert kwargs[1..][i] == kwargs[i + 1];
      }
      CompileAllAgain(graph, settings, m, kwargs[1..], clauses + [c], clauses2 + [c2], related2, rs);
    }
  }

  /** Filtering twice with the same keywords leaves the related paths as
      the first filter left them. */
  lemma FilterTwiceSamePaths(graph: Graph, settings: Settings, m: ModelDef, exclude: bool, exclude2: bool, kwargs: Dict,
                             filterClauses: seq<Clause>, selectRelated: seq<string>)
    requires FilterResult(graph, settings, m, exclude, kwargs, filterClauses, selectRelated).Success?
    ensures var (fc, rs) := FilterResult(graph, settings, m, exclude, kwargs, filterClauses, selectRelated).value;
      FilterResult(graph, settings, m, exclude2, kwargs, fc, rs).Success? &&
      FilterResult(graph, settings, m, exclude2, kwargs, fc, rs).value.1 == rs
  {
    var kw := PkRewrite(kwargs, m.pkname);
    CompileAllShape(graph, settings, m, kw, [], selectRelated);
    var rs := CompileAll(graph, settings, m, kw, [], selectRelated).value.1;
    CompileAllAgain(graph, settings, m, kw, [], [], selectRelated, rs);
  }

  /** `exclude` adds exactly one clause, the negated conjunction of one
      comparison per keyword; a filter adds the comparisons themselves. Both
      keep the clauses already there, in front. */
  lemma FilterAddsClauses(graph: Graph, settings: Settings, m: ModelDef, exclude: bool, kwargs: Dict,
                          filterClauses: seq<Clause>, selectRelated: seq<string>)
    requires FilterResult(graph, settings, m, exclude, kwargs, filterClauses, selectRelated).Success?
    ensures var fc := FilterResult(graph, settings, m, exclude, kwargs, filterClauses, selectRelated).value.0;
      fc[..|filterClauses|] == filterClauses &&
      (exclude ==> |fc| == |filterClauses| + 1 && fc[|filterClauses|].Not? && fc[|filterClauses|].clause.And? &&
                   |fc[|filterClauses|].clause.clauses| == |PkRewrite(kwargs, m.pkname)|) &&
      (!exclude ==> |fc| == |filterClauses| + |PkRewrite(kwargs, m.pkname)|)
  {
    CompileAllShape(graph, settings, m, PkRewrite(kwargs, m.pkname), [], selectRelated);
  }

  /** The implied related paths are appended in first-seen order without
      repeats: the earlier paths stay in front, and a list without repeats
      stays without repeats. */
  lemma FilterRelatedPaths(graph: Graph, settings: Settings, m: ModelDef, exclude: bool, kwargs: Dict,
                           filterClauses: seq<Clause>, selectRelated: seq<string>)
    requires FilterResult(graph, settings, m, exclude, kwargs, filterClauses, selectRelated).Success?
    ensures var rs := FilterResult(graph, settings, m, exclude, kwargs, filterClauses, selectRelated).value.1;
      |rs| >= |selectRelated| && rs[..|selectRelated|] == selectRelated &&
      (NoDuplicates(selectRelated) ==> NoDuplicates(rs))
  {
    CompileAllShape(graph, settings, m, PkRewrite(kwargs, m.pkname), [], selectRelated);
  }

  /** A falsy primary key is not rewritten: `pk=0` looks for a column or an
      accessor literally named `pk` and raises KeyError when the model has
      neither. */
  lemma ZeroPkRaises(graph: Graph, settings: Settings, m: ModelDef, filterClauses: seq<Clause>, selectRelated: seq<string>)
    requires "pk" !in m.columns && "pk" !in m.reverse
    ensures FilterResult(graph, settings, m, false, [("pk", IntVal(0))], filterClauses, selectRelated) == Failure(KeyError("'pk'"))
  {
    var kwargs := [("pk", IntVal(0))];
    assert !HasSep("pk") by {
      forall i | 0 <= i < 1 ensures !("pk"[i] == '_' && "pk"[i + 1] == '_') {}
    }
    assert Get(kwargs, "pk") == Some(IntVal(0));
    assert PkRewrite(kwargs, m.pkname) == kwargs;
    assert "'" + "pk" + "'" == "'pk'";
    assert Column(graph, settings, m, "pk") == Failure(KeyError("'pk'"));
    assert CompileKwarg(graph, settings, m, "pk", IntVal(0), selectRelated) == Failure(KeyError("'pk'"));
    assert CompileAll(graph, settings, m, kwargs, [], selectRelated) == Failure(KeyError("'pk'"));
  }

  /** A truthy primary key is compared on the model's primary-key column. */
  lemma TruthyPkCompares(graph: Graph, settings: Settings, m: ModelDef, v: Value, filterClauses: seq<Clause>, selectRelated: seq<string>)
    requires Truthy(v) && !v.Obj? && !HasSep(m.pkname) && m.pkname in m.columns && "exact" in settings.filterOperators
    ensures FilterResult(graph, settings, m, false, [("pk", v)], filterClauses, selectRelated) ==
      Success((filterClauses + [Compare(m.tablename, m.pkname, settings.filterOperators["exact"], v, None)], selectRelated))
  {
    var kwargs := [("pk", v)];
    assert Get(kwargs, "pk") == Some(v);
    assert Pop(kwargs, "pk") == [];
    var kw := PkRewrite(kwargs, m.pkname);
    assert kw == [(m.pkname, v)];
    var c := Compare(m.tablename, m.pkname, settings.filterOperators["exact"], v, None);
    assert Column(graph, settings, m, m.pkname) == Success((m.tablename, m.pkname, "exact"));
    assert Comparison(settings, m.tablename, m.pkname, "exact", v) == Success(c);
    assert CompileKwarg(graph, settings, m, m.pkname, v, selectRelated) == Success((c, selectRelated));
    assert kw[1..] == [] && [] + [c] == [c];
    assert CompileAll(graph, settings, m, kw, [], selectRelated) == Success(([c], selectRelated));
  }
}
