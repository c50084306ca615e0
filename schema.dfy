/** The model graph the query-set builder walks: for each model its table,
    primary-key name, ordered fields, table columns and the reverse
    accessors that foreign keys declared elsewhere install on it. The
    registry (`registry.models`) is the graph itself, keyed by model name. */
module Schema {
  import opened Values

  /** The kinds of field the builder tells apart. Both foreign keys and
      one-to-one keys are `ForeignKey`; `to` names the target model. */
  datatype FieldKind =
    | CharField
    | TextField
    | OtherField
    | ForeignKey(to: string, relatedName: Option<string>)

  datatype Field = Field(name: string, kind: FieldKind, columnType: string)

  /** The accessor a foreign key installs on its target: `relatedFrom` is
      the model that declares the key, `relatedTo` the model it points to. */
  datatype Reverse = Reverse(relatedFrom: string, relatedTo: string)

  datatype ModelDef = ModelDef(
    name: string,
    tablename: string,
    pkname: string,
    fields: seq<Field>,
    columns: set<string>,
    reverse: map<string, Reverse>,
    isMulti: bool,
    multiRelated: seq<string>)

  /** `registry.models`. */
  type Graph = map<string, ModelDef>

  /** A many-to-many model always records at least one related name (the
      registry establishes this; `__init__` reads the first of them). */
  predicate WellFormed(m: ModelDef)
  {
    m.isMulti ==> |m.multiRelated| > 0
  }

  /** `model.fields.get(name)`. */
  function FieldNamed(fields: seq<Field>, name: string): (r: Option<Field>)
    ensures r.Some? ==> r.value in fields && r.value.name == name
  {
    if fields == [] then None
    else if fields[0].name == name then Some(fields[0])
    else FieldNamed(fields[1..], name)
  }

  /** The lookup misses exactly when no field carries the name. Kept apart
      from `FieldNamed` so that callers do not pay for the quantifier. */
  lemma {:induction false} FieldNamedMissing(fields: seq<Field>, name: string)
    ensures FieldNamed(fields, name).None? <==> forall f :: f in fields ==> f.name != name
  {
    if fields != [] && fields[0].name != name {
      FieldNamedMissing(fields[1..], name);
      assert forall f :: f in fields ==> f == fields[0] || f in fields[1..];
    }
  }

  /** `model.fields[part].target`: a missing field raises KeyError, a field
      that is not a foreign key has no `target` (AttributeError), and a
      target the registry does not know raises KeyError. */
  function FieldTarget(graph: Graph, m: ModelDef, part: string): (r: Result<ModelDef, Error>)
    ensures r.Success? <==> FieldNamed(m.fields, part).Some? && FieldNamed(m.fields, part).value.kind.ForeignKey? && FieldNamed(m.fields, part).value.kind.to in graph
    ensures r.Success? ==> FieldNamed(m.fields, part).value.kind.ForeignKey? && r.value == graph[FieldNamed(m.fields, part).value.kind.to]
    ensures FieldNamed(m.fields, part).None? ==> r == Failure(KeyError(part))
  {
    match FieldNamed(m.fields, part)
    case None => Failure(KeyError(part))
    case Some(f) =>
      if !f.kind.ForeignKey? then Failure(AttributeError("target"))
      else if f.kind.to in graph then Success(graph[f.kind.to])
      else Failure(KeyError(f.kind.to))
  }

  /** `getattr(model, part).related_from`: only a reverse accessor has it.
      A model the graph does not hold counts as a missing attribute. */
  function ReverseFrom(graph: Graph, m: ModelDef, part: string): (r: Result<ModelDef, Error>)
    ensures r.Success? <==> part in m.reverse && m.reverse[part].relatedFrom in graph
    ensures r.Success? ==> r.value == graph[m.reverse[part].relatedFrom]
    ensures r.Failure? ==> r.error == AttributeError(part)
  {
    if part in m.reverse && m.reverse[part].relatedFrom in graph then Success(graph[m.reverse[part].relatedFrom])
    else Failure(AttributeError(part))
  }

  /** `getattr(model, key).related_to`. */
  function ReverseTo(graph: Graph, m: ModelDef, key: string): (r: Result<ModelDef, Error>)
    ensures r.Success? <==> key in m.reverse && m.reverse[key].relatedTo in graph
    ensures r.Success? ==> r.value == graph[m.reverse[key].relatedTo]
    ensures r.Failure? ==> r.error == AttributeError(key)
  {
    if key in m.reverse && m.reverse[key].relatedTo in graph then Success(graph[m.reverse[key].relatedTo])
    else Failure(AttributeError(key))
  }

  /** One step of a relationship walk (base.py:247-250 and 147-151): the
      forward field's target, or, when that raises KeyError, the model
      declaring the reverse accessor of that name. */
  function WalkStep(graph: Graph, m: ModelDef, part: string): (r: Result<ModelDef, Error>)
    ensures FieldTarget(graph, m, part).Success? ==> r == FieldTarget(graph, m, part)
    ensures FieldTarget(graph, m, part).Failure? && FieldTarget(graph, m, part).error.KeyError? ==> r == ReverseFrom(graph, m, part)
    ensures FieldTarget(graph, m, part).Failure? && !FieldTarget(graph, m, part).error.KeyError? ==> r == FieldTarget(graph, m, part)
  {
    match FieldTarget(graph, m, part)
    case Success(t) => Success(t)
    case Failure(KeyError(_)) => ReverseFrom(graph, m, part)
    case Failure(e) => Failure(e)
  }

  /** The model reached by walking a relationship path from `m`. */
  function Walk(graph: Graph, m: ModelDef, parts: seq<string>): Result<ModelDef, Error>
    decreases |parts|
  {
    if parts == [] then Success(m)
    else match WalkStep(graph, m, parts[0])
      case Failure(e) => Failure(e)
      case Success(t) => Walk(graph, t, parts[1..])
  }

  /** Walking a path is walking its first part, then the rest: the model a
      path reaches depends only on the model reached by each prefix. */
  lemma {:induction false} WalkAppend(graph: Graph, m: ModelDef, a: seq<string>, b: seq<string>)
    ensures Walk(graph, m, a + b) == match Walk(graph, m, a) case Failure(e) => Failure(e) case Success(t) => Walk(graph, t, b)
    decreases |a|
  {
    if a == [] {
      assert a + b == b;
    } else {
      assert (a + b)[0] == a[0] && (a + b)[1..] == a[1..] + b;
      match WalkStep(graph, m, a[0])
      case Failure(e) =>
      case Success(t) => WalkAppend(graph, t, a[1..], b);
    }
  }
}
