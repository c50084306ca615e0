/** The foreign-key field (foreign_keys.py): how a declaration is validated
    and assembled into a field, and what the field answers about its target,
    its column and the values it holds. */
module ForeignKeys {
  import opened Values
  import opened Schema

  /** `CASCADE`, `RESTRICT` and `SET_NULL` of the constants module, whose
      values are not part of this model. */
  datatype Constants = Constants(cascade: string, restrict: string, setNull: string)

  /** What `to` names: a model by its registry name, or the model itself. */
  datatype Target = Named(name: string) | ModelRef(model: ModelDef)

  /** An option value: a string or None. */
  function OptStr(s: Option<string>): Value
  {
    if s.Some? then StrVal(s.value) else NoneVal
  }

  /** `kwargs.get(key, None)`. */
  function Arg(kwargs: Dict, key: string): Value
  {
    match Get(kwargs, key)
    case Some(v) => v
    case None => NoneVal
  }

  /** `kwargs.pop(key, default)`, read side. */
  function ArgOr(kwargs: Dict, key: string, default: Value): Value
  {
    match Get(kwargs, key)
    case Some(v) => v
    case None => default
  }

  const NullMessage := "on_delete must not be null"
  const SetNullMessage := "When SET_NULL is enabled, null must be True."

  /** `ForeignKey.validate` (foreign_keys.py:161-174). */
  function Validate(c: Constants, kwargs: Dict): (r: Result<(), Error>)
    ensures r.Failure? ==> r.error == FieldDefinitionError(NullMessage) || r.error == FieldDefinitionError(SetNullMessage)
    ensures Arg(kwargs, "on_delete") == NoneVal ==> r == Failure(FieldDefinitionError(NullMessage))
  {
    var onDelete := Arg(kwargs, "on_delete");
    var onUpdate := Arg(kwargs, "on_update");
    var nullable := Arg(kwargs, "null");
    if onDelete == NoneVal then Failure(FieldDefinitionError(NullMessage))
    else if onDelete == StrVal(c.setNull) && !Truthy(nullable) then Failure(FieldDefinitionError(SetNullMessage))
    else if Truthy(onUpdate) && onUpdate == StrVal(c.setNull) && !Truthy(nullable) then Failure(FieldDefinitionError(SetNullMessage))
    else Success(())
  }

  /** A declaration passes exactly when `on_delete` is given and, whenever
      either action is SET_NULL, the column is nullable. */
  lemma ValidateMeaning(c: Constants, kwargs: Dict)
    requires c.setNull != ""
    ensures Validate(c, kwargs).Success? <==>
      Arg(kwargs, "on_delete") != NoneVal &&
      ((Arg(kwargs, "on_delete") == StrVal(c.setNull) || Arg(kwargs, "on_update") == StrVal(c.setNull)) ==> Truthy(Arg(kwargs, "null")))
  {
    if Arg(kwargs, "on_update") == StrVal(c.setNull) {
      assert Truthy(Arg(kwargs, "on_update"));
    }
  }

  /** The registry a field is declared against. Its model map is live:
      it fills as models are declared, so a field may name a model that
      does not exist yet. */
  class Registry {
    var models: Graph

    constructor (models: Graph)
      ensures this.models == models
    {
      this.models := models;
    }
  }

  /** A constructed foreign-key field: the attributes the factory sets
      (foreign_keys.py:29-65). `others` holds the remaining keyword
      arguments, passed through. */
  datatype FkField = FkField(
    to: Target,
    nullable: Value,
    onUpdate: Value,
    onDelete: Value,
    relatedName: Value,
    comment: Value,
    through: Value,
    owner: Option<ModelDef>,
    serverDefault: Value,
    serverOnupdate: Value,
    registry: Option<Registry>,
    isM2m: Value,
    isO2o: Value,
    isFk: bool,
    constraints: seq<string>,
    others: Dict)

  /** The keywords the factory pops before building the field. */
  const Popped: set<string> := {"to", "null", "on_update", "on_delete", "related_name", "comment", "through",
                                "owner", "server_default", "server_onupdate", "registry", "is_m2m", "is_o2o"}

  /** The keywords the factory sets itself in the namespace it builds; one
      of them arriving among the remaining arguments makes `dict(...)` raise
      TypeError. */
  const Namespace: set<string> := {"__type__", "to", "on_update", "on_delete", "related_name", "annotation", "null",
                                   "comment", "owner", "server_default", "server_onupdate", "through", "registry",
                                   "column_type", "is_m2m", "is_o2o", "is_fk", "constraints"}

  /** `kwargs` without the popped keywords. */
  function Remaining(kwargs: Dict): (r: Dict)
    ensures forall k :: k in Keys(r) ==> k in Keys(kwargs) && k !in Popped
  {
    if kwargs == [] then []
    else if kwargs[0].0 in Popped then Remaining(kwargs[1..])
    else [kwargs[0]] + Remaining(kwargs[1..])
  }

  /** An entry stays exactly when its keyword is not popped. */
  lemma {:induction false} RemainingMeaning(kwargs: Dict)
    ensures forall p :: p in Remaining(kwargs) <==> p in kwargs && p.0 !in Popped
  {
    if kwargs != [] {
      RemainingMeaning(kwargs[1..]);
      assert forall p :: p in kwargs <==> p == kwargs[0] || p in kwargs[1..];
    }
  }

  /** The entries that stay keep their order: dropping the popped keywords
      from a concatenation drops them from each part. */
  lemma {:induction false} RemainingAppend(a: Dict, b: Dict)
    ensures Remaining(a + b) == Remaining(a) + Remaining(b)
  {
    if a == [] {
      assert a + b == b;
    } else {
      assert (a + b)[0] == a[0] && (a + b)[1..] == a[1..] + b;
      RemainingAppend(a[1..], b);
    }
  }

  /** `ForeignKeyFieldFactory.__new__` (foreign_keys.py:26-67): validate, pop
      each option with its default, mark the field as a foreign key with no
      constraints of its own. `to`, `owner` and `registry` are passed apart
      from the other keywords because they are models, not values. */
  function FactoryNew(c: Constants, to: Target, owner: Option<ModelDef>, registry: Option<Registry>, kwargs: Dict): (r: Result<FkField, Error>)
    ensures Validate(c, kwargs).Failure? ==> r == Failure(Validate(c, kwargs).error)
    ensures r.Success? <==> Validate(c, kwargs).Success? && forall k :: k in Keys(Remaining(kwargs)) ==> k !in Namespace
    ensures Validate(c, kwargs).Success? && r.Failure? ==> r.error == TypeError
    ensures r.Success? ==> r.value.isFk && r.value.constraints == [] && r.value.to == to && r.value.owner == owner &&
                           r.value.registry == registry && r.value.others == Remaining(kwargs)
    ensures r.Success? ==>
      r.value.nullable == ArgOr(kwargs, "null", BoolVal(false)) &&
      r.value.onUpdate == ArgOr(kwargs, "on_update", StrVal(c.cascade)) &&
      r.value.onDelete == ArgOr(kwargs, "on_delete", StrVal(c.restrict)) &&
      r.value.relatedName == Arg(kwargs, "related_name") &&
      r.value.isM2m == ArgOr(kwargs, "is_m2m", BoolVal(false)) &&
      r.value.isO2o == ArgOr(kwargs, "is_o2o", BoolVal(false))
    ensures r.Success? ==>
      r.value.comment == Arg(kwargs, "comment") && r.value.through == Arg(kwargs, "through") &&
      r.value.serverDefault == Arg(kwargs, "server_default") && r.value.serverOnupdate == Arg(kwargs, "server_onupdate")
  {
    match Validate(c, kwargs)
    case Failure(e) => Failure(e)
    case Success(_) =>
      var rest := Remaining(kwargs);
      if exists k :: k in Keys(rest) && k in Namespace then Failure(TypeError)
      else
        Success(FkField(
          to,
          ArgOr(kwargs, "null", BoolVal(false)),
          ArgOr(kwargs, "on_update", StrVal(c.cascade)),
          ArgOr(kwargs, "on_delete", StrVal(c.restrict)),
          Arg(kwargs, "related_name"),
          Arg(kwargs, "comment"),
          Arg(kwargs, "through"),
          owner,
          Arg(kwargs, "server_default"),
          Arg(kwargs, "server_onupdate"),
          registry,
          ArgOr(kwargs, "is_m2m", BoolVal(false)),
          ArgOr(kwargs, "is_o2o", BoolVal(false)),
          true,
          [],
          rest))
  }

  /** The named parameters of `ForeignKey.__new__`. */
  datatype FkArgs = FkArgs(nullable: bool, onUpdate: Option<string>, onDelete: Option<string>, relatedName: Option<string>)

  /** Their defaults (foreign_keys.py:148-151). */
  function DefaultArgs(c: Constants): FkArgs
  {
    FkArgs(false, Some(c.cascade), Some(c.restrict), None)
  }

  /** The keyword dictionary `ForeignKey.__new__` assembles: the extra
      keywords, then its named parameters on top (foreign_keys.py:154-157). */
  function Assemble(args: FkArgs, extra: Dict): Dict
  {
    Update(extra, [("null", BoolVal(args.nullable)), ("on_update", OptStr(args.onUpdate)),
                   ("on_delete", OptStr(args.onDelete)), ("related_name", OptStr(args.relatedName))])
  }

  /** `ForeignKey(to, ...)`. */
  function ForeignKeyNew(c: Constants, to: Target, args: FkArgs, extra: Dict, owner: Option<ModelDef>, registry: Option<Registry>): (r: Result<FkField, Error>)
    ensures args.onDelete.None? ==> r == Failure(FieldDefinitionError(NullMessage))
    ensures r.Success? ==>
      r.value.to == to && r.value.nullable == BoolVal(args.nullable) &&
      r.value.onUpdate == OptStr(args.onUpdate) && r.value.onDelete == OptStr(args.onDelete) &&
      r.value.relatedName == OptStr(args.relatedName)
  {
    AssembleArgs(args, extra);
    FactoryNew(c, to, owner, registry, Assemble(args, extra))
  }

  lemma AssembleArgs(args: FkArgs, extra: Dict)
    ensures Arg(Assemble(args, extra), "null") == BoolVal(args.nullable)
    ensures Get(Assemble(args, extra), "null") == Some(BoolVal(args.nullable))
    ensures Get(Assemble(args, extra), "on_update") == Some(OptStr(args.onUpdate))
    ensures Get(Assemble(args, extra), "on_delete") == Some(OptStr(args.onDelete))
    ensures Get(Assemble(args, extra), "related_name") == Some(OptStr(args.relatedName))
  {
    var named := [("null", BoolVal(args.nullable)), ("on_update", OptStr(args.onUpdate)),
                  ("on_delete", OptStr(args.onDelete)), ("related_name", OptStr(args.relatedName))];
    assert Keys(named) == ["null", "on_update", "on_delete", "related_name"];
    GetUpdate(extra, named, "null");
    GetUpdate(extra, named, "on_update");
    GetUpdate(extra, named, "on_delete");
    GetUpdate(extra, named, "related_name");
  }

  /** A foreign key declared with the defaults passes validation and is
      built with `null` False, `on_update` CASCADE, `on_delete` RESTRICT
      and no related name, as long as SET_NULL is a different constant. */
  lemma DefaultsAccepted(c: Constants, to: Target, extra: Dict, owner: Option<ModelDef>, registry: Option<Registry>)
    requires c.setNull != c.restrict && c.setNull != c.cascade
    requires forall k :: k in Keys(Remaining(Assemble(DefaultArgs(c), extra))) ==> k !in Namespace
    ensures ForeignKeyNew(c, to, DefaultArgs(c), extra, owner, registry).Success?
    ensures var f := ForeignKeyNew(c, to, DefaultArgs(c), extra, owner, registry).value;
      f.nullable == BoolVal(false) && f.onUpdate == StrVal(c.cascade) && f.onDelete == StrVal(c.restrict) &&
      f.relatedName == NoneVal && f.isFk && f.constraints == []
  {
    AssembleArgs(DefaultArgs(c), extra);
  }

  /** `get_related_name` gives back the related name the key was declared
      with. */
  lemma RelatedNameDeclared(c: Constants, to: Target, args: FkArgs, extra: Dict, owner: Option<ModelDef>, registry: Option<Registry>)
    requires ForeignKeyNew(c, to, args, extra, owner, registry).Success?
    ensures GetRelatedName(ForeignKeyNew(c, to, args, extra, owner, registry).value) == OptStr(args.relatedName)
  {
    AssembleArgs(args, extra);
  }

  /** `get_related_name` (foreign_keys.py:116-122). */
  function GetRelatedName(f: FkField): Value
  {
    f.relatedName
  }

  /** The target `target` resolves to when nothing is memoised, given the
      registry's models at that moment: a name is looked up in them
      (KeyError when absent; a field without a registry has no `models`),
      a model is its own target. */
  function TargetOf(to: Target, models: Option<Graph>): (r: Result<ModelDef, Error>)
    ensures to.ModelRef? ==> r == Success(to.model)
    ensures to.Named? && models.None? ==> r == Failure(AttributeError("models"))
    ensures to.Named? && models.Some? ==> (r.Success? <==> to.name in models.value)
    ensures to.Named? && models.Some? && r.Success? ==> r.value == models.value[to.name]
    ensures to.Named? && models.Some? && r.Failure? ==> r.error == KeyError(to.name)
  {
    match to
    case ModelRef(m) => Success(m)
    case Named(name) =>
      if models.None? then Failure(AttributeError("models"))
      else if name in models.value then Success(models.value[name])
      else Failure(KeyError(name))
  }

  /** The foreign-key column `get_column` returns. */
  datatype FkConstraint = FkConstraint(column: string, onDelete: Value, onUpdate: Value, name: string)
  datatype Column = Column(name: string, columnType: string, foreignKeys: seq<FkConstraint>, nullable: Value)

  /** `get_column` once the target is known (foreign_keys.py:100-114): the
      target's primary-key field gives the column type; the field's owner
      gives the constraint name. */
  function ColumnFor(f: FkField, target: ModelDef, name: string): (r: Result<Column, Error>)
    ensures FieldNamed(target.fields, target.pkname).None? ==> r == Failure(KeyError(target.pkname))
    ensures r.Success? <==> FieldNamed(target.fields, target.pkname).Some? && f.owner.Some?
  {
    match FieldNamed(target.fields, target.pkname)
    case None => Failure(KeyError(target.pkname))
    case Some(toField) =>
      if f.owner.None? then Failure(AttributeError("meta"))
      else
        var constraint := FkConstraint(
          target.tablename + "." + target.pkname, f.onDelete, f.onUpdate,
          "fk_" + f.owner.value.tablename + "_" + target.tablename + "_" + target.pkname + "_" + name);
        Success(Column(name, toField.columnType, [constraint], f.nullable))
  }

  /** The column carries the given name, the field's nullability and
      actions, the type of the target's primary key and one foreign key to
      that primary key; its constraint name ends in the column name, so two
      columns of the same field never share a constraint name. */
  lemma ColumnForMeaning(f: FkField, target: ModelDef, name: string, name2: string)
    requires ColumnFor(f, target, name).Success? && ColumnFor(f, target, name2).Success?
    ensures var col := ColumnFor(f, target, name).value;
      col.name == name && col.nullable == f.nullable &&
      col.columnType == FieldNamed(target.fields, target.pkname).value.columnType &&
      |col.foreignKeys| == 1 && col.foreignKeys[0].column == target.tablename + "." + target.pkname &&
      col.foreignKeys[0].onDelete == f.onDelete && col.foreignKeys[0].onUpdate == f.onUpdate &&
      col.foreignKeys[0].name == "fk_" + f.owner.value.tablename + "_" + target.tablename + "_" + target.pkname + "_" + name
    ensures name != name2 ==> ColumnFor(f, target, name).value.foreignKeys[0].name != ColumnFor(f, target, name2).value.foreignKeys[0].name
  {
    var prefix := "fk_" + f.owner.value.tablename + "_" + target.tablename + "_" + target.pkname + "_";
    var n1 := ColumnFor(f, target, name).value.foreignKeys[0].name;
    var n2 := ColumnFor(f, target, name2).value.foreignKeys[0].name;
    assert n1 == prefix + name && n2 == prefix + name2;
    if n1 == n2 {
      assert name == n1[|prefix|..] && name2 == n2[|prefix|..];
    }
  }

  /** `check` (foreign_keys.py:134-138): the primary key of the instance. */
  function Check(value: Value): (r: Result<Value, Error>)
    ensures r.Success? <==> value.Obj?
    ensures r.Success? ==> r.value == value.e.pk
    ensures r.Failure? ==> r.error == AttributeError("pk")
  {
    if value.Obj? then Success(value.e.pk) else Failure(AttributeError("pk"))
  }

  /** `expand_relationship` once the target is known (foreign_keys.py:124-132):
      an instance of the target is kept, anything else becomes a target
      instance whose primary key is the value. */
  function Expand(target: ModelDef, value: Value): (r: Value)
    ensures r.Obj? && r.e.model == target.name
  {
    if value.Obj? && value.e.model == target.name then value
    else Obj(Entity(target.name, value, []))
  }

  /** Expanding and then checking gives the key: the value itself when it
      was not yet an instance of the target. Expanding twice is expanding
      once. */
  lemma ExpandCheck(target: ModelDef, value: Value)
    ensures Check(Expand(target, value)) == Success(if value.Obj? && value.e.model == target.name then value.e.pk else value)
    ensures Expand(target, Expand(target, value)) == Expand(target, value)
  {
  }

  /** The objects whose state a field's target depends on. */
  function RegistryObjects(registry: Option<Registry>): set<object>
  {
    if registry.Some? then {registry.value} else {}
  }

  /** The field with its `_target` memo (foreign_keys.py:87-138). */
  class ForeignKeyField {
    const decl: FkField
    var memo: Option<ModelDef>

    constructor (decl: FkField)
      ensures this.decl == decl && memo == None
    {
      this.decl := decl;
      memo := None;
    }

    /** The registry's models as they are now, if the field has a registry. */
    function Models(): Option<Graph>
      reads RegistryObjects(decl.registry)
    {
      if decl.registry.Some? then Some(decl.registry.value.models) else None
    }

    /** What `target` answers in the current state: the memo once set,
        otherwise a fresh lookup in the registry's current models. */
    function Resolved(): Result<ModelDef, Error>
      reads this, RegistryObjects(decl.registry)
    {
      if memo.Some? then Success(memo.value) else TargetOf(decl.to, Models())
    }

    /** The `target` property: resolved on first use and memoised, so later
        changes to the registry do not move it; a failed lookup leaves no
        memo and is tried again on the next call. */
    method Target() returns (r: Result<ModelDef, Error>)
      modifies this`memo
      ensures r == old(Resolved())
      ensures old(memo).Some? ==> r == Success(old(memo).value) && memo == old(memo)
      ensures old(memo).None? ==> r == TargetOf(decl.to, Models())
      ensures memo == if r.Success? then Some(r.value) else None
    {
      if memo.None? {
        var t := TargetOf(decl.to, Models());
        if t.Failure? {
          return t;
        }
        memo := Some(t.value);
      }
      r := Success(memo.value);
    }

    /** `get_column`. */
    method GetColumn(name: string) returns (r: Result<Column, Error>)
      modifies this`memo
      ensures memo == if old(Resolved()).Success? then Some(old(Resolved()).value) else None
      ensures r == match old(Resolved()) case Failure(e) => Failure(e) case Success(t) => ColumnFor(decl, t, name)
    {
      var target := Target();
      if target.Failure? {
        return Failure(target.error);
      }
      r := ColumnFor(decl, target.value, name);
    }

    /** `expand_relationship`. */
    method ExpandRelationship(value: Value) returns (r: Result<Value, Error>)
      modifies this`memo
      ensures memo == if old(Resolved()).Success? then Some(old(Resolved()).value) else None
      ensures r == match old(Resolved()) case Failure(e) => Failure(e) case Success(t) => Success(Expand(t, value))
    {
      var target := Target();
      if target.Failure? {
        return Failure(target.error);
      }
      r := Success(Expand(target.value, value));
    }
  }

  /** A key declared by name before its target model exists: the first
      lookup raises KeyError and memoises nothing; once the model is
      registered the lookup succeeds; a later change to the registry does
      not move the memoised target. */
  method DeclaredBeforeTarget(name: string, target: ModelDef, other: ModelDef, decl: FkField)
    returns (before: Result<ModelDef, Error>, after: Result<ModelDef, Error>, later: Result<ModelDef, Error>)
    requires decl.to == Named(name)
    ensures before == Failure(KeyError(name))
    ensures after == Success(target)
    ensures later == Success(target)
  {
    var registry := new Registry(map[]);
    var field := new ForeignKeyField(decl.(registry := Some(registry)));
    before := field.Target();
    registry.models := registry.models[name := target];
    after := field.Target();
    registry.models := registry.models[name := other];
    later := field.Target();
  }
}
