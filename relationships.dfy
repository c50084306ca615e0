/** The joins `select_related` asks for (base.py:96-178): the foreign-key
    inventory of a model, with its "many foreign keys" flag, and the loops
    that turn each related path into the tables to select and the join
    chain to select them from. */
module Relationships {
  import opened Values
  import opened Schema
  import opened Lookups
  import opened Expressions

  /** `(name, target name, related_name)` of a foreign-key field. */
  datatype FkKey = FkKey(field: string, to: string, relatedName: Option<string>)

  function KeyOf(f: Field): FkKey
    requires f.kind.ForeignKey?
  {
    FkKey(f.name, f.kind.to, f.kind.relatedName)
  }

  /** The key tuples of a model's foreign-key fields, in field order. Defined
      from the end, so that extending the fields by one is one unfolding. */
  function FkKeys(fields: seq<Field>): (keys: seq<FkKey>)
    ensures |keys| <= |fields|
  {
    if fields == [] then []
    else
      var last := fields[|fields| - 1];
      var init := FkKeys(fields[..|fields| - 1]);
      if last.kind.ForeignKey? then init + [KeyOf(last)] else init
  }

  /** The flag of `is_multiple_foreign_key`: the loop tests `counter > 1`
      before it counts the current field, so the flag is set exactly when
      two foreign keys precede the last field, whatever their targets. */
  predicate HasMany(fields: seq<Field>)
  {
    |fields| > 0 && |FkKeys(fields[..|fields| - 1])| >= 2
  }

  /** `is_multiple_foreign_key` (base.py:96-127). The test `tablename not in
      foreign_keys` compares a name with a list of tuples, so it never finds
      it and every foreign key is appended. */
  method IsMultipleForeignKey(m: ModelDef) returns (hasMany: bool, keys: seq<FkKey>)
    ensures hasMany == HasMany(m.fields)
    ensures keys == FkKeys(m.fields)
  {
    var fields := m.fields;
    keys := [];
    hasMany := false;
    var counter := 0;
    var i := 0;
    while i < |fields|
      invariant 0 <= i <= |fields|
      invariant keys == FkKeys(fields[..i])
      invariant counter == |keys|
      invariant hasMany == (i > 0 && |FkKeys(fields[..i - 1])| >= 2)
    {
      assert fields[..i + 1][..i] == fields[..i];
      if i > 0 {
        assert fields[..i][..i - 1] == fields[..i - 1];
      }
      if counter > 1 {
        hasMany := true;
      }
      var field := fields[i];
      if field.kind.ForeignKey? {
        var tablename := field.kind.to;
        keys := keys + [FkKey(field.name, tablename, field.kind.relatedName)];
        counter := counter + 1;
      }
      i := i + 1;
    }
    assert fields[..i] == fields;
  }

  lemma {:induction false} FkKeysAppend(a: seq<Field>, b: seq<Field>)
    ensures FkKeys(a + b) == FkKeys(a) + FkKeys(b)
    decreases |b|
  {
    if b == [] {
      assert a + b == a;
    } else {
      var n := |b| - 1;
      assert (a + b)[..|a + b| - 1] == a + b[..n];
      assert (a + b)[|a + b| - 1] == b[n];
      FkKeysAppend(a, b[..n]);
    }
  }

  /** The inventory lists exactly the foreign-key fields, each once, in
      field order. */
  lemma {:induction false} FkKeysExactly(fields: seq<Field>)
    ensures |FkKeys(fields)| == |FkFieldsOf(fields)|
    ensures forall i :: 0 <= i < |FkKeys(fields)| ==> FkKeys(fields)[i] == KeyOf(FkFieldsOf(fields)[i])
  {
    if fields != [] {
      var n := |fields| - 1;
      FkKeysExactly(fields[..n]);
      FkFieldsOfAppend(fields[..n], [fields[n]]);
      assert fields[..n] + [fields[n]] == fields;
    }
  }

  /** The foreign-key fields, filtered from the front: the reference
      `FkKeys` is checked against. */
  function FkFieldsOf(fields: seq<Field>): (r: seq<Field>)
    ensures forall f :: f in r ==> f in fields && f.kind.ForeignKey?
  {
    if fields == [] then []
    else if fields[0].kind.ForeignKey? then [fields[0]] + FkFieldsOf(fields[1..])
    else FkFieldsOf(fields[1..])
  }

  lemma {:induction false} FkFieldsOfAppend(a: seq<Field>, b: seq<Field>)
    ensures FkFieldsOf(a + b) == FkFieldsOf(a) + FkFieldsOf(b)
  {
    if a == [] {
      assert a + b == b;
    } else {
      assert (a + b)[1..] == a[1..] + b;
      FkFieldsOfAppend(a[1..], b);
    }
  }

  /** Two foreign keys to different models ahead of the last field set the
      flag: it does not look at the targets, despite the name. */
  lemma HasManyIgnoresTargets()
    ensures var fields := [Field("a", ForeignKey("User", None), ""),
                           Field("b", ForeignKey("Team", None), ""),
                           Field("c", OtherField, "")];
      HasMany(fields)
  {
    var fields := [Field("a", ForeignKey("User", None), ""),
                   Field("b", ForeignKey("Team", None), ""),
                   Field("c", OtherField, "")];
    assert fields[..2][..1][..0] == [];
    assert |FkKeys(fields[..2])| == 2;
  }

  /** Two foreign keys to the same model where the second is the last field
      leave the flag unset. */
  lemma HasManyMissesLastField()
    ensures var fields := [Field("a", ForeignKey("User", None), ""),
                           Field("b", ForeignKey("User", None), "")];
      !HasMany(fields)
  {
    var fields := [Field("a", ForeignKey("User", None), ""),
                   Field("b", ForeignKey("User", None), "")];
    assert fields[..1][..0] == [];
  }

  /** The field of the first key whose related name is `part` (base.py:160-168). */
  function LookupField(keys: seq<FkKey>, part: string): Option<string>
  {
    if keys == [] then None
    else if keys[0].relatedName == Some(part) then Some(keys[0].field)
    else LookupField(keys[1..], part)
  }

  /** The lookup field is None exactly when no key carries the related
      name, and otherwise the field of the first key that does. */
  lemma {:induction false} LookupFieldMeaning(keys: seq<FkKey>, part: string)
    ensures LookupField(keys, part).None? <==> forall i :: 0 <= i < |keys| ==> keys[i].relatedName != Some(part)
    ensures LookupField(keys, part).Some? ==>
      exists i :: 0 <= i < |keys| && keys[i].relatedName == Some(part) && keys[i].field == LookupField(keys, part).value &&
        forall j :: 0 <= j < i ==> keys[j].relatedName != Some(part)
  {
    if keys != [] && keys[0].relatedName != Some(part) {
      LookupFieldMeaning(keys[1..], part);
      if LookupField(keys[1..], part).Some? {
        var i :| 0 <= i < |keys[1..]| && keys[1..][i].relatedName == Some(part) && keys[1..][i].field == LookupField(keys, part).value &&
                 forall j :: 0 <= j < i ==> keys[1..][j].relatedName != Some(part);
        assert keys[i + 1] == keys[1..][i];
        assert forall j :: 0 <= j < i + 1 ==> keys[j].relatedName != Some(part) by {
          forall j | 0 <= j < i + 1 ensures keys[j].relatedName != Some(part) {
            if j > 0 {
              assert keys[j] == keys[1..][j - 1];
            }
          }
        }
      } else {
        forall i | 0 <= i < |keys| ensures keys[i].relatedName != Some(part) {
          if i > 0 {
            assert keys[i] == keys[1..][i - 1];
          }
        }
      }
    }
  }

  /** The search loop with its `break`. */
  method FindLookupField(keys: seq<FkKey>, part: string) returns (lookupField: Option<string>)
    ensures lookupField == LookupField(keys, part)
  {
    lookupField := None;
    var i := 0;
    while i < |keys|
      invariant 0 <= i <= |keys|
      invariant LookupField(keys, part) == LookupField(keys[i..], part)
    {
      var key := keys[i];
      assert keys[i..][1..] == keys[i + 1..];
      if key.relatedName == Some(part) {
        lookupField := Some(key.field);
        return;
      }
      i := i + 1;
    }
  }

  /** What the loops carry: the model reached, the tables so far, the join
      chain, and the flag and keys of the last reverse step. */
  datatype Joins = Joins(model: ModelDef, tables: seq<string>, from: From, hasMany: bool, keys: seq<FkKey>)

  /** One path segment (base.py:147-176): follow the forward field, or on
      KeyError the reverse accessor, which also re-reads the flag and keys
      of the model reached; then join its table, on the disambiguating
      column when the flag is set. */
  function PartStep(graph: Graph, w: Joins, part: string): Result<Joins, Error>
  {
    var next: Result<(ModelDef, bool, seq<FkKey>), Error> :=
      match FieldTarget(graph, w.model, part)
      case Success(t) => Success((t, w.hasMany, w.keys))
      case Failure(KeyError(_)) =>
        (match ReverseFrom(graph, w.model, part)
         case Success(t) => Success((t, HasMany(t.fields), FkKeys(t.fields)))
         case Failure(e) => Failure(e))
      case Failure(e) => Failure(e);
    match next
    case Failure(e) => Failure(e)
    case Success((t, hasMany, keys)) =>
      var table := t.tablename;
      if !hasMany then
        Success(Joins(t, w.tables + [table], Join(w.from, table, None), hasMany, keys))
      else match LookupField(keys, part)
        case None => Failure(TypeError)
        case Some(field) =>
          if field in t.columns then
            Success(Joins(t, w.tables + [table], Join(w.from, table, Some(OnClause("id", ColumnRef(table, field)))), hasMany, keys))
          else Failure(AttributeError(field))
  }

  /** What one segment does: the model walked to, its table appended, a
      join onto the chain; a reverse step re-reads the flag and keys; the
      join is on the lookup column exactly when the flag is set; a failed
      walk keeps its error, and a failed join raises TypeError or
      AttributeError. */
  lemma PartStepMeaning(graph: Graph, w: Joins, part: string)
    ensures var r := PartStep(graph, w, part);
      r.Success? ==>
        WalkStep(graph, w.model, part) == Success(r.value.model) &&
        r.value.tables == w.tables + [r.value.model.tablename] &&
        r.value.from.Join? && r.value.from.left == w.from && r.value.from.right == r.value.model.tablename &&
        (FieldTarget(graph, w.model, part).Success? ==> r.value.hasMany == w.hasMany && r.value.keys == w.keys) &&
        (FieldTarget(graph, w.model, part).Failure? ==>
          r.value.hasMany == HasMany(r.value.model.fields) && r.value.keys == FkKeys(r.value.model.fields)) &&
        (r.value.from.on.None? <==> !r.value.hasMany) &&
        (r.value.hasMany ==>
          LookupField(r.value.keys, part).Some? &&
          r.value.from.on == Some(OnClause("id", ColumnRef(r.value.model.tablename, LookupField(r.value.keys, part).value))))
    ensures var r := PartStep(graph, w, part);
      r.Failure? ==>
        (WalkStep(graph, w.model, part).Failure? ==> r.error == WalkStep(graph, w.model, part).error) &&
        (WalkStep(graph, w.model, part).Success? ==> r.error == TypeError || r.error.AttributeError?)
  {
  }

  /** The segments of one related path, in order. */
  function Parts(graph: Graph, w: Joins, parts: seq<string>): Result<Joins, Error>
    decreases |parts|
  {
    if parts == [] then Success(w)
    else match PartStep(graph, w, parts[0])
      case Failure(e) => Failure(e)
      case Success(w2) => Parts(graph, w2, parts[1..])
  }

  /** Each `select_related` entry starts again from the root model and
      table; the tables, the flag and the keys carry over. */
  function StartItem(root: ModelDef, w: Joins): Joins
  {
    w.(model := root, from := Table(root.tablename))
  }

  function Items(graph: Graph, root: ModelDef, w: Joins, items: seq<string>): Result<Joins, Error>
    decreases |items|
  {
    if items == [] then Success(w)
    else match Parts(graph, StartItem(root, w), Split(items[0]))
      case Failure(e) => Failure(e)
      case Success(w2) => Items(graph, root, w2, items[1..])
  }

  function Start(root: ModelDef): Joins
  {
    Joins(root, [root.tablename], Table(root.tablename), false, [])
  }

  /** `build_tables_select_from_relationship` as a function of the root
      model and the `select_related` entries. */
  function TablesSelectFrom(graph: Graph, root: ModelDef, items: seq<string>): Result<(seq<string>, From), Error>
  {
    match Items(graph, root, Start(root), items)
    case Failure(e) => Failure(e)
    case Success(w) => Success((w.tables, w.from))
  }

  /** One pass of the inner loop of `build_tables_select_from_relationship`
      (base.py:146-176), on the loop's variables. */
  method JoinPart(graph: Graph, model: ModelDef, tables: seq<string>, selectFrom: From, hasMany: bool, keys: seq<FkKey>, part: string)
    returns (r: Result<Joins, Error>)
    ensures r == PartStep(graph, Joins(model, tables, selectFrom, hasMany, keys), part)
  {
    var next := model;
    var many, nextKeys := hasMany, keys;
    var target := FieldTarget(graph, model, part);
    if target.Success? {
      next := target.value;
    } else if target.error.KeyError? {
      var back := ReverseFrom(graph, model, part);
      if back.Failure? {
        return Failure(back.error);
      }
      next := back.value;
      many, nextKeys := IsMultipleForeignKey(next);
    } else {
      return Failure(target.error);
    }
    var table := next.tablename;
    if !many {
      return Success(Joins(next, tables + [table], Join(selectFrom, table, None), many, nextKeys));
    }
    var lookupField := FindLookupField(nextKeys, part);
    if lookupField.None? {
      return Failure(TypeError);
    }
    if lookupField.value !in next.columns {
      return Failure(AttributeError(lookupField.value));
    }
    return Success(Joins(next, tables + [table], Join(selectFrom, table, Some(OnClause("id", ColumnRef(table, lookupField.value)))), many, nextKeys));
  }

  /** The inner loop of `build_tables_select_from_relationship`
      (base.py:146-176): the segments of one entry, in order. */
  method JoinPath(graph: Graph, model: ModelDef, tables: seq<string>, selectFrom: From, hasMany: bool, keys: seq<FkKey>, parts: seq<string>)
    returns (r: Result<Joins, Error>)
    ensures r == Parts(graph, Joins(model, tables, selectFrom, hasMany, keys), parts)
  {
    var w := Joins(model, tables, selectFrom, hasMany, keys);
    var j := 0;
    while j < |parts|
      invariant 0 <= j <= |parts|
      invariant Parts(graph, w, parts[j..]) == Parts(graph, Joins(model, tables, selectFrom, hasMany, keys), parts)
    {
      assert parts[j..][0] == parts[j] && parts[j..][1..] == parts[j + 1..];
      var step := JoinPart(graph, w.model, w.tables, w.from, w.hasMany, w.keys, parts[j]);
      if step.Failure? {
        return Failure(step.error);
      }
      w := step.value;
      j := j + 1;
    }
    return Success(w);
  }

  /** One entry of `select_related`, joined from the root. */
  lemma ItemsCons(graph: Graph, root: ModelDef, w: Joins, items: seq<string>)
    requires items != []
    ensures var p := Parts(graph, Joins(root, w.tables, Table(root.tablename), w.hasMany, w.keys), Split(items[0]));
      Items(graph, root, w, items) == if p.Failure? then Failure(p.error) else Items(graph, root, p.value, items[1..])
  {
    assert StartItem(root, w) == Joins(root, w.tables, Table(root.tablename), w.hasMany, w.keys);
  }

  /** `build_tables_select_from_relationship` (base.py:129-178). */
  method BuildTablesSelectFrom(graph: Graph, root: ModelDef, selectRelated: seq<string>) returns (r: Result<(seq<string>, From), Error>)
    ensures r == TablesSelectFrom(graph, root, selectRelated)
  {
    var w := Start(root);
    ghost var goal := Items(graph, root, w, selectRelated);
    var i := 0;
    while i < |selectRelated|
      invariant 0 <= i <= |selectRelated|
      invariant Items(graph, root, w, selectRelated[i..]) == goal
    {
      ItemsCons(graph, root, w, selectRelated[i..]);
      assert selectRelated[i..][0] == selectRelated[i] && selectRelated[i..][1..] == selectRelated[i + 1..];
      var path := JoinPath(graph, root, w.tables, Table(root.tablename), w.hasMany, w.keys, Split(selectRelated[i]));
      if path.Failure? {
        return Failure(path.error);
      }
      w := path.value;
      i := i + 1;
    }
    assert selectRelated[i..] == [];
    return Success((w.tables, w.from));
  }

  /** The number of path segments over all entries. */
  function TotalParts(items: seq<string>): nat
  {
    if items == [] then 0 else |Split(items[0])| + TotalParts(items[1..])
  }

  /** A path adds one table per segment, after the earlier ones, the last
      being the table of the model reached. */
  lemma {:induction false} PartsTables(graph: Graph, w: Joins, parts: seq<string>)
    requires Parts(graph, w, parts).Success?
    ensures var r := Parts(graph, w, parts).value;
      |r.tables| == |w.tables| + |parts| && r.tables[..|w.tables|] == w.tables
    ensures parts != [] ==> var r := Parts(graph, w, parts).value;
      |r.tables| > 0 && r.tables[|r.tables| - 1] == r.model.tablename
    decreases |parts|
  {
    if parts != [] {
      var w2 := PartStep(graph, w, parts[0]).value;
      PartStepMeaning(graph, w, parts[0]);
      PartsTables(graph, w2, parts[1..]);
      var r := Parts(graph, w, parts).value;
      assert r.tables[..|w.tables|] == r.tables[..|w2.tables|][..|w.tables|];
      if parts[1..] == [] {
        assert r == w2;
      }
    }
  }

  /** A path adds one join per segment onto the chain it starts from. */
  lemma {:induction false} PartsChain(graph: Graph, w: Joins, parts: seq<string>)
    requires Parts(graph, w, parts).Success?
    ensures var r := Parts(graph, w, parts).value;
      Depth(r.from) == Depth(w.from) + |parts| && RootTable(r.from) == RootTable(w.from)
    decreases |parts|
  {
    if parts != [] {
      PartStepMeaning(graph, w, parts[0]);
      PartsChain(graph, PartStep(graph, w, parts[0]).value, parts[1..]);
    }
  }

  /** A path reaches the model the filter walk reaches along the same
      segments. */
  lemma {:induction false} PartsWalk(graph: Graph, w: Joins, parts: seq<string>)
    requires Parts(graph, w, parts).Success?
    ensures Walk(graph, w.model, parts) == Success(Parts(graph, w, parts).value.model)
    decreases |parts|
  {
    if parts != [] {
      PartStepMeaning(graph, w, parts[0]);
      PartsWalk(graph, PartStep(graph, w, parts[0]).value, parts[1..]);
    }
  }

  /** The entries add their segments' tables in order. */
  lemma {:induction false} ItemsTables(graph: Graph, root: ModelDef, w: Joins, items: seq<string>)
    requires Items(graph, root, w, items).Success?
    ensures var r := Items(graph, root, w, items).value;
      |r.tables| == |w.tables| + TotalParts(items) && r.tables[..|w.tables|] == w.tables
    decreases |items|
  {
    if items != [] {
      var w2 := Parts(graph, StartItem(root, w), Split(items[0])).value;
      PartsTables(graph, StartItem(root, w), Split(items[0]));
      assert Items(graph, root, w, items) == Items(graph, root, w2, items[1..]);
      ItemsTables(graph, root, w2, items[1..]);
      var r := Items(graph, root, w, items).value;
      assert r.tables[..|w.tables|] == r.tables[..|w2.tables|][..|w.tables|];
    }
  }

  /** One entry, joined from the root: a chain as deep as its segments,
      rooted at the root table, ending on the model it walks to. */
  lemma PartsFromRoot(graph: Graph, root: ModelDef, w: Joins, parts: seq<string>)
    requires parts != [] && Parts(graph, StartItem(root, w), parts).Success?
    ensures var r := Parts(graph, StartItem(root, w), parts).value;
      Depth(r.from) == |parts| && RootTable(r.from) == root.tablename &&
      Walk(graph, root, parts) == Success(r.model) &&
      |r.tables| > 0 && r.tables[|r.tables| - 1] == r.model.tablename
  {
    PartsTables(graph, StartItem(root, w), parts);
    PartsChain(graph, StartItem(root, w), parts);
    PartsWalk(graph, StartItem(root, w), parts);
  }

  /** The join chain is the last entry's alone, rooted at the root table,
      and ends on the model that entry walks to. */
  lemma {:induction false} ItemsLast(graph: Graph, root: ModelDef, w: Joins, items: seq<string>)
    requires Items(graph, root, w, items).Success? && items != []
    ensures var r := Items(graph, root, w, items).value;
      Depth(r.from) == |Split(items[|items| - 1])| && RootTable(r.from) == root.tablename &&
      Walk(graph, root, Split(items[|items| - 1])) == Success(r.model) &&
      |r.tables| > 0 && r.tables[|r.tables| - 1] == r.model.tablename
    decreases |items|
  {
    var w2 := Parts(graph, StartItem(root, w), Split(items[0])).value;
    assert Items(graph, root, w, items) == Items(graph, root, w2, items[1..]);
    if items[1..] == [] {
      PartsFromRoot(graph, root, w, Split(items[0]));
    } else {
      ItemsLast(graph, root, w2, items[1..]);
      assert items[1..][|items[1..]| - 1] == items[|items| - 1];
    }
  }

  /** What `build_tables_select_from_relationship` returns: the root table
      followed by one table per segment of every entry, without
      de-duplication, and a join chain that covers only the last entry (the
      bare root table when there is none). */
  lemma TablesSelectFromShape(graph: Graph, root: ModelDef, items: seq<string>)
    requires TablesSelectFrom(graph, root, items).Success?
    ensures var (tables, from) := TablesSelectFrom(graph, root, items).value;
      |tables| == 1 + TotalParts(items) && tables[0] == root.tablename &&
      (items == [] ==> from == Table(root.tablename)) &&
      (items != [] ==> Depth(from) == |Split(items[|items| - 1])| && RootTable(from) == root.tablename &&
                       Walk(graph, root, Split(items[|items| - 1])).Success? && tables[|tables| - 1] == Walk(graph, root, Split(items[|items| - 1])).value.tablename)
  {
    ItemsTables(graph, root, Start(root), items);
    if items != [] {
      ItemsLast(graph, root, Start(root), items);
    }
  }
}
