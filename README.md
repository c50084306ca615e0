# Edgy query-set builder, modelled in Dafny

This project models the query-set builder of the edgy ORM
(`edgy/core/db/querysets/base.py`) and the foreign-key field descriptor it
walks (`edgy/core/db/fields/foreign_keys.py`), and proves properties of the
model.

A query set holds a model and, among other state, a list of filter clauses,
a list of related paths to join, a limit, an offset, orderings, groupings and
distinct columns. Chain calls (`filter`, `exclude`, `order_by`, `limit`,
`select_related`, ...) clone it and change the clone. `build_select` turns
the state into one SELECT. Terminal calls (`get`, `all`, `first`, ...) issue
that select and read the rows the database returns.

Everything the builder decides happens before SQL runs. That is what the
model covers:

- **Filter keywords.** A key such as `author__name__icontains` is parsed
  into a relationship path, a field and an operator. The path is walked
  through the model graph to find the column. The operator becomes a
  comparison clause, with `%`/`_` escaping and `%...%` wrapping for
  `contains`/`icontains`.
- **Joins.** Implied and explicit related paths become a list of tables and
  a join chain. Joins into a model with several foreign keys are
  disambiguated by related name.
- **Select assembly.** The clauses, orderings, groupings, limit and offset
  become a select.
- **Terminal calls.** The fetched rows are sorted into not-found, one or
  many.
- **Foreign keys.** A declaration is validated and built with its defaults.
  Its target is resolved and memoised, its column is built, and values are
  expanded to instances.

SQLAlchemy objects become datatypes: `Clause`, `From`, `Select` and `Expr`
in `Expressions`.

The model graph (`registry.models`), the `settings` values
(`filter_operators`, `default_related_lookup_field`), the `CASCADE`,
`RESTRICT` and `SET_NULL` constants, and the database are parameters. The
database is modelled as the rows it returns for a statement, plus the value
it returns for an EXISTS statement.

Layout, one module per file:

| file | module | what |
|---|---|---|
| `values.dfy` | `Values` | errors, `Result`/`Option`, keyword values and instances, Python dictionaries as ordered pairs |
| `schema.dfy` | `Schema` | the model graph, field targets, reverse accessors, path walking |
| `lookups.dfy` | `Lookups` | `"__"` splitting and joining, filter-key parsing, wildcard escaping |
| `like.dfy` | `Like` | SQL `LIKE` matching, the meaning the escaping is proved against |
| `expressions.dfy` | `Expressions` | clause and select datatypes, `prepare_*`, `build_*` helpers |
| `relationships.dfy` | `Relationships` | `is_multiple_foreign_key`, `build_tables_select_from_relationship` |
| `filters.dfy` | `Filters` | `filter_query`'s keyword loop |
| `querystate.dfy` | `QueryState` | query-set state and the function specifying each operation |
| `querysets.dfy` | `QuerySets` | the `QuerySet` class, each method proved against `QueryState` |
| `foreignkeys.dfy` | `ForeignKeys` | `ForeignKey`, its factory, the live `Registry` and the memoising `ForeignKeyField` class |

Stateful code is modelled imperatively:

- `QuerySets.QuerySet` is a class with the query set's attributes as fields.
- `clone` and the chain methods return fresh objects.
- `filter_query` appends to the receiver's own clause list
  (`modifies this`filterClauses`).
- `build_select` and the terminal calls record their statement in
  `expression`.
- Loops stay loops, proved against folds:
  - the keyword loop, the relationship walk, the join loops and the
    foreign-key inventory;
  - `bulk_update`'s row building.
- The `target` of `ForeignKeys.ForeignKeyField` is memoised in a field of
  the object, and the registry it looks names up in is an object of its
  own whose model map can change between calls.

Behaviour of the code that the model keeps as written:

- `lookup`, documented as a "broader way of searching for a given term"
  (base.py:407-410), builds its search clauses into a local list that is
  never attached (base.py:415-430), so `lookup("zzz").first()` is not
  narrowed. See Findings.
- `filter_query` appends to its receiver's clause list (base.py:215, 288-291),
  and `build_select`, `get`, `get_or_none`, `all` and `exists` set the
  receiver's expression. Every other chain method works on a clone.
- `build_tables_select_from_relationship` (base.py:129-178) lists one table
  per path segment with no de-duplication. It restarts the join chain for
  each `select_related` entry, so only the last entry's chain is returned.
- `first` and `last`, documented as returning the first and last record
  (base.py:569-571), order by the literal column `id`. `last` sets no
  limit. With keywords, both go through `get` and raise ObjectNotFound
  rather than returning None.
- `is_multiple_foreign_key`, documented as checking for "multiple FKs to
  the same destination table" (base.py:99-105), counts every foreign key
  ahead of the last field, whatever its target: the test
  `tablename not in foreign_keys` compares a name with tuples.
- A path that cannot be resolved raises KeyError or AttributeError, and an
  undisambiguated join raises TypeError, depending on where resolution
  fails (base.py:146-176, 244-266).

## Model

| member | source | states |
|---|---|---|
| Values.GetSet | edgy/core/db/querysets/base.py:218-220 | after `d[k] = v`, `k` reads `v` and every other key reads as before |
| Values.KeysSet | edgy/core/db/querysets/base.py:218-220 | assignment adds exactly `k` to the keys and keeps keys unique |
| Values.GetPop | edgy/core/db/querysets/base.py:220 | after `d.pop(k)`, `k` is absent and every other key reads as before |
| Values.GetUpdate | edgy/core/db/querysets/base.py:677 | after `d.update(other)`, a key of `other` reads its value in `other`, any other key its value in `d` |
| Values.KeysUpdate | edgy/core/db/querysets/base.py:677 | `update` keeps keys unique and its keys are the union |
| Lookups.SplitHasSep | edgy/core/db/querysets/base.py:222-223 | `"__" in key` exactly when splitting on `"__"` gives two or more parts |
| Lookups.JoinSplit | edgy/core/db/querysets/base.py:223-239 | joining the split parts with `"__"` gives the key back |
| Lookups.ParseKey | edgy/core/db/querysets/base.py:222-236 | a key without `"__"` is `exact` on the whole key; otherwise path, field and operator are exactly the `split("__")` segments in order when the last one is a known operator, and path and field are the segments with operator `exact` when it is not; either way they join back to the key |
| Lookups.PrefixEachAppend | edgy/core/db/querysets/base.py:276-277 | `str.replace(c, "\\" + c)` distributes over concatenation |
| Lookups.EscapeWildcardsIsEscapeEach | edgy/core/db/querysets/base.py:276-277 | replacing `%` then `_` is the same as escaping each wildcard character in one pass |
| Lookups.UnescapeEscape | edgy/core/db/querysets/base.py:276-277 | the escaping is undone by dropping the backslash before each wildcard |
| Lookups.UnescapeEscapeEach | edgy/core/db/querysets/base.py:276-277 | the same for the one-pass escaping |
| Lookups.ContainsPattern | edgy/core/db/querysets/base.py:271-281 | the escape modifier is set exactly when the value holds `%` or `_`; the pattern is the value, escaped when needed, between `%`s, and unescapes back to the value |
| Like.LeadingPercent | edgy/core/db/querysets/base.py:279 | a pattern starting with `%` matches exactly when the rest matches from some position |
| Like.PercentMatchesAll | edgy/core/db/querysets/base.py:279 | a trailing `%` matches every rest of the string |
| Like.PlainLiteral | edgy/core/db/querysets/base.py:279 | without escaping, a wildcard-free value matches only itself as a prefix |
| Like.EscapedLiteral | edgy/core/db/querysets/base.py:273-279 | with escape `\`, an escaped backslash-free value matches only itself as a prefix |
| Like.ContainsPatternMeaning | edgy/core/db/querysets/base.py:271-285 | for a value with no backslash among its wildcards, the compiled `contains` pattern matches a string exactly when the value is a substring of it |
| Like.ContainsPatternCounterexample | edgy/core/db/querysets/base.py:273-279 | the value `a\_` gives a pattern that matches `a\b`, which does not contain it |
| Like.EscapeAllNoBackslash | edgy/core/db/querysets/base.py:276-277 | escaping `\`, `%` and `_` agrees with the source's escaping on values without a backslash |
| Like.EscapeAllLiteral | edgy/core/db/querysets/base.py:273-279 | with escape `\`, any value escaped that way matches only itself as a prefix |
| Like.ContainsPatternFixed | edgy/core/db/querysets/base.py:271-281 | the corrected escaping sets the modifier exactly when the value holds `\`, `%` or `_` |
| Like.ContainsPatternFixedMeaning | edgy/core/db/querysets/base.py:271-285 | with the correction, the pattern matches exactly the strings containing the value, for every value |
| Schema.FieldNamed | edgy/core/db/querysets/base.py:148 | a found field is one of the model's fields and carries the name asked for |
| Schema.FieldNamedMissing | edgy/core/db/querysets/base.py:148 | the lookup gives None exactly when no field has the name |
| Schema.FieldTarget | edgy/core/db/querysets/base.py:148 | succeeds exactly for a foreign-key field whose target the registry holds; a missing field raises KeyError |
| Schema.ReverseFrom | edgy/core/db/querysets/base.py:151 | the model declaring the reverse accessor, or AttributeError |
| Schema.ReverseTo | edgy/core/db/querysets/base.py:261 | the model the reverse accessor points to, or AttributeError |
| Schema.WalkStep | edgy/core/db/querysets/base.py:147-151 | the forward target, or the reverse accessor's model exactly when the forward lookup raised KeyError |
| Schema.WalkAppend | edgy/core/db/querysets/base.py:146-151 | walking a path is walking a prefix and then the rest |
| Expressions.LStrip | edgy/core/db/querysets/base.py:309 | `lstrip`: a suffix of the input, not starting with the character, preceded only by it |
| Expressions.PrepareOrderBy | edgy/core/db/querysets/base.py:307-311 | succeeds exactly when the stripped name is a column; KeyError of it otherwise; descending exactly when the name starts with `-` |
| Expressions.PrepareGroupBy | edgy/core/db/querysets/base.py:313-316 | the stripped name's column, or KeyError |
| Expressions.PrepareDistinct | edgy/core/db/querysets/base.py:318-320 | the name's column when it is one, otherwise KeyError with the name |
| Expressions.MapAll | edgy/core/db/querysets/base.py:71 | `list(map(f, xs))`: every result when none raises, else the first error in order |
| Expressions.WhereOf | edgy/core/db/querysets/base.py:81-88 | no clause: no WHERE; one clause: itself; more: their conjunction (also lines 188-191) |
| Expressions.IfTruthy | edgy/core/db/querysets/base.py:196-200 | a limit or offset is applied exactly when it is set and non-zero |
| Expressions.AssembleSelect | edgy/core/db/querysets/base.py:184-209 | succeeds exactly when every ordering, grouping and distinct name is a column; the select carries the tables, the join, the WHERE, the truthy limit/offset and one column per stored name |
| Relationships.FkKeys | edgy/core/db/querysets/base.py:112-125 | at most one key per field |
| Relationships.FkKeysAppend | edgy/core/db/querysets/base.py:112-125 | the inventory of concatenated field lists is the concatenation of inventories |
| Relationships.FkKeysExactly | edgy/core/db/querysets/base.py:118-125 | the inventory lists `(name, target, related name)` of exactly the foreign-key fields, in field order |
| Relationships.FkFieldsOf | edgy/core/db/querysets/base.py:118 | the reference selection holds only foreign-key fields of the model |
| Relationships.FkFieldsOfAppend | edgy/core/db/querysets/base.py:118 | the reference selection distributes over concatenation |
| Relationships.IsMultipleForeignKey | edgy/core/db/querysets/base.py:96-127 | the loop returns the flag "two foreign keys before the last field" and the full inventory |
| Relationships.HasManyIgnoresTargets | edgy/core/db/querysets/base.py:110-125 | two keys to different models ahead of a third field set the flag |
| Relationships.HasManyMissesLastField | edgy/core/db/querysets/base.py:112-116 | two keys to the same model, the second being the last field, leave it unset |
| Relationships.LookupFieldMeaning | edgy/core/db/querysets/base.py:160-168 | the field of the first key whose related name is the segment, None exactly when there is none |
| Relationships.FindLookupField | edgy/core/db/querysets/base.py:160-168 | the search loop with `break` returns that first match |
| Relationships.PartStepMeaning | edgy/core/db/querysets/base.py:146-176 | one segment: the model walked to, its table appended, a join onto the chain; a reverse step recomputes the multiple-FK flag; the join has an `id = lookup field` condition exactly when the flag is set; TypeError when no key matches, AttributeError when the lookup field is no column |
| Relationships.JoinPart | edgy/core/db/querysets/base.py:146-176 | one pass of the inner loop body computes `PartStep` on the current join state |
| Relationships.JoinPath | edgy/core/db/querysets/base.py:146-176 | the inner loop over the `__` segments computes `Parts` from the state it starts in |
| Relationships.BuildTablesSelectFrom | edgy/core/db/querysets/base.py:129-178 | the nested loops compute `TablesSelectFrom` |
| Relationships.PartsTables | edgy/core/db/querysets/base.py:146-176 | a path adds one table per segment after the earlier ones, the last being the table of the model reached |
| Relationships.PartsChain | edgy/core/db/querysets/base.py:146-176 | a path adds one join per segment onto the chain it starts from |
| Relationships.PartsWalk | edgy/core/db/querysets/base.py:146-151 | the joins reach the model the filter's relationship walk reaches along the same segments (also lines 244-252) |
| Relationships.ItemsTables | edgy/core/db/querysets/base.py:141-176 | tables accumulate over the entries, one per segment, keeping the earlier ones |
| Relationships.ItemsLast | edgy/core/db/querysets/base.py:141-176 | the chain restarts at the root for each entry, so the final chain is the last entry's, as deep as its segments, ending on the model it walks to |
| Relationships.TablesSelectFromShape | edgy/core/db/querysets/base.py:136-178 | the root table then one table per segment of every entry, no de-duplication; the chain covers only the last entry, from the root, as deep as its segments |
| Filters.PkRewriteMeaning | edgy/core/db/querysets/base.py:218-220 | a truthy `pk` is moved to the primary-key name; otherwise the keywords are unchanged |
| Filters.Comparison | edgy/core/db/querysets/base.py:268-287 | KeyError for an unknown operator; `contains`/`icontains` take the escaped, wrapped pattern and its modifier, and need a string; every other operator compares the value, or an instance's pk, unescaped |
| Filters.Column | edgy/core/db/querysets/base.py:222-266 | with `"__"`: the field's column on the model the path reaches, or KeyError; without: a root column as `exact`, else the default lookup field of the reverse accessor's target, else KeyError with the quoted key |
| Filters.ResolveColumn | edgy/core/db/querysets/base.py:244-266 | the walk loop computes `Column` |
| Filters.CompileKeyword | edgy/core/db/querysets/base.py:222-287 | one keyword's clause and the related paths with its implied path added once |
| Filters.CompileKeywords | edgy/core/db/querysets/base.py:222-287 | the loop over the keywords computes `CompileAll`: the first keyword that raises ends it, otherwise one clause per keyword in order |
| Filters.CompileAllShape | edgy/core/db/querysets/base.py:216-287 | one clause per keyword, in order; the related paths keep their prefix, gain each implied path once, and only implied ones |
| Filters.CompileAllAgain | edgy/core/db/querysets/base.py:238-242 | compiling again over paths that already hold the implied ones adds none |
| Filters.FilterTwiceSamePaths | edgy/core/db/querysets/base.py:238-242 | filtering twice through the same paths leaves the related paths as after the first filter |
| Filters.FilterAddsClauses | edgy/core/db/querysets/base.py:289-292 | `exclude` adds exactly one `Not(And(clauses))`; a filter adds one clause per keyword |
| Filters.FilterRelatedPaths | edgy/core/db/querysets/base.py:238-242 | the related paths extend the old ones and hold no duplicates when the old ones held none (also line 216) |
| Filters.ZeroPkRaises | edgy/core/db/querysets/base.py:218-266 | `pk=0` is not rewritten and, on a model with no `pk` column or accessor, raises KeyError `'pk'` |
| Filters.TruthyPkCompares | edgy/core/db/querysets/base.py:218-292 | a truthy, non-instance `pk` adds one `exact` comparison on the primary-key column |
| QueryState.Init | edgy/core/db/querysets/base.py:41-67 | expression and cache start empty; a many-to-many model without a truthy related name takes its first related name |
| QueryState.DeepCopy | edgy/core/db/querysets/base.py:715-723 | the copy equals the original except for an empty cache |
| QueryState.FilterSpec | edgy/core/db/querysets/base.py:211-302 | the clause list and related paths are those of the keyword loop; limit, offset, ordering and related name are kept; grouping, distinct, expression and cache are reset |
| QueryState.FilterOrExcludeSpec | edgy/core/db/querysets/base.py:369-385 | with a clause it is appended and the keywords are ignored; without, the keywords are compiled |
| QueryState.ExcludeClauseNotNegated | edgy/core/db/querysets/base.py:378-385 | excluding by a clause equals filtering by it |
| QueryState.FilterOrExcludeFixed | edgy/core/db/querysets/base.py:369-385 | the corrected version agrees with the source when no clause is given |
| QueryState.ExcludeClauseFixed | edgy/core/db/querysets/base.py:397-405 | with the correction, excluding adds the clause's negation, filtering adds the clause, and the two differ |
| QueryState.SearchFields | edgy/core/db/querysets/base.py:418-422 | exactly the names of the Char and Text fields |
| QueryState.SearchClauses | edgy/core/db/querysets/base.py:423 | an `ilike("%term%")` per searchable field; KeyError when one has no column |
| QueryState.LookupSpec | edgy/core/db/querysets/base.py:407-430 | an empty term returns the state unchanged; otherwise the state is unchanged too, or the KeyError of the search |
| QueryState.LookupFixed | edgy/core/db/querysets/base.py:425-428 | the corrected lookup adds one `or_` of several search clauses, or the single one |
| QueryState.LookupDropsSearch | edgy/core/db/querysets/base.py:415-430 | one searchable column: the lookup keeps the filters, while the corrected one adds the `ilike` clause |
| QueryState.SelectRelatedSpec | edgy/core/db/querysets/base.py:472-487 | a path is wrapped and appended, a list appended, a tuple raises TypeError |
| QueryState.SelectRelatedRepeats | edgy/core/db/querysets/base.py:484-486 | selecting a path twice lists it twice |
| QueryState.SelectRelatedFixed | edgy/core/db/querysets/base.py:482-486 | the corrected version takes a tuple like the list of the same paths |
| QueryState.BuildSelectMeaning | edgy/core/db/querysets/base.py:180-209 | the select of a state: tables from the root and its related segments, the clauses as WHERE, the truthy limit/offset, one column per stored name |
| QueryState.Classify | edgy/core/db/querysets/base.py:562-566 | no row: ObjectNotFound; more than one: MultipleObjectsReturned; exactly one: that row |
| QueryState.ClassifyOrNone | edgy/core/db/querysets/base.py:516-520 | no row: None; otherwise as `get` |
| QueryState.GetSpec | edgy/core/db/querysets/base.py:551-566 | a failure to build the select is passed on; otherwise `get` succeeds exactly when its select returns exactly one row, and returns that row |
| QueryState.GetPlan | edgy/core/db/querysets/base.py:551-558 | the select `get` issues is capped at two rows |
| QueryState.GetOrNonePlan | edgy/core/db/querysets/base.py:507-512 | the same cap for `get_or_none` |
| QueryState.GetOrNoneAsGet | edgy/core/db/querysets/base.py:507-520 | with keywords, `get_or_none` issues `get`'s select and answers as `get` with None for no row (also lines 551-566) |
| QueryState.GetOrNoneDropsDistinct | edgy/core/db/querysets/base.py:507-512 | without keywords, `get` keeps the distinct columns and `get_or_none` drops them and the grouping (also lines 294-302) |
| QueryState.AllState | edgy/core/db/querysets/base.py:526-528 | on a many-to-many model the distinct columns become exactly the related name; nothing else changes, and a plain model's state is kept |
| QueryState.Project | edgy/core/db/querysets/base.py:541-549 | one value per row; the row instances for a plain model |
| QueryState.AllDistinctOnRelated | edgy/core/db/querysets/base.py:522-533 | on a many-to-many model the select is distinct on exactly the related name, with keywords too |
| QueryState.FirstOnEmptyTable | edgy/core/db/querysets/base.py:568-578 | on an empty table `first()` is None and `first(**kwargs)` raises ObjectNotFound |
| QueryState.FirstLastNeedId | edgy/core/db/querysets/base.py:574-588 | on a model without an `id` column, `first()` and `last()` raise KeyError `id` |
| QueryState.GetOrCreateSpec | edgy/core/db/querysets/base.py:667-679 | a creation happens exactly when `get` raises ObjectNotFound |
| QueryState.UpdateOrCreateSpec | edgy/core/db/querysets/base.py:681-694 | the same for `update_or_create` |
| QueryState.CreatedValues | edgy/core/db/querysets/base.py:677 | the created record takes the defaults over the keywords; both operations create the same record (also lines 692) |
| QueryState.ContainsPlan | edgy/core/db/querysets/base.py:700-701 | an instance whose pk is None raises ValueError |
| QueryState.ContainsByPk | edgy/core/db/querysets/base.py:696-702 | a truthy pk is looked for by an `exact` comparison on the primary-key column; pk 0 raises KeyError `'pk'` on a model without `pk` |
| QueryState.SelectedMeaning | edgy/core/db/querysets/base.py:622-628 | an instance's row holds exactly its attributes named in `fields`, resolved |
| QueryState.AddKeysMeaning | edgy/core/db/querysets/base.py:634 | adding keys keeps the earlier ones in place, adds the new ones once |
| QueryState.BindColumnsMeaning | edgy/core/db/querysets/base.py:634 | the bind columns are the keys over all rows, each once |
| QueryState.RowMeaning | edgy/core/db/querysets/base.py:635-639 | a row maps a field key to its value, which wins over the pk entry, and the primary-key name to the pk otherwise |
| QueryState.BulkUpdateSpec | edgy/core/db/querysets/base.py:612-643 | AttributeError exactly when the primary key is no column; otherwise one row per instance and an update keyed by the primary key over the bind columns |
| QuerySets.QuerySet.constructor | edgy/core/db/querysets/base.py:41-67 | the new query set's state is `QueryState.Init` of its arguments |
| QuerySets.QuerySet.Clone | edgy/core/db/querysets/base.py:322-339 | a fresh query set with the same state |
| QuerySets.QuerySet.DeepCopy | edgy/core/db/querysets/base.py:715-723 | a fresh query set with the state of `QueryState.DeepCopy` |
| QuerySets.QuerySet.FilterQuery | edgy/core/db/querysets/base.py:211-302 | the loop computes `FilterSpec`; the receiver's clause list becomes the new one, and stays as it was when a keyword raises |
| QuerySets.QuerySet.FilterOrExclude | edgy/core/db/querysets/base.py:369-385 | a fresh query set with the state of `FilterOrExcludeSpec`; the receiver is untouched |
| QuerySets.QuerySet.Filter | edgy/core/db/querysets/base.py:387-395 | the same, not excluding |
| QuerySets.QuerySet.Exclude | edgy/core/db/querysets/base.py:397-405 | the same, excluding |
| QuerySets.QuerySet.Lookup | edgy/core/db/querysets/base.py:407-430 | a fresh query set with the state of `LookupSpec` |
| QuerySets.QuerySet.OrderBy | edgy/core/db/querysets/base.py:432-438 | the clone's ordering is replaced by the names |
| QuerySets.QuerySet.Limit | edgy/core/db/querysets/base.py:440-446 | the clone's limit is replaced |
| QuerySets.QuerySet.Offset | edgy/core/db/querysets/base.py:448-454 | the clone's offset is replaced |
| QuerySets.QuerySet.GroupBy | edgy/core/db/querysets/base.py:456-462 | the clone's grouping is replaced |
| QuerySets.QuerySet.Distinct | edgy/core/db/querysets/base.py:464-470 | the clone's distinct columns are replaced |
| QuerySets.QuerySet.SelectRelated | edgy/core/db/querysets/base.py:472-487 | a fresh query set with the state of `SelectRelatedSpec` |
| QuerySets.QuerySet.BuildSelect | edgy/core/db/querysets/base.py:180-209 | the select of `BuildSelectSpec`, recorded as the expression when built |
| QuerySets.QuerySet.Exists | edgy/core/db/querysets/base.py:489-496 | the EXISTS answer for the select, recorded as the expression |
| QuerySets.QuerySet.GetOrNone | edgy/core/db/querysets/base.py:507-520 | `GetOrNoneSpec`; the receiver records the capped select |
| QuerySets.QuerySet.All | edgy/core/db/querysets/base.py:522-549 | `AllSpec`; the receiver records the select only when called without keywords |
| QuerySets.QuerySet.Get | edgy/core/db/querysets/base.py:551-566 | `GetSpec`; the receiver records the capped select only when called without keywords |
| QuerySets.QuerySet.First | edgy/core/db/querysets/base.py:568-578 | `FirstSpec`; the receiver is untouched |
| QuerySets.QuerySet.Last | edgy/core/db/querysets/base.py:580-590 | `LastSpec`; the receiver is untouched |
| QuerySets.QuerySet.GetOrCreate | edgy/core/db/querysets/base.py:667-679 | `GetOrCreateSpec`; the receiver records what its `get` records: nothing with keywords, the capped select without them |
| QuerySets.QuerySet.UpdateOrCreate | edgy/core/db/querysets/base.py:681-694 | `UpdateOrCreateSpec`; the receiver records what its `get` records: nothing with keywords, the capped select without them |
| QuerySets.QuerySet.Contains | edgy/core/db/querysets/base.py:696-702 | `ContainsSpec`; the receiver is untouched |
| QuerySets.QuerySet.BulkUpdate | edgy/core/db/querysets/base.py:612-643 | the loops send the rows of `BulkUpdateSpec` and record its statement; nothing is recorded when it raises |
| ForeignKeys.Validate | edgy/core/db/fields/foreign_keys.py:161-174 | only the two definition errors; a missing `on_delete` raises the first |
| ForeignKeys.ValidateMeaning | edgy/core/db/fields/foreign_keys.py:161-174 | a declaration passes exactly when `on_delete` is set and neither a `SET_NULL` `on_delete` nor a truthy `SET_NULL` `on_update` comes without `null` |
| ForeignKeys.Remaining | edgy/core/db/fields/foreign_keys.py:29-41 | the keywords left after the pops are among the given ones and none was popped |
| ForeignKeys.RemainingMeaning | edgy/core/db/fields/foreign_keys.py:29-41 | an entry stays exactly when its keyword is not one the factory pops |
| ForeignKeys.RemainingAppend | edgy/core/db/fields/foreign_keys.py:29-41 | the entries that stay keep their order: removing the popped keywords from a concatenation removes them from each part |
| ForeignKeys.FactoryNew | edgy/core/db/fields/foreign_keys.py:26-67 | validation first; a leftover keyword clashing with the namespace raises TypeError; otherwise `is_fk` is set, constraints are empty, `to`, `owner` and `registry` are those given, each popped option (`null`, `on_update`, `on_delete`, `related_name`, `comment`, `through`, `server_default`, `server_onupdate`, `is_m2m`, `is_o2o`) holds its value or its default, and the remaining keywords pass through (also lines 83-84) |
| ForeignKeys.ForeignKeyNew | edgy/core/db/fields/foreign_keys.py:144-159 | without `on_delete` the declaration raises the first definition error; a built field points at `to` and carries the `null`, `on_update`, `on_delete` and `related_name` it was declared with, over any extra keywords |
| ForeignKeys.AssembleArgs | edgy/core/db/fields/foreign_keys.py:144-159 | the assembled keywords carry the named parameters over the extra ones |
| ForeignKeys.DefaultsAccepted | edgy/core/db/fields/foreign_keys.py:144-159 | a declaration with the defaults passes validation and is not null, cascades updates, restricts deletes, has no related name, is a foreign key with no constraints (also lines 29-42) |
| ForeignKeys.RelatedNameDeclared | edgy/core/db/fields/foreign_keys.py:116-122 | `get_related_name` returns the declared related name |
| ForeignKeys.TargetOf | edgy/core/db/fields/foreign_keys.py:93-98 | a model is its own target; a name is looked up in the registry's models as they are at that moment, KeyError when absent, AttributeError without a registry |
| ForeignKeys.ColumnFor | edgy/core/db/fields/foreign_keys.py:100-114 | KeyError when the target has no primary-key field; otherwise a column whenever there is an owner |
| ForeignKeys.ColumnForMeaning | edgy/core/db/fields/foreign_keys.py:100-114 | the column's name, type, nullability, single foreign key to `table.pk`, its name `fk_<owner>_<target>_<pk>_<name>` and the field's actions; distinct names give distinct constraint names |
| ForeignKeys.Check | edgy/core/db/fields/foreign_keys.py:134-138 | the instance's pk, AttributeError for a non-instance |
| ForeignKeys.Expand | edgy/core/db/fields/foreign_keys.py:124-132 | always an instance of the target |
| ForeignKeys.ExpandCheck | edgy/core/db/fields/foreign_keys.py:124-138 | checking an expanded value gives its key; expanding twice is expanding once |
| ForeignKeys.ForeignKeyField.Target | edgy/core/db/fields/foreign_keys.py:88-98 | a set memo is returned and kept whatever the registry now holds; without one, the name is looked up in the registry's current models, a success is memoised and a failure leaves no memo |
| ForeignKeys.DeclaredBeforeTarget | edgy/core/db/fields/foreign_keys.py:88-98 | a key declared by name before its model exists raises KeyError, succeeds once the model is registered, and keeps that target after the registry changes again |
| ForeignKeys.ForeignKeyField.GetColumn | edgy/core/db/fields/foreign_keys.py:100-114 | the column of `ColumnFor` for what `target` answers in the state before the call, with its error passed on, and the memo `target` leaves |
| ForeignKeys.ForeignKeyField.ExpandRelationship | edgy/core/db/fields/foreign_keys.py:124-132 | `Expand` for what `target` answers in the state before the call, with its error passed on, and the memo `target` leaves |

## Left out

- The database and asynchronous execution. `fetch_all` and `fetch_val` are the `Database` parameter. `execute`, `execute_many`, `create`, `bulk_create`, `update`, `delete`, `count` and `execute` issue statements whose answers are the database's.
- The SQL text (`sql`, `str(expression)`) and the `raw_query` written by `set_query_expression`. These are string rendering by SQLAlchemy.
- Row materialisation. `from_sqla_row` is the identity on instances, and `select_related` does not change it.
- `extract_values_from_field`, `resolve_value` and `update_auto_now_fields`. They live in helpers outside this model; `bulk_update` takes the first two as function parameters.
- `instance.save` and `instance.update` of `get_or_create`/`update_or_create`. The model returns what they would be called with.
- Aliasing between lists. Lists are values, so the model does not capture one thing: the new query set `filter_query` returns shares its clause list with the receiver, and later appends to either are seen by both.
- The `ILIKE` case folding and the semantics of operators other than the `contains` family. Clauses carry the operator's name.
- Non-string values for `contains`/`icontains`. The model raises TypeError, where Python's `in` may accept other containers.
- Non-string `lookup` terms. The term is a string; falsy means empty.
- Keywords named `clause`, `exclude` or `defaults`, which Python binds to the parameters of those names. Keywords are a dictionary throughout.
- The `select_from.c.id` column of a disambiguated join. The condition records the left side as `id` and does not check that the join exposes it.
- `is_m2m`, `m2m_related`, `table` and `pkname` come from a mixin that is not part of this model. They are read from the model record.
- The dynamic field class built at foreign_keys.py:66 is a fixed record. The `model_rebuild` side effect at foreign_keys.py:129-131 is not modelled.
- `get_column_type` and the base factory's empty `validate` (foreign_keys.py:69-80) hold no logic.
- The dunder plumbing (`__get__`, `__aiter__`, `__await__`, `__class_getitem__`) is not modelled.
- `__deepcopy__` re-runs `__init__` with no model before copying. The model copies the state and does not capture a failure there.
- The registry's own operations (declaring a model, `registry.models` as a dictionary with its own behaviour) are not part of this model. `ForeignKeys.Registry` is an object with a model map that callers may reassign.
- Values are strings, integers, booleans, None and instances. There is no list or tuple value, so `__in`-style comparisons cannot be written. The builder passes a value through to the comparison untouched, so nothing it decides depends on this.
- Like.PlainLiteral: LIKE is the SQL standard's, with no escape character unless an `ESCAPE` clause names one. On PostgreSQL and MySQL a backslash escapes by default even without that clause, so there a value with no wildcard but with a backslash (`a\b`, compiled to `%a\b%`) also matches `ab`; the lemma does not cover those dialects.
- Like.ContainsPatternMeaning: stated under the same standard LIKE, for the same reason; on PostgreSQL and MySQL the backslash default changes the meaning of the patterns `contains` compiles for values without wildcards.
- ForeignKeys.ForeignKeyNew: extra keywords are not checked against the named parameters. Python rejects an extra `to` with TypeError before the body runs (foreign_keys.py:144-153); the model lets the explicit `to` win, so it accepts a call Python cannot make.
- ForeignKeys.Expand: the instance built for a plain value has only its key, because the model has no other attributes to give it.

## Findings

| source | as written | input that shows it | evidently intended | confidence | as-written member | corrected member |
|---|---|---|---|---|---|---|
| edgy/core/db/querysets/base.py:415-430 | `lookup` builds the search clauses into a local copy of the clause list and returns the clone without them | a model with one Char column `name`, `lookup("a")`: the returned filters equal the receiver's | the `ilike` clause (or their `or_`) is attached to the returned query set | high (not executed) | QueryState.LookupDropsSearch | QueryState.LookupFixed |
| edgy/core/db/querysets/base.py:378-385 | `exclude(clause)` appends the clause itself, not its negation, and ignores the keywords | `exclude(c)` and `filter(c)` give the same state | the clause is negated when excluding | high (not executed) | QueryState.ExcludeClauseNotNegated | QueryState.ExcludeClauseFixed |
| edgy/core/db/querysets/base.py:482-486 | a tuple is not wrapped, and `list + tuple` raises TypeError | `select_related(("a", "b"))` | a tuple is taken like a list, as the `isinstance(related, (list, tuple))` test suggests | medium (not executed) | QueryState.SelectRelatedSpec | QueryState.SelectRelatedFixed |
| edgy/core/db/querysets/base.py:273-279 | `%` and `_` are escaped with `\` as the escape character, but a `\` in the value is not | `name__contains="a\_"` compiles to a pattern that matches `a\b` | every escape-significant character, the escape character included, is escaped | medium (not executed) | Like.ContainsPatternCounterexample | Like.ContainsPatternFixedMeaning |
