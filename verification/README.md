# component-loader query layer in Dafny

This project models the query layer behind the `ComponentLoader` widgets and proves
properties about it. It covers:

- **`where.js`.** The compiler from a query-builder rule tree (groups with an `and`/`or`
  combinator, rules with a field, an operator and a value) to an SQL `WHERE` text. The
  compiler can inline values or bind them to `?`, `$n` or `:field_n` placeholders.
- **`query.js`.** The in-memory table store (create, drop, write, add and insert data),
  the flattening of nested rows into dotted keys, the table metadata, the datasource
  description of a query, the summary statement, `queryFactory` and the options of the
  multi-value filter.
- **`ComponentLoader.js`.** The filters the component adds to every query (URL filters,
  associated filters, range and multi-value filters) and the runners of its queries. It
  also covers the reduction of those runners in `getData`, the state handlers
  (`handleHideLayer`, the two filter click handlers) and the legend position.
- **`filters/MultiValueFilter.js` and `filters/RangeFilter.js`.** The displayed selection,
  the options of a field, the option search, and the date window of a range choice.

## How it is modelled

- **JavaScript values** are the datatype `JsValue.Json`. It has `undefined`, `null`,
  booleans, integers, `NaN`, strings, arrays and objects. An object is a sequence of
  properties in insertion order. Assigning an existing key keeps its position, as in
  JavaScript.
  - `===` is `StrictEq`. On primitive values it is exact: equal values are equal,
    except that `NaN` equals nothing. Arrays and objects are compared by structure
    here, where JavaScript compares references (see "## Left out").
  - Truthiness and `String(x)` are written out for these values. An array becomes its
    elements joined by commas, with `null` and `undefined` as empty text, and an object
    becomes `[object Object]`.
- **Code that changes state step by step is imperative Dafny:**
  - the statement objects of `getSQL` (`Where.StatementBuilder`);
  - the `parse` loops;
  - the table store (`Store.TableStore`, a map of tables);
  - `flatObject` and the `tableMeta` reduce;
  - the rule group the filters push into (`Component.RuleGroup`);
  - the component state (`Component.ComponentLoader`);
  - the `getData` reduce;
  - `fieldData`.

  Each such method is proved equal to a specification function, and the properties are
  lemmas about those functions.
- **Pure code is written as functions:** the operator tables, `escapeString`, `fmt`,
  `changeType`, `getStmtConfig`, `buildFilters`, `activeFilters`, `legendPosition` and the
  range arithmetic.
- **Errors.**
  - A throw the code intends is an `Err` result: an unknown combinator, or a boolean-typed
    value without `trim`.
  - A dereference that would crash is a precondition: `conditions.rules` on missing
    conditions, writing into `tables[...]` of a table that does not exist, a lookup
    that finds an `Object.prototype` member.
- **Foreign libraries are parameters.**
  - alasql's execution of a statement is a function `Exec` from a query runner to rows.
  - The jsonata extractor is a function `Extractor`.
  - `SHOW COLUMNS` is the column list of the modelled store, `[]` for a table that
    does not exist (`Query.ShowColumns`).
  - A squel statement is the record `Query.Select` (from, where, fields, groups, orders).
- **The named-mode counters are a plain object.** `indexes[rule.field]` also finds
  the members of `Object.prototype`. The model keeps the own counts in a map and
  computes what the lookup reads (`WhereSpec.Counter`). `__proto__` always reads
  `Object.prototype`, so its values are all bound to `__proto___NaN`. Another
  inherited name such as `constructor` is first bound to `constructor_NaN`, then counts
  from 1.
- **`Date.now()`** is the parameter `now`. The URL search string is a list of
  key/value pairs.
- **`this.getComponent()`** returns an arrow function, which has no `lazy` property.
  `Component.ComponentLoader.GetData` therefore passes `undefined` as the wrapper's
  `lazy`. The reduction itself (`Reduction.ReduceRunners`) takes both flags, so the
  branch the source cannot reach is still modelled.
- **The multi-value options are never seen by the widget.** `render` passes the option
  list itself as the widget's `options` prop. The widget reads `options.items`, which an
  array does not have, so its `items` default to `[]`. The widget functions here take
  `items` as a parameter; that wiring is not modelled.
- **A range choice of `0` days is falsy.** The widget therefore treats it as "no range
  chosen" and applies the default again on the next render. This is modelled as written
  (`RangeFilter.ZeroDaysReapplyDefault`).

## Model

| member | source | states |
|---|---|---|
| WhereOps.ParseOperator | src/where.js:1-21 | an operator string found in the tables is the name of the operator it denotes |
| WhereOps.ParseName | src/where.js:1-21 | every one of the twenty operators is found under its own name |
| WhereOps.TablesAgree | src/where.js:1-150 | the two operator tables agree: an operator takes input exactly when its template has `?`; it has a separator exactly when it takes two inputs or several; LIKE patterns belong to the one-input string operators |
| WhereOps.Negation | src/where.js:1-21 | each operator and its negation share input count, LIKE pattern and separator |
| WhereOps.EscapeValue | src/where.js:169-196 | non-strings pass through unchanged; an escaped string unescapes back to the original |
| WhereOps.UnescapeEscape | src/where.js:169-196 | the escape loses nothing: unescaping the escaped string gives the string back |
| WhereOps.EscapeRemovesControls | src/where.js:169-196 | after escaping, no NUL, newline, carriage return, backspace, tab or SUB remains, and every quote is preceded by a backslash |
| WhereOps.FmtPlain | src/where.js:198-206 | a pattern without `{` is returned unchanged |
| WhereOps.FmtHead | src/where.js:198-206 | characters before a `{` are copied one by one |
| WhereOps.FmtSlotZero | src/where.js:198-206 | `{0}` is replaced by the first argument as a string |
| WhereOps.FmtOneSlot | src/where.js:198-206 | a pattern with a single `{0}` slot gets the first argument in that slot and nothing else changes |
| WhereOps.FmtLikePatterns | src/where.js:11-16 | begins-with, ends-with and contains put the value before, after or between `%` signs |
| WhereOps.ChangeTypeBoolean | src/where.js:159-163 | a boolean-typed value becomes 1 exactly when it is a string that, trimmed, reads `true` in any case or `1`; any other string becomes 0; a non-string throws |
| WhereOps.ChangeTypeInteger | src/where.js:154-155 | an integer and its decimal text both come through the integer coercion as that integer |
| WhereOps.FindKeyword | src/where.js:393-397 | the match found is the leftmost occurrence of a statement keyword |
| WhereOps.NoKeywordFrom | src/where.js:393-397 | with no keyword from a position on, the search finds none |
| WhereOps.NoKeywordMeansQuestionMark | src/where.js:393-397 | a configuration string naming no statement kind falls back to question marks |
| WhereOps.StatementConfigurations | src/where.js:393-397 | `question_mark`, `numbered`, `numbered(c)`, `named` and `named(c)` select the documented modes and marks |
| WhereSpec.Counter | src/where.js:246-247 | the counter `add` reads is `NaN` for `__proto__`, 1 for a field that is neither counted yet nor an `Object.prototype` member, and at least 1 whenever it is a number |
| WhereSpec.Add | src/where.js:211-256 | `add` keeps the mode; positional modes append the value; named mode binds `field_k` with the counter the lookup reads and stores that counter plus one; the placeholder is `?`, the mark and the next index, or the mark and `field_k` |
| WhereSpec.ValuesTextSnoc | src/where.js:310-338 | the values of a rule are written one after the other |
| WhereSpec.ValuesErrPersists | src/where.js:310-338 | a value that throws makes the whole rule throw with the same error |
| WhereSpec.PartsErrPersists | src/where.js:293-359 | a child that throws makes the whole group throw with the same error |
| Where.StatementBuilder.constructor | src/where.js:211-256 | a new statement object has bound nothing |
| Where.StatementBuilder.NextCounter | src/where.js:246-247 | reads the counter as `WhereSpec.Counter` specifies and stores it plus one, `__proto__` excepted; nothing else changes |
| Where.StatementBuilder.AddNamed | src/where.js:245-250 | a named `add` changes the statement object exactly as specified and returns its placeholder |
| Where.StatementBuilder.Add | src/where.js:211-256 | the statement object changes exactly as `add` specifies and returns its placeholder |
| Where.StatementBuilder.Run | src/where.js:211-256 | `run` hands out the bound values: a list for positional modes, an object for named |
| Where.Bind | src/where.js:329-337 | a value is bound to the statement when there is one, otherwise written inline and quoted when it is a string |
| Where.ValuesSql | src/where.js:305-339 | the loop over a rule's values computes the specified text and statement state, or the specified error |
| Where.ValueSql | src/where.js:310-338 | one value: separator, coercion or escape, LIKE pattern, then its text, as specified |
| Where.RuleSql | src/where.js:296-358 | a rule with an unknown operator adds nothing; any other rule adds `field template` with the first `?` replaced by its values |
| Where.Parse | src/where.js:277-372 | `parse` computes the specified group text and statement state, or throws the specified error |
| Where.GetSQL | src/where.js:265-384 | `getSQL` returns exactly `WhereSpec.Compile` |
| WhereLemmas.BadCombinatorThrows | src/where.js:281-285 | a combinator that is neither AND nor OR in any case throws, naming the combinator |
| WhereLemmas.EmptyGroup | src/where.js:287-289 | a group without rules compiles to the empty text with no values bound |
| WhereLemmas.ValueStepKeeps | src/where.js:310-338 | one value never changes the statement's mode or removes a bound value |
| WhereLemmas.ValuesKeep | src/where.js:310-338 | the values of a rule never change the statement's mode or remove a bound value |
| WhereLemmas.GroupKeeps | src/where.js:277-372 | compiling a group never changes the statement's mode or removes a bound value |
| WhereLemmas.PartsKeep | src/where.js:293-359 | the children of a group never change the statement's mode or remove a bound value |
| WhereLemmas.ChildKeeps | src/where.js:294-358 | one child never changes the statement's mode or removes a bound value |
| WhereLemmas.ParamsIffStatement | src/where.js:374-383 | the output has params exactly when statements are on, and they are an object exactly in named mode |
| WhereLemmas.LastUnderscore | src/where.js:244-250 | the last underscore of a named parameter separates the field from the counter |
| WhereLemmas.NamedKeyInjective | src/where.js:244-250 | different fields or counters give different parameter names |
| WhereLemmas.FreshNamedKey | src/where.js:246-248 | for any field but `__proto__`, the name `add` binds is not bound yet |
| WhereLemmas.NamedInvStep | src/where.js:244-250 | every named `add`, `__proto__` included, keeps the names distinct and each `field_k` below its field's count |
| WhereLemmas.NamedAddAppends | src/where.js:244-250 | a named `add` on any field but `__proto__` appends a fresh name and never overwrites a bound value |
| WhereLemmas.ProtoFieldOverwrites | src/where.js:246-248 | a value for `__proto__` is bound to `__proto___NaN` again, overwriting the earlier one, and no count changes |
| WhereLemmas.InheritedFieldCounts | src/where.js:246-248 | another `Object.prototype` member is first bound to `field_NaN`, then to `field_1` |
| WhereLemmas.CoerceSameOutcome | src/where.js:315-327 | whether coercing a value throws does not depend on the statement mode |
| WhereLemmas.EmitAgree | src/where.js:329-337 | writing a value keeps two statements binding the same values |
| WhereLemmas.ValueStepAgree | src/where.js:310-338 | one value throws or not independently of the statement, and keeps agreeing statements agreeing |
| WhereLemmas.ValuesAgree | src/where.js:310-338 | the values of a rule throw or not independently of the statement, and keep agreeing statements agreeing |
| WhereLemmas.GroupAgree | src/where.js:277-372 | a group throws or not independently of the statement and the line layout |
| WhereLemmas.PartsAgree | src/where.js:293-359 | the children of a group throw or not independently of the statement and the line layout |
| WhereLemmas.ChildAgree | src/where.js:294-358 | one child throws or not independently of the statement and the line layout |
| WhereLemmas.ErrorsIndependentOfOptions | src/where.js:265-384 | whether `getSQL` throws, and with which error, depends only on the rule tree |
| WhereLemmas.ParamsIndependentOfLayout | src/where.js:266 | multi-line output binds the same params as single-line output |
| WhereLemmas.NamedBindsEveryValue | src/where.js:240-254 | for a rule tree with no `__proto__` field, named mode binds as many distinct names as question-mark mode binds values |
| WhereLemmas.NumberedBindsLikeQuestionMarks | src/where.js:221-238 | numbered mode binds the same values in the same order as question marks |
| WhereLemmas.PartsPrefix | src/where.js:293-359 | the parts so far depend only on the children so far |
| WhereLemmas.PartsSkip | src/where.js:296-303 | a skipped child leaves the parts after it unchanged |
| WhereLemmas.SkippedChildChangesNothing | src/where.js:296-303 | inserting an empty group or a rule with an unknown operator anywhere changes neither the SQL nor the params |
| WhereLemmas.WrapChildSupported | src/where.js:305-308 | wrapping values in place keeps a child compilable and of the same kind |
| WhereLemmas.GroupWrap | src/where.js:305-308 | a group compiles the same after its values were wrapped |
| WhereLemmas.PartsWrap | src/where.js:305-308 | the parts of a group are the same after its values were wrapped |
| WhereLemmas.ChildWrap | src/where.js:305-308 | a child compiles the same after its values were wrapped |
| WhereLemmas.CompileWrapped | src/where.js:305-308 | compiling the tree `getSQL` leaves behind gives the same output again, and wrapping twice is wrapping once |
| WhereLemmas.WrapTwice | src/where.js:305-308 | wrapping values a second time changes nothing |
| WhereBinding.QuestionMarksBindValues | src/where.js:305-343 | with question marks, an untyped rule writes one `?` per value joined by the separator and binds the values in order |
| WhereBinding.InlineString | src/where.js:321-336 | without statements, an untyped string is written escaped and quoted |
| Store.TableNameShape | src/query.js:27 | the table name is `datasource_` and the id with every `-` replaced by `_`, so it contains no `-` |
| Store.TableNameCollision | src/query.js:27 | two ids share a table exactly when they agree after the replacement, e.g. `a-b` and `a_b` |
| Store.FieldList | src/query.js:513-524 | the field list of `CREATE TABLE` is parenthesised |
| Store.FieldListSplit | src/query.js:513-524 | split at commas, the field list gives back each field's name and upper-cased type in order |
| Store.UpperKeepsComma | src/query.js:516 | upper-casing a type adds no comma |
| Store.ShiftedPiece | src/query.js:514-518 | each piece of the joined list is one field's `name TYPE` |
| Store.TableStore.constructor | src/query.js:48-78 | the store starts with no tables |
| Store.TableStore.CreateTable | src/query.js:48-60 | the new store is the old one with the table created when absent |
| Store.TableStore.DropTable | src/query.js:62-68 | the new store is the old one without the table |
| Store.TableStore.DropOrCreateTable | src/query.js:70-78 | the new store is the old one with the table dropped and then created |
| Store.TableStore.WriteData | src/query.js:209-217 | the new store is the old one with the rows written as specified |
| Store.TableStore.AddData | src/query.js:166-203 | the new store is the old one with the table ensured and the rows added as specified |
| Store.TableStore.InsertData | src/query.js:34-46 | the new store is the old one with the payload inserted as specified |
| Store.CreateIdempotent | src/query.js:48-60 | creating twice is creating once; a created table is empty with the given columns; other tables are untouched |
| Store.DropOnlyThatTable | src/query.js:62-68 | after a drop the table is gone, a missing table is a no-op, and other tables are untouched |
| Store.DropOrCreateFresh | src/query.js:70-78 | afterwards the table exists with exactly the given columns and no rows, and other tables are untouched |
| Store.WriteReplacesOrAppends | src/query.js:209-217 | overwrite leaves exactly the new rows; otherwise the new rows follow the old ones; nothing else changes |
| Store.AddFalsyOnlyCreates | src/query.js:176-202 | the table always exists afterwards, and falsy data only creates it |
| Store.InsertWrapsAndOverwrites | src/query.js:34-46 | a non-array payload becomes a one-element list, and the table's rows are overwritten |
| Store.ZipPropsKeys | src/query.js:195-199 | zipping distinct names gives a record with exactly those keys, in order |
| Store.ZipPropsPairs | src/query.js:195-199 | the zipped record pairs `names[i]` with `row[i]` |
| Store.ZippedRows | src/query.js:187-199 | array-of-array data is zipped row by row with the field names |
| Store.AddZipsRows | src/query.js:176-202 | after adding zipped data, row `r` maps field `j`'s name to the row's `j`-th value |
| Flatten.FlatObject | src/query.js:80-98 | the loop computes the specified flattening |
| Flatten.PlaceEntry | src/query.js:86-95 | one entry: an object is flattened under `key.`, any other value is kept under its key |
| Flatten.AssignLeaf | src/query.js:94 | assigning a leaf keeps every value a leaf |
| Flatten.AssignAllLeaves | src/query.js:88-92 | copying flattened entries keeps every value a leaf |
| Flatten.AssignAllDistinct | src/query.js:88-92 | copying entries keeps the keys distinct |
| Flatten.FlatIsFlat | src/query.js:80-98 | the result has only non-object values and distinct keys |
| Flatten.FlatUpToIsFlat | src/query.js:83-96 | every prefix of the loop has only leaves and distinct keys |
| Flatten.PlaceIsFlat | src/query.js:86-95 | placing one entry keeps only leaves and distinct keys |
| Flatten.FlatOfFlatObject | src/query.js:80-98 | flattening an already flat object returns it |
| Flatten.FlatIdempotent | src/query.js:80-98 | flattening twice is flattening once |
| Flatten.Prefixed | src/query.js:91 | prefixing keys keeps the number of entries |
| Flatten.AssignAllFresh | src/query.js:88-92 | into an empty object, copying prefixes every key |
| Flatten.NestedKeys | src/query.js:86-92 | a nested object's entries come out under `key.` followed by their own flattened keys |
| Flatten.LeafKept | src/query.js:93-95 | a non-object value, null included, is kept under its own key |
| Query.ShowColumns | src/query.js:269 | `SHOW COLUMNS` gives the table's columns, and `[]` when the table does not exist |
| Query.TableMeta | src/query.js:265-297 | the reduce loop computes the specified metadata |
| Query.AllFieldsInOrder | src/query.js:272 | `allFields` lists every column id in column order |
| Query.TimeFieldIsLastDate | src/query.js:274-277 | `timeField` is absent exactly when there is no DATE column, and otherwise is the last DATE column |
| Query.LabelFieldsBlocks | src/query.js:278-282 | for each STRING column in order, `labelFields` gains the group-by list followed by that column |
| Query.SourceField | src/query.js:563-564 | type defaults to `string` and alias to the name |
| Query.ComputedField | src/query.js:565-571 | field is empty, and fn and alias default to null |
| Query.TypeMapStep | src/query.js:314 | a later column's type overwrites an earlier one under the same id |
| Query.TypeMapLast | src/query.js:311-316 | the type map holds each column's type under its id, the last column with that id winning |
| Query.TypeMapMissing | src/query.js:311-316 | an id that is not a column has no type |
| Query.Present | src/query.js:321 | falsy fields are dropped |
| Query.PresentFrom | src/query.js:321 | every kept field comes from the list |
| Query.DatasourceFields | src/query.js:309-338 | no fields or no columns give `[]`; otherwise one descriptor per kept field, `all` giving a source field with the column's type or `string`, anything else a computed field |
| Query.SourceTypeFromColumn | src/query.js:325-331 | a source field's type is the lower-cased type of its column |
| Query.LastFields | src/query.js:359-364 | one `LAST(g) as g` field per group |
| Query.AggregatesCount | src/query.js:366-370 | one aggregate field is added per flag that is set |
| Query.SummaryExtendsBase | src/query.js:344-377 | an empty field gives no statement; otherwise the statement extends a copy of the base with the group fields and groups, then the aggregates, leaving table, where and order as they were |
| Query.GroupNamesTruthy | src/query.js:359-364 | empty groups are skipped and all non-empty ones are kept in order |
| Query.FactoryStatement | src/query.js:387-481 | no table gives no runner; otherwise a statement on the table is built exactly when grouped or with rules, its where clause present exactly with conditions; the factory throws exactly when the conditions throw |
| Query.FactoryWithoutTable | src/query.js:446-455 | a query on a table that does not exist still gets a runner, with empty metadata and an empty datasource |
| Query.FactoryQueryText | src/query.js:396 | the raw query has its first occurrence of the table id replaced by the table name |
| FilterOptions.FindQuery | src/query.js:116-121 | the query found is the first whose table name matches the datasource ignoring case (both non-empty), and none matches when nothing is found |
| FilterOptions.FindAlias | src/query.js:124-125 | the field found is the first whose alias is the filter's name, and none has it when nothing is found |
| FilterOptions.LastSegment | src/query.js:147 | the last dotted segment of a key contains no dot |
| FilterOptions.FindFilter | src/query.js:148-150 | the filter found is the first valid filter that matches the key segment, by alias when it has one and by field name otherwise, and none matches when nothing is found |
| FilterOptions.GenerateOptions | src/query.js:142-163 | the loop computes the specified options |
| FilterOptions.GetMultiValueFilterOptions | src/query.js:100-164 | the function computes the specified result |
| FilterOptions.OptionsDistinct | src/query.js:153-154 | no value is offered twice |
| FilterOptions.OptionsSound | src/query.js:143-160 | every option comes from a defined flattened value whose last key segment names a valid filter, with that filter's field, and that filter matches the segment |
| FilterOptions.OptionsComplete | src/query.js:143-163 | every defined value whose key names a valid filter is offered |
| FilterOptions.DisabledHasNoOptions | src/query.js:105-110 | there are no options exactly when the filter is disabled or has no fields to filter |
| Filters.LastDashFrom | src/ComponentLoader.js:147 | a key with a dash after position `p` has its last dash after `p` |
| Filters.ParseFilterKey | src/ComponentLoader.js:147-154 | the key written for a scope and hash parses back to that scope and hash |
| Filters.ParsedKeyShape | src/ComponentLoader.js:147-154 | a parsed key ends in `f-[scope-]hash`, with a word hash and a scope without whitespace |
| Filters.WrittenKeyActive | src/ComponentLoader.js:145-163 | a search parameter written as a filter key yields an active filter with its comma-split values |
| Filters.FindCatalog | src/ComponentLoader.js:173 | the catalog entry found is the first with the hash, and none has it when nothing is found |
| Filters.BuildFiltersKeeps | src/ComponentLoader.js:166-189 | an entry is kept exactly when an active hash finds it, its datasource is the query's table and it has values |
| Filters.GlobalOperators | src/ComponentLoader.js:235-243 | the symbols `= > < >= <= !=` map to the operators whose SQL templates are those symbols |
| Filters.OtherOperators | src/ComponentLoader.js:235-243 | `LIKE` maps to contains, and any other symbol to no operator, so the compiler skips the rule |
| Filters.GlobalRules | src/ComponentLoader.js:253-261 | one rule per catalog filter |
| Filters.AssociatedRulesOnColumns | src/ComponentLoader.js:271-278 | a rule is produced exactly for an associated filter whose field is a column of the table |
| Filters.RangeRules | src/ComponentLoader.js:287-298 | a range with a field gives exactly `field >= start` and `field <= end`; no field gives no rule |
| Filters.MultiValueRules | src/ComponentLoader.js:301-305 | one `in` rule per multi-value field, with that field's values |
| Filters.FilterGroupLayout | src/ComponentLoader.js:217-233 | the `and` group holds the global, associated and local rules in that order, then the conditions as the last child when present |
| Filters.GlobalRulesSafe | src/ComponentLoader.js:253-261 | the global rules can all be compiled |
| Filters.LocalRulesSafe | src/ComponentLoader.js:283-308 | the local rules can all be compiled |
| Filters.FilterGroupSupported | src/ComponentLoader.js:217-233 | the filter group compiles whenever its rules and the former conditions do |
| Filters.AssociatedRulesSafe | src/ComponentLoader.js:264-281 | associated rules compile when their operators are not prototype names |
| Reduction.FieldLists | src/ComponentLoader.js:606-610 | one field list per runner |
| Reduction.OverlayLabelsFacts | src/ComponentLoader.js:606-610 | merged label lists have the longer length; a source label replaces the destination's unless it is `undefined` where the destination has one |
| Reduction.OverlayLabelsDefined | src/ComponentLoader.js:606-610 | without `undefined` labels the lists are overlaid like `allFields`, and a defined label is never erased |
| Reduction.MergedLabelUndefined | src/ComponentLoader.js:606-610 | a merged label is `undefined` only when every runner reaching that index has `undefined` there |
| Reduction.MergedMetaFields | src/ComponentLoader.js:606-610 | the merged metadata takes the last runner's time field, and each position of `allFields` comes from the last runner that has it |
| Reduction.CountKeyed | src/ComponentLoader.js:601-602 | at most every runner has a key |
| Reduction.AllKeyedMeansEvery | src/ComponentLoader.js:601-602 | all queries contain a key exactly when every runner's key is truthy |
| Reduction.LastWithKey | src/ComponentLoader.js:624 | the runner found is the last one with that key, and none has it when nothing is found |
| Reduction.KeyedLookup | src/ComponentLoader.js:619-628 | each key maps to the rows of the last runner with that key: its sole row when there is one and `isArray` is false, otherwise all of them |
| Reduction.RowsOf | src/ComponentLoader.js:630 | one row list per runner |
| Reduction.DatasourcesOf | src/ComponentLoader.js:616 | one datasource list per runner |
| Reduction.QueryStringsOf | src/ComponentLoader.js:613-615 | one statement per runner |
| Reduction.ConcatenatedAppend | src/ComponentLoader.js:613-630 | concatenation distributes over appending runners |
| Reduction.RowsInQueryOrder | src/ComponentLoader.js:630 | the rows of a longer run are the rows of its parts in query order |
| Reduction.ReduceStep | src/ComponentLoader.js:603-634 | one reduce step merges the metadata, appends the statement, datasource and rows, and sets the key |
| Reduction.CountKeys | src/ComponentLoader.js:601-602 | the loop counts the runners with a key |
| Reduction.Accumulate | src/ComponentLoader.js:603-645 | the reduce loop computes the merged metadata, last query, statements, datasources and keyed data or rows |
| Reduction.ReduceRunners | src/ComponentLoader.js:595-682 | zero runners give no data; a lazy wrapper and content give the combined object; lazy wrapper only gives the runners unreduced; a non-lazy wrapper defers execution |
| Reduction.EmptyFieldNoSummary | src/query.js:355-357 | with an empty field the combined summary is empty |
| Reduction.CombinedSummaryAppend | src/ComponentLoader.js:684-686 | the combined summary concatenates each query's summary in order |
| Component.WithoutKeeps | src/ComponentLoader.js:522 | removal keeps exactly the entries not strictly equal to the item, and none equal to it remains |
| Component.ToggleTwice | src/ComponentLoader.js:513-525 | an absent item is appended, and toggling it again restores the list |
| Component.ToggleNaN | src/ComponentLoader.js:516-519 | `NaN` is never found, so it is always appended |
| Component.IndexOfStrict | src/ComponentLoader.js:516 | the index found is the first strictly equal entry, `-1` exactly when there is none |
| Component.FilterOut | src/ComponentLoader.js:522 | the loop computes the specified removal |
| Component.SelectionGroupsLookup | src/ComponentLoader.js:361-369 | each field maps to the values of exactly its selected options, in selection order, and a field without one is absent |
| Component.LegendPosition | src/ComponentLoader.js:527-558 | the 10px padding faces the content; the legend comes first for top and left and last otherwise; top and bottom span the full width, left and right use the width, `200px` by default |
| Component.RunnersOk | src/ComponentLoader.js:318-326 | `data()` succeeds exactly when no query throws, and its runners are those of the queries that have one |
| Component.RunnersErrPersists | src/ComponentLoader.js:321-323 | the first query that throws decides the error |
| Component.RuleGroup.constructor | src/ComponentLoader.js:192-198 | a new group has the combinator and no rules |
| Component.RuleGroup.Push | src/ComponentLoader.js:226 | pushing appends the rule and keeps the combinator |
| Component.ComponentLoader.constructor | src/ComponentLoader.js:128-143 | the state starts with no hidden layers, no selection and no range |
| Component.ComponentLoader.HandleHideLayer | src/ComponentLoader.js:513-525 | the hidden layers are toggled and nothing else changes |
| Component.ComponentLoader.MultiValueFilterClickHandler | src/ComponentLoader.js:361-380 | the raw selection is stored unchanged with the values grouped by field; nothing else changes |
| Component.ComponentLoader.RangeFilterClickHandler | src/ComponentLoader.js:383-393 | the range state becomes the configured field, the chosen value, start and end; nothing else changes |
| Component.ComponentLoader.ApplyGlobalFilters | src/ComponentLoader.js:245-262 | the group gains one rule per built filter, in order |
| Component.ComponentLoader.ApplyAssociatedFilters | src/ComponentLoader.js:264-281 | the group gains the associated rules on the table's columns, in order |
| Component.ComponentLoader.ApplyLocalFilters | src/ComponentLoader.js:283-308 | the group gains the range rules, then the multi-value rules |
| Component.ComponentLoader.ApplyFilters | src/ComponentLoader.js:217-233 | only the conditions change, becoming the filter group |
| Component.ComponentLoader.FactoryResults | src/ComponentLoader.js:322 | one factory result per query |
| Component.ComponentLoader.Data | src/ComponentLoader.js:318-326 | the loop computes the runners of the filtered queries, or the first error |
| Component.ComponentLoader.GetData | src/ComponentLoader.js:564-693 | the error of `data()`, or its runners reduced with a wrapper that has no `lazy` |
| Component.FilteredStatement | src/query.js:407-410 | a filtered query gets a statement exactly when it is grouped or has any filter or condition |
| MultiValueFilter.ShownSelectionMembers | src/filters/MultiValueFilter.js:49-50 | an index is shown exactly when it is selected and within the options |
| MultiValueFilter.ShownSelectionKeepsValid | src/filters/MultiValueFilter.js:50 | a selection within the options is shown unchanged, and filtering twice is filtering once |
| MultiValueFilter.ShownSelectionDropsStale | src/filters/MultiValueFilter.js:50 | with two options, `[0, 2]` is shown as `[0]` |
| MultiValueFilter.FieldData | src/filters/MultiValueFilter.js:18-27 | the loop computes the specified options of the field |
| MultiValueFilter.FieldOptionsExact | src/filters/MultiValueFilter.js:18-27 | the options of `f` are exactly those whose field is strictly `f`, keyed by index, in ascending order |
| MultiValueFilter.FilterOption | src/filters/MultiValueFilter.js:41-47 | a group header never matches |
| MultiValueFilter.SearchFindsSubstring | src/filters/MultiValueFilter.js:45-46 | text occurring in an option's value finds it, also when typed in upper case |
| MultiValueFilter.EmptySearchMatches | src/filters/MultiValueFilter.js:45-46 | an empty search matches every option |
| MultiValueFilter.OnMVChange | src/filters/MultiValueFilter.js:37-39 | the new selection and the full option list reach the component's click handler |
| RangeFilter.ClickHandler | src/filters/RangeFilter.js:20-32 | the end is always now and the choice passes through; `-1` starts at 0; `n` starts `86400000 * n` before now |
| RangeFilter.ChoiceRoundTrip | src/filters/RangeFilter.js:27-30 | a day count is recovered from its window; a non-negative one does not end before it starts, and 0 gives an empty window |
| RangeFilter.AllTimeCoversEveryChoice | src/filters/RangeFilter.js:24-30 | `-1` starts no later than any day count reaching back no further than the epoch |
| RangeFilter.InitialWindow | src/filters/RangeFilter.js:35-37 | the default is applied exactly while no range is chosen |
| RangeFilter.ZeroDaysReapplyDefault | src/filters/RangeFilter.js:35 | a chosen range of 0 counts as unset |
| RangeFilter.Render | src/filters/RangeFilter.js:34-37 | without a range the component receives the default's window; otherwise nothing changes |
| RangeFilter.Choose | src/filters/RangeFilter.js:20-32 | a choice's window reaches the component |

## Left out

- `changeType` for `double`: `parseFloat` is floating point. Rules typed `double` are excluded by precondition.
- The missing-combinator fallback reads `self.settings` with `this` undefined. Groups must carry a combinator.
- A failed `getSQL` does not leave the partly wrapped rule values behind: the model returns only the error.
- alasql and squel are foreign libraries. Statements are records, `SHOW COLUMNS` is the column list of the store, and execution is a parameter.
- `execute` references `_`, which is not imported, so as written it always falls into its `catch`. Execution is abstract instead.
- jsonata extraction and its object-hash memoization are foreign. The extractor is a parameter.
- The where text is kept even when empty. squel drops an empty `WHERE`, which is rendering and not modelled.
- JSON text, floating-point numbers and integer-like object keys (which JavaScript orders first) are not modelled.
- `JsValue.StrictEq`: JavaScript's `===` compares arrays and objects by reference. The model compares them by structure, so two separate but equal arrays or objects count as equal in `Component.Contains`, `Component.IndexOfStrict`, `Component.Without`, `MultiValueFilter.FieldOptions` and the option de-duplication of `FilterOptions.GenerateOptions`. It is exact on primitive values.
- Prototype-member keys (`__proto__`, `constructor`, ...) in flattened rows or keyed data: their special assignment semantics are not modelled.
- `toLowerCase`/`toUpperCase` are modelled on ASCII letters only.
- `Reduction.MergedMetaFields`: lodash `merge` deep-merges object-valued label fields. The model overlays them whole, position by position; `undefined` labels are handled as lodash does.
- `WhereLemmas.NamedAddAppends`: holds for every field but `__proto__`. A `__proto__` field overwrites its earlier value, as `WhereLemmas.ProtoFieldOverwrites` shows.
- `WhereLemmas.NamedBindsEveryValue`: holds for rule trees without a `__proto__` field. With one, the named params have fewer entries than values were bound (`WhereLemmas.ProtoFieldOverwrites`).
- The non-lazy `getData` branch reads `acc.data` from an accumulator without it. Only a single query is defined there.
- With a lazy wrapper and content, mixed keyed and unkeyed queries whose first is keyed call `concat` on `{}`. This is excluded by precondition.
- `getData` also calls `datasource()`, whose result is unused. `rangeData()` feeds only the rendered option list. `unfilteredData()` is unused.
- React rendering, `shouldComponentUpdate`, the header templates, `window.location` (the search parameters are an input), uuid rule ids, timers, the DOM and network I/O are not modelled.
- Catalog filters are looked up by `datasource.id`. An entry without a `datasource` object would crash and is not modelled. The catalog field is modelled as a string.
- `MultiValueFilter.OnMVChange`: antd reports selections as index strings. The model uses the indices.
- `RangeFilter.ClickHandler`: string or array day counts are coerced to numbers by JavaScript; the model gives `NaN` for them. Day counts are integers.
- `MultiValueFilter.FilterOption`: non-string option values crash in `toLocaleLowerCase` and are excluded by precondition.
