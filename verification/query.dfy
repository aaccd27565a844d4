/** The query helpers of the data layer: the metadata of a datasource table, the
    field descriptors a component receives, the summary statement, and the query
    runner `queryFactory` assembles. A squel statement is a record of its clauses;
    the SQL engine that runs it is not modelled. */
module Query {

  import opened Outcomes
  import opened JsString
  import opened JsValue
  import opened WhereOps
  import opened WhereSpec
  import opened Store

  // ----- tableMeta -----

  /** `{ timeField, allFields, labelFields }`; a `null` time field is `None`. */
  datatype Meta = Meta(timeField: Option<string>, allFields: seq<string>, labelFields: seq<Json>)

  /** What `concat` spreads out of `groupBy`: an array's elements, nothing for the
      `[]` that an absent `groupBy` defaults to, any other value as itself. */
  function GroupItems(groupBy: Json): seq<Json>
  {
    match groupBy
    case JUndef => []
    case JArr(xs) => xs
    case _ => [groupBy]
  }

  /** The accumulator of the `reduce` in `tableMeta` after the first `|cols|` columns. */
  function MetaOf(cols: seq<Column>, groups: seq<Json>): Meta
    decreases |cols|
  {
    if cols == [] then Meta(None, [], [])
    else MetaStep(MetaOf(cols[..|cols| - 1], groups), cols[|cols| - 1], groups)
  }

  /** One column: its id is listed; a `DATE` column becomes the time field; a
      `STRING` column adds the group list and its own id to the label fields. */
  function MetaStep(m: Meta, c: Column, groups: seq<Json>): Meta
  {
    Meta(if c.dbType == "DATE" then Some(c.id) else m.timeField,
         m.allFields + [c.id],
         if c.dbType == "STRING" then m.labelFields + groups + [JStr(c.id)] else m.labelFields)
  }

  /** `tableMeta(querySettings)`, given the columns `SHOW COLUMNS` lists. */
  method TableMeta(cols: seq<Column>, groupBy: Json) returns (m: Meta)
    ensures m == MetaOf(cols, GroupItems(groupBy))
  {
    var groups := GroupItems(groupBy);
    var timeField: Option<string> := None;
    var allFields: seq<string> := [];
    var labelFields: seq<Json> := [];
    var i := 0;
    while i < |cols|
      invariant i <= |cols|
      invariant Meta(timeField, allFields, labelFields) == MetaOf(cols[..i], groups)
    {
      assert cols[..i + 1][..i] == cols[..i];
      var c := cols[i];
      allFields := allFields + [c.id];
      if c.dbType == "DATE" {
        timeField := Some(c.id);
      } else if c.dbType == "STRING" {
        labelFields := labelFields + groups + [JStr(c.id)];
      }
      i := i + 1;
    }
    assert cols[..i] == cols;
    m := Meta(timeField, allFields, labelFields);
  }

  /** `allFields` lists every column id, in column order. */
  lemma {:induction false} AllFieldsInOrder(cols: seq<Column>, groups: seq<Json>)
    ensures MetaOf(cols, groups).allFields == seq(|cols|, i requires 0 <= i < |cols| => cols[i].id)
    decreases |cols|
  {
    if cols != [] {
      AllFieldsInOrder(cols[..|cols| - 1], groups);
    }
  }

  /** `timeField` is the id of the last `DATE` column, and `null` when there is none. */
  lemma {:induction false} TimeFieldIsLastDate(cols: seq<Column>, groups: seq<Json>)
    ensures MetaOf(cols, groups).timeField.None? <==> forall i :: 0 <= i < |cols| ==> cols[i].dbType != "DATE"
    ensures MetaOf(cols, groups).timeField.Some? ==>
      exists i :: 0 <= i < |cols| && cols[i].dbType == "DATE" && cols[i].id == MetaOf(cols, groups).timeField.value &&
        forall j :: i < j < |cols| ==> cols[j].dbType != "DATE"
    decreases |cols|
  {
    if cols != [] {
      var n := |cols|;
      TimeFieldIsLastDate(cols[..n - 1], groups);
      var pre := cols[..n - 1];
      var m := MetaOf(pre, groups);
      if cols[n - 1].dbType != "DATE" && m.timeField.Some? {
        var i :| 0 <= i < n - 1 && pre[i].dbType == "DATE" && pre[i].id == m.timeField.value &&
          forall j :: i < j < n - 1 ==> pre[j].dbType != "DATE";
        assert cols[i].dbType == "DATE" && cols[i].id == m.timeField.value;
      }
      if cols[n - 1].dbType != "DATE" && m.timeField.None? {
        assert forall i :: 0 <= i < n - 1 ==> pre[i].dbType != "DATE";
      }
    }
  }

  /** The ids of the `STRING` columns, in order. */
  function StringIds(cols: seq<Column>): seq<string>
    decreases |cols|
  {
    if cols == [] then []
    else StringIds(cols[..|cols| - 1]) + (if cols[|cols| - 1].dbType == "STRING" then [cols[|cols| - 1].id] else [])
  }

  /** The lists of `xss`, one after another. */
  function Concatenated<T>(xss: seq<seq<T>>): seq<T>
    decreases |xss|
  {
    if xss == [] then [] else Concatenated(xss[..|xss| - 1]) + xss[|xss| - 1]
  }

  /** `labelFields` is, for each `STRING` column in order, the group list followed by
      that column's id. */
  lemma {:induction false} LabelFieldsBlocks(cols: seq<Column>, groups: seq<Json>)
    ensures var ids := StringIds(cols);
      MetaOf(cols, groups).labelFields ==
        Concatenated(seq(|ids|, k requires 0 <= k < |ids| => groups + [JStr(ids[k])]))
    decreases |cols|
  {
    if cols != [] {
      var n := |cols|;
      LabelFieldsBlocks(cols[..n - 1], groups);
      var pre := StringIds(cols[..n - 1]);
      var ids := StringIds(cols);
      var blocks := seq(|ids|, k requires 0 <= k < |ids| => groups + [JStr(ids[k])]);
      var preBlocks := seq(|pre|, k requires 0 <= k < |pre| => groups + [JStr(pre[k])]);
      if cols[n - 1].dbType == "STRING" {
        assert blocks[..|blocks| - 1] == preBlocks;
      } else {
        assert blocks == preBlocks;
      }
    }
  }

  // ----- queryDatasource -----

  /** An entry of the `fields` list of a query: falsy, or `{ field, alias, fn, raw }`. */
  datatype FieldSlot = NoField | QField(field: string, alias: Json, fn: string, raw: Json)

  /** `SourceField` and `ComputedField` instances. */
  datatype Descriptor =
    | SourceDesc(name: string, fieldType: string, alias: Json)
    | ComputedDesc(field: string, alias: Json, fn: Json, raw: Json)

  /** `sourceField(name, type, alias)`: the type defaults to `'string'` and the alias
      to the name (only when undefined; a `null` alias stays `null`). */
  function SourceField(name: string, fieldType: Option<string>, alias: Json): (r: Descriptor)
    ensures r.SourceDesc? && r.name == name
    ensures r.fieldType == (if fieldType.Some? then fieldType.value else "string")
    ensures alias.JUndef? ==> r.alias == JStr(name)
    ensures !alias.JUndef? ==> r.alias == alias
  {
    SourceDesc(name, if fieldType.Some? then fieldType.value else "string", if alias.JUndef? then JStr(name) else alias)
  }

  /** `computedField(raw, fn, alias)`: the field is empty, and `fn` and the alias
      default to `null`. */
  function ComputedField(raw: Json, fn: Json, alias: Json): (r: Descriptor)
    ensures r.ComputedDesc? && r.field == "" && r.raw == raw
    ensures r.fn == (if fn.JUndef? then JNull else fn)
    ensures r.alias == (if alias.JUndef? then JNull else alias)
  {
    ComputedDesc("", if alias.JUndef? then JNull else alias, if fn.JUndef? then JNull else fn, raw)
  }

  /** The object `{ [columnid]: dbtypeid, ... }` the `reduce` of `queryDatasource`
      builds: a later column with the same id overwrites the type. */
  function TypeMap(cols: seq<Column>): seq<Prop>
    decreases |cols|
  {
    if cols == [] then []
    else ObjAssign(TypeMap(cols[..|cols| - 1]), cols[|cols| - 1].id, JStr(cols[|cols| - 1].dbType))
  }

  /** `TypeMap(cols)[field]` is defined for a column id, and for a name of an
      `Object.prototype` member it is an inherited function (which has no
      `toLowerCase`). */
  predicate TypeLookupSafe(cols: seq<Column>, field: string)
  {
    field in Keys(TypeMap(cols)) || !IsPrototypeKey(field)
  }

  /** `(dataTypesFromDB[field] || 'string').toLowerCase()`. */
  function ColumnType(cols: seq<Column>, field: string): string
    requires TypeLookupSafe(cols, field)
  {
    match ObjGet(TypeMap(cols), field)
    case Some(JStr(t)) => if t != "" then AsciiLower(t) else "string"
    case _ => "string"
  }

  /** One step of the `reduce`: the last column sets its own id and leaves the others. */
  lemma TypeMapStep(cols: seq<Column>, k: string)
    requires cols != []
    ensures ObjGet(TypeMap(cols), k) ==
      if k == cols[|cols| - 1].id then Some(JStr(cols[|cols| - 1].dbType)) else ObjGet(TypeMap(cols[..|cols| - 1]), k)
  {
    var last := cols[|cols| - 1];
    ObjGetAfterAssign(TypeMap(cols[..|cols| - 1]), last.id, JStr(last.dbType), k);
  }

  /** The type map holds, for each column id, the type of the last column with it. */
  lemma {:induction false} TypeMapLast(cols: seq<Column>, i: nat)
    requires i < |cols|
    requires forall j :: i < j < |cols| ==> cols[j].id != cols[i].id
    ensures ObjGet(TypeMap(cols), cols[i].id) == Some(JStr(cols[i].dbType))
    decreases |cols|
  {
    var n := |cols|;
    TypeMapStep(cols, cols[i].id);
    if i < n - 1 {
      var pre := cols[..n - 1];
      assert pre[i] == cols[i];
      forall j | i < j < |pre| ensures pre[j].id != pre[i].id {
        assert pre[j] == cols[j];
      }
      TypeMapLast(pre, i);
    }
  }

  /** A field that names no column has no type. */
  lemma {:induction false} TypeMapMissing(cols: seq<Column>, field: string)
    requires forall j :: 0 <= j < |cols| ==> cols[j].id != field
    ensures ObjGet(TypeMap(cols), field).None?
    decreases |cols|
  {
    if cols != [] {
      var n := |cols|;
      TypeMapMissing(cols[..n - 1], field);
      ObjGetAfterAssign(TypeMap(cols[..n - 1]), cols[n - 1].id, JStr(cols[n - 1].dbType), field);
    }
  }

  /** The truthy entries of `fields`, in order. */
  function Present(slots: seq<FieldSlot>): (r: seq<FieldSlot>)
    ensures forall k :: 0 <= k < |r| ==> r[k].QField?
    ensures |r| <= |slots|
    decreases |slots|
  {
    if slots == [] then []
    else Present(slots[..|slots| - 1]) + (if slots[|slots| - 1].QField? then [slots[|slots| - 1]] else [])
  }

  predicate DatasourceSafe(cols: seq<Column>, fields: Option<seq<FieldSlot>>)
  {
    fields.Some? ==>
      forall k :: 0 <= k < |fields.value| && fields.value[k].QField? && fields.value[k].fn == "all" ==>
        TypeLookupSafe(cols, fields.value[k].field)
  }

  lemma {:induction false} PresentFrom(slots: seq<FieldSlot>, k: nat)
    requires k < |Present(slots)|
    ensures exists j :: 0 <= j < |slots| && slots[j] == Present(slots)[k]
    decreases |slots|
  {
    var n := |slots|;
    if k < |Present(slots[..n - 1])| {
      PresentFrom(slots[..n - 1], k);
      var j :| 0 <= j < n - 1 && slots[..n - 1][j] == Present(slots[..n - 1])[k];
      assert slots[j] == Present(slots)[k];
    } else {
      assert slots[n - 1] == Present(slots)[k];
    }
  }

  /** The descriptor of one field: a source field when `fn` is `'all'`, typed from
      the table, and a computed field otherwise. */
  function Describe(cols: seq<Column>, f: FieldSlot): Descriptor
    requires f.QField?
    requires f.fn == "all" ==> TypeLookupSafe(cols, f.field)
  {
    if f.fn == "all" then SourceField(f.field, Some(ColumnType(cols, f.field)), f.alias)
    else ComputedField(f.raw, JUndef, JUndef)
  }

  /** `queryDatasource(querySettings)`: `fields` is `None` when it is not an array. */
  function QueryDatasource(cols: seq<Column>, fields: Option<seq<FieldSlot>>): (r: seq<Descriptor>)
    requires DatasourceSafe(cols, fields)
  {
    if fields.Some? && |cols| > 0 then
      var ps := Present(fields.value);
      seq(|ps|, k requires 0 <= k < |ps| =>
        PresentFrom(fields.value, k);
        Describe(cols, ps[k]))
    else []
  }

  /** The descriptors: nothing when `fields` is not an array or the table has no
      columns; otherwise one per truthy field, in order, where a source field of
      `fn === 'all'` takes the lower-cased type of the last column named like it
      (`'string'` when there is none) and its alias or its name, and any other field
      is computed with an empty field name and `null` function and alias. */
  lemma DatasourceFields(cols: seq<Column>, fields: Option<seq<FieldSlot>>, k: nat)
    requires DatasourceSafe(cols, fields)
    ensures fields.None? || cols == [] ==> QueryDatasource(cols, fields) == []
    ensures fields.Some? && cols != [] ==> |QueryDatasource(cols, fields)| == |Present(fields.value)|
    ensures fields.Some? && cols != [] && k < |Present(fields.value)| ==>
      var f := Present(fields.value)[k];
      var d := QueryDatasource(cols, fields)[k];
      (f.fn == "all" ==>
        d.SourceDesc? && d.name == f.field &&
        ((forall j :: 0 <= j < |cols| ==> cols[j].id != f.field) ==> d.fieldType == "string")) &&
      (f.fn != "all" ==> d == ComputedDesc("", JNull, JNull, f.raw))
  {
    if fields.Some? && cols != [] && k < |Present(fields.value)| {
      var f := Present(fields.value)[k];
      PresentFrom(fields.value, k);
      if f.fn == "all" && forall j :: 0 <= j < |cols| ==> cols[j].id != f.field {
        TypeMapMissing(cols, f.field);
      }
    }
  }

  /** A source field over a column takes that column's type, lower-cased. */
  lemma SourceTypeFromColumn(cols: seq<Column>, i: nat)
    requires i < |cols| && cols[i].dbType != ""
    requires forall j :: i < j < |cols| ==> cols[j].id != cols[i].id
    ensures TypeLookupSafe(cols, cols[i].id)
    ensures ColumnType(cols, cols[i].id) == AsciiLower(cols[i].dbType)
  {
    TypeMapLast(cols, i);
  }

  // ----- statements -----

  /** An `ORDER BY` entry: the field and the direction flag. */
  datatype Order = Order(field: Json, ascending: Json)

  /** A squel `SELECT`: the table, the `WHERE` text, the fields, the groups and the
      order entries, in the order they were added. */
  datatype Select = Select(from: string, where: Option<string>, fields: seq<string>, groups: seq<string>,
                           orders: seq<Order>)

  /** The options of a summary: the aggregate flags, the groups and the field. */
  datatype SummaryConfig = SummaryConfig(avg: Json, max: Json, min: Json, sum: Json, current: Json,
                                         groups: Json, field: Json)

  /** The truthy groups, as the text squel is given. */
  function GroupNames(groups: seq<Json>): (r: seq<string>)
    decreases |groups|
  {
    if groups == [] then []
    else GroupNames(groups[..|groups| - 1]) + (if Truthy(groups[|groups| - 1]) then [ToStr(groups[|groups| - 1])] else [])
  }

  /** The `LAST(g) as g` field of each group. */
  function LastFields(gs: seq<string>): (r: seq<string>)
    ensures |r| == |gs|
  {
    seq(|gs|, k requires 0 <= k < |gs| => "LAST(" + gs[k] + ") as " + gs[k])
  }

  /** The aggregate fields of the set flags, in the order average, maximum, minimum,
      total, current. */
  function Aggregates(c: SummaryConfig, f: string): seq<string>
  {
    (if Truthy(c.avg) then ["AVG(" + f + ") as Average"] else []) +
    (if Truthy(c.max) then ["MAX(" + f + ") as Maximum"] else []) +
    (if Truthy(c.min) then ["MIN(" + f + ") as Minumum"] else []) +
    (if Truthy(c.sum) then ["SUM(" + f + ") as Total"] else []) +
    (if Truthy(c.current) then ["LAST(" + f + ") as Current"] else [])
  }

  /** The statement `summary(qs)(config)` runs; `None` is the `[]` returned for an
      empty field. */
  function SummaryStatement(qs: Select, c: SummaryConfig): Option<Select>
  {
    if !Truthy(c.field) then None
    else
      var gs := GroupNames(GroupItems(c.groups));
      Some(qs.(fields := qs.fields + LastFields(gs) + Aggregates(c, ToStr(c.field)), groups := qs.groups + gs))
  }

  function Count(flags: seq<Json>): nat
  {
    if flags == [] then 0 else (if Truthy(flags[0]) then 1 else 0) + Count(flags[1..])
  }

  /** One aggregate field per set flag. */
  lemma AggregatesCount(c: SummaryConfig, f: string)
    ensures |Aggregates(c, f)| == Count([c.avg, c.max, c.min, c.sum, c.current])
  {
    var f5 := [c.avg, c.max, c.min, c.sum, c.current];
    var f4 := [c.max, c.min, c.sum, c.current];
    var f3 := [c.min, c.sum, c.current];
    var f2 := [c.sum, c.current];
    var f1 := [c.current];
    assert f5[1..] == f4 && f4[1..] == f3 && f3[1..] == f2 && f2[1..] == f1 && f1[1..] == [];
    assert Count(f1) == (if Truthy(c.current) then 1 else 0);
    assert Count(f2) == (if Truthy(c.sum) then 1 else 0) + Count(f1);
    assert Count(f3) == (if Truthy(c.min) then 1 else 0) + Count(f2);
    assert Count(f4) == (if Truthy(c.max) then 1 else 0) + Count(f3);
    assert Count(f5) == (if Truthy(c.avg) then 1 else 0) + Count(f4);
  }

  /** A summary keeps the base statement (it works on a clone) and adds to it, for
      each truthy group, a `LAST` field and a `GROUP BY`, then one aggregate field per
      set flag; with an empty field there is no statement. */
  lemma SummaryExtendsBase(qs: Select, c: SummaryConfig)
    ensures SummaryStatement(qs, c).None? <==> !Truthy(c.field)
    ensures SummaryStatement(qs, c).Some? ==>
      var s := SummaryStatement(qs, c).value;
      var gs := GroupNames(GroupItems(c.groups));
      s.from == qs.from && s.where == qs.where && s.orders == qs.orders &&
      s.groups[..|qs.groups|] == qs.groups &&
      s.groups[|qs.groups|..] == gs &&
      s.fields[..|qs.fields|] == qs.fields &&
      |s.fields| == |qs.fields| + |gs| + Count([c.avg, c.max, c.min, c.sum, c.current])
  {
    if Truthy(c.field) {
      var s := SummaryStatement(qs, c).value;
      var gs := GroupNames(GroupItems(c.groups));
      assert s.groups == qs.groups + gs;
      assert s.fields == qs.fields + (LastFields(gs) + Aggregates(c, ToStr(c.field)));
      AggregatesCount(c, ToStr(c.field));
    }
  }

  /** Only truthy groups are kept, and every one is. */
  lemma {:induction false} GroupNamesTruthy(groups: seq<Json>)
    ensures |GroupNames(groups)| <= |groups|
    ensures (forall k :: 0 <= k < |groups| ==> Truthy(groups[k])) ==>
      GroupNames(groups) == seq(|groups|, k requires 0 <= k < |groups| => ToStr(groups[k]))
    ensures (forall k :: 0 <= k < |groups| ==> !Truthy(groups[k])) ==> GroupNames(groups) == []
    decreases |groups|
  {
    if groups != [] {
      GroupNamesTruthy(groups[..|groups| - 1]);
    }
  }

  // ----- queryFactory -----

  /** The settings of one query of a component. */
  datatype QuerySettings = QuerySettings(
    table: string,
    queryString: string,
    conditions: Option<Node>,
    groupBy: Json,
    order: Option<Order>,
    key: Json,
    isArray: Json,
    fields: Option<seq<FieldSlot>>)

  /** The runner `queryFactory` returns; `execute` and the summary's execution run
      the statements on the engine and are not part of the record. */
  datatype QueryRunner = QueryRunner(
    tableMeta: Meta,
    queryString: Option<Select>,
    withFields: Option<Select>,
    datasource: seq<Descriptor>,
    query: string,
    key: Json,
    isArray: Json)

  predicate IsGrouped(s: QuerySettings)
  {
    s.groupBy.JArr? && |s.groupBy.elems| > 0
  }

  /** The conditions are a group with at least one child. */
  predicate HasRules(c: Option<Node>)
  {
    c.Some? && c.value.Group? && |c.value.rules| > 0
  }

  /** Whether a statement is built. */
  predicate BuildsStatement(s: QuerySettings)
  {
    IsGrouped(s) || HasRules(s.conditions)
  }

  /** `SHOW COLUMNS FROM` the table of `id`: its columns, and none for a table that
      is not in the store. */
  function ShowColumns(tables: map<string, Table>, id: string): (r: seq<Column>)
    ensures TableName(id) !in tables ==> r == []
    ensures TableName(id) in tables ==> r == tables[TableName(id)].columns
  {
    if TableName(id) in tables then tables[TableName(id)].columns else []
  }

  /** What `queryFactory` dereferences: the conditions when not grouped, the
      conditions as a group the compiler can walk when they are compiled, and the
      column types it looks up. */
  predicate FactoryDefined(s: QuerySettings, tables: map<string, Table>)
  {
    (s.table != "" ==> IsGrouped(s) || s.conditions.Some?) &&
    (s.table != "" && BuildsStatement(s) && s.conditions.Some? ==> Supported(s.conditions.value)) &&
    (s.table != "" ==> DatasourceSafe(ShowColumns(tables, s.table), s.fields))
  }

  /** The `SELECT` on the table with the conditions' `WHERE` text, if any. */
  function BaseStatement(s: QuerySettings): Result<Select, WhereError>
    requires s.conditions.Some? ==> Supported(s.conditions.value)
  {
    var base := Select(TableName(s.table), None, [], [], []);
    if s.conditions.Some? then
      var out :- Compile(StmtOff, false, s.conditions.value);
      Ok(base.(where := Some(out.sql)))
    else Ok(base)
  }

  /** The statement with the groups of `groupBy` and the order, if any. */
  function WithFields(qs: Select, s: QuerySettings): Select
  {
    qs.(groups := qs.groups + (if IsGrouped(s) then seq(|s.groupBy.elems|, k requires 0 <= k < |s.groupBy.elems| => ToStr(s.groupBy.elems[k])) else []),
        orders := qs.orders + (if s.order.Some? then [s.order.value] else []))
  }

  /** `queryFactory(querySettings)`: `None` is the empty object returned without a
      table; an error is the exception the compiler raises on the conditions. */
  function QueryFactory(s: QuerySettings, tables: map<string, Table>): Result<Option<QueryRunner>, WhereError>
    requires FactoryDefined(s, tables)
  {
    var query := ReplaceFirst(s.queryString, s.table, TableName(s.table));
    if s.table == "" then Ok(None)
    else
      var stmt :- if BuildsStatement(s) then
          var b :- BaseStatement(s);
          Ok(Some(b))
        else Ok(None);
      var cols := ShowColumns(tables, s.table);
      Ok(Some(QueryRunner(
        MetaOf(cols, GroupItems(s.groupBy)),
        stmt,
        if stmt.Some? then Some(WithFields(stmt.value, s)) else None,
        QueryDatasource(cols, s.fields),
        query,
        s.key,
        if s.isArray.JUndef? then JBool(false) else s.isArray)))
  }

  /** Without a table there is no runner. With one, a statement on the table is built
      exactly when the query is grouped or its conditions have rules; it carries a
      `WHERE` exactly when conditions are given; the runner's statement with fields
      adds the groups and order to it; and the only error is the compiler's. */
  lemma FactoryStatement(s: QuerySettings, tables: map<string, Table>)
    requires FactoryDefined(s, tables)
    ensures s.table == "" ==> QueryFactory(s, tables) == Ok(None)
    ensures s.table != "" && QueryFactory(s, tables).Ok? ==>
      var r := QueryFactory(s, tables).value;
      r.Some? &&
      (r.value.queryString.Some? <==> BuildsStatement(s)) &&
      (r.value.queryString.Some? ==>
        r.value.queryString.value.from == TableName(s.table) &&
        (r.value.queryString.value.where.Some? <==> s.conditions.Some?) &&
        r.value.withFields == Some(WithFields(r.value.queryString.value, s)))
    ensures QueryFactory(s, tables).Err? <==>
      s.table != "" && BuildsStatement(s) && s.conditions.Some? &&
      Compile(StmtOff, false, s.conditions.value).Err?
  {
  }

  /** A query on a table not in the store still gets a runner: its metadata lists no
      field and its datasource is empty. */
  lemma FactoryWithoutTable(s: QuerySettings, tables: map<string, Table>)
    requires FactoryDefined(s, tables) && s.table != "" && TableName(s.table) !in tables
    requires QueryFactory(s, tables).Ok?
    ensures var r := QueryFactory(s, tables).value;
      r.Some? && r.value.tableMeta == Meta(None, [], []) && r.value.datasource == []
  {
    assert ShowColumns(tables, s.table) == [];
  }

  /** The raw query text names the table: its first occurrence is replaced by the
      table name (a table id free of `$` is inserted verbatim). */
  lemma FactoryQueryText(s: QuerySettings, tables: map<string, Table>)
    requires FactoryDefined(s, tables) && s.table != "" && '$' !in s.table
    requires QueryFactory(s, tables).Ok?
    ensures var q := QueryFactory(s, tables).value.value.query;
      match IndexOf(s.queryString, s.table, 0)
      case None => q == s.queryString
      case Some(p) => q == s.queryString[..p] + TableName(s.table) + s.queryString[p + |s.table|..]
  {
    TableNameShape(s.table);
    assert '$' !in "datasource_";
    assert '$' !in Underscored(s.table);
    ReplaceFirstLiteral(s.queryString, s.table, TableName(s.table));
  }
}
