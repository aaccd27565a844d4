/** The tables of the in-memory SQL engine as the data layer keeps them: one table
    per datasource, named after the datasource id, holding its columns and its rows.
    The engine itself is not modelled: a table is the column list its `CREATE TABLE`
    statement declares and the `data` value the layer assigns. */
module Store {

  import opened Outcomes
  import opened JsString
  import opened JsValue

  /** `getTableName(id)`. */
  function TableName(id: string): string
  {
    ReplaceAllChar("datasource_" + id, '-', '_')
  }

  function Underscored(id: string): string
  {
    ReplaceAllChar(id, '-', '_')
  }

  /** The table name is the prefix `datasource_` and the id with every `-` turned
      into `_`; so it never holds a `-`. */
  lemma TableNameShape(id: string)
    ensures TableName(id) == "datasource_" + Underscored(id)
    ensures '-' !in TableName(id)
  {
    var t := TableName(id);
    assert t[..11] == "datasource_";
    assert t[11..] == Underscored(id);
    assert t == t[..11] + t[11..];
    assert forall i :: 0 <= i < |t| ==> t[i] != '-';
  }

  /** Two ids share a table exactly when they agree once `-` is read as `_`: the
      name does not tell `a-b` from `a_b`. */
  lemma TableNameCollision(a: string, b: string)
    ensures TableName(a) == TableName(b) <==> Underscored(a) == Underscored(b)
    ensures TableName("a-b") == TableName("a_b")
  {
    TableNameShape(a);
    TableNameShape(b);
    if TableName(a) == TableName(b) {
      assert Underscored(a) == TableName(a)[11..];
    }
    TableNameShape("a-b");
    TableNameShape("a_b");
    assert Underscored("a-b") == "a_b";
    assert Underscored("a_b") == "a_b";
  }

  // ----- columns -----

  /** A field of a datasource, `{ name, type }`. */
  datatype FieldDef = FieldDef(name: string, fieldType: string)

  /** A column as `SHOW COLUMNS` lists it: `columnid` and `dbtypeid`. */
  datatype Column = Column(id: string, dbType: string)

  datatype Table = Table(columns: seq<Column>, rows: Json)

  /** A datasource as `insertData` receives it. */
  datatype Datasource = Datasource(id: string, fields: seq<FieldDef>)

  /** One column declaration: the name, a space and the upper-cased type. */
  function ColumnText(f: FieldDef): string
  {
    f.name + " " + AsciiUpper(f.fieldType)
  }

  /** `CreateFieldBlock._toParamString`: the column declarations, comma separated,
      in parentheses. */
  function FieldList(fields: seq<FieldDef>): (r: string)
    ensures |r| >= 2 && r[0] == '(' && r[|r| - 1] == ')'
  {
    "(" + Join(ColumnTexts(fields), ", ") + ")"
  }

  /** The columns a table created from `fields` has. */
  function ColumnsOf(fields: seq<FieldDef>): (r: seq<Column>)
    ensures |r| == |fields|
  {
    seq(|fields|, i requires 0 <= i < |fields| => Column(fields[i].name, AsciiUpper(fields[i].fieldType)))
  }

  lemma UpperKeepsComma(s: string)
    requires ',' !in s
    ensures ',' !in AsciiUpper(s)
  {
    assert forall j :: 0 <= j < |s| ==> AsciiUpper(s)[j] == UpperChar(s[j]) != ',';
  }

  /** The column declarations, in order. */
  function ColumnTexts(fields: seq<FieldDef>): (r: seq<string>)
    ensures |r| == |fields|
  {
    seq(|fields|, i requires 0 <= i < |fields| => ColumnText(fields[i]))
  }

  lemma ShiftedPiece(fields: seq<FieldDef>, k: nat)
    requires k < |fields| && ',' !in fields[k].name && ',' !in fields[k].fieldType
    ensures var piece := Shifted(ColumnTexts(fields), " ")[k];
      ',' !in piece &&
      piece == (if k == 0 then "" else " ") + ColumnsOf(fields)[k].id + " " + ColumnsOf(fields)[k].dbType
  {
    var u := AsciiUpper(fields[k].fieldType);
    UpperKeepsComma(fields[k].fieldType);
    var lead: string := if k == 0 then "" else " ";
    var piece := lead + fields[k].name + " " + u;
    assert Shifted(ColumnTexts(fields), " ")[k] == piece;
    assert ',' !in lead + fields[k].name;
    assert ',' !in lead + fields[k].name + " ";
  }

  /** Reading the declaration list back: split between the parentheses at each comma,
      every piece after the first starts with the space of `", "`, and each piece is
      one field's name and upper-cased type, in order. */
  lemma FieldListSplit(fields: seq<FieldDef>)
    requires |fields| > 0
    requires forall i :: 0 <= i < |fields| ==> ',' !in fields[i].name && ',' !in fields[i].fieldType
    ensures var r := FieldList(fields);
      var pieces := Split(r[1..|r| - 1], ',');
      |pieces| == |fields| &&
      forall i :: 0 <= i < |fields| ==>
        pieces[i] == (if i == 0 then "" else " ") + ColumnsOf(fields)[i].id + " " + ColumnsOf(fields)[i].dbType
  {
    var texts := ColumnTexts(fields);
    var r := FieldList(fields);
    assert r == "(" + Join(texts, ", ") + ")";
    assert r[1..|r| - 1] == Join(texts, ", ");
    assert ", " == [','] + " ";
    JoinShifted(texts, ',', " ");
    forall k | 0 <= k < |fields|
      ensures ',' !in Shifted(texts, " ")[k]
      ensures Shifted(texts, " ")[k] ==
        (if k == 0 then "" else " ") + ColumnsOf(fields)[k].id + " " + ColumnsOf(fields)[k].dbType
    {
      ShiftedPiece(fields, k);
    }
    SplitJoin(Shifted(texts, " "), ',');
  }

  // ----- the table registry -----

  /** `createTable(id, fields)`: a no-op when the table exists. */
  function Created(ts: map<string, Table>, id: string, fields: seq<FieldDef>): map<string, Table>
  {
    if TableName(id) in ts then ts else ts[TableName(id) := Table(ColumnsOf(fields), JArr([]))]
  }

  /** `dropTable(id)`. */
  function Dropped(ts: map<string, Table>, id: string): map<string, Table>
  {
    ts - {TableName(id)}
  }

  /** The rows `concat` can extend: an array, or a string (which `concat` turns into
      a longer string). On anything else `concat` is not a function. */
  predicate Concatenable(rows: Json)
  {
    rows.JArr? || rows.JStr?
  }

  /** `rows.concat(data)`: an array argument is spread, any other is appended. */
  function Concat(rows: Json, data: Json): (r: Json)
    requires Concatenable(rows)
  {
    if rows.JStr? then JStr(rows.s + ToStr(data))
    else JArr(rows.elems + (if data.JArr? then data.elems else [data]))
  }

  /** `writeData(name, data, overwrite)`. */
  function Written(ts: map<string, Table>, name: string, data: Json, overwrite: bool): map<string, Table>
    requires name in ts
    requires !overwrite ==> Concatenable(ts[name].rows)
  {
    ts[name := ts[name].(rows := if overwrite then data else Concat(ts[name].rows, data))]
  }

  /** Additional properties of `addData`: the jsonata expressions that extract the
      field names and the rows from the payload (the empty string when absent). */
  datatype Extraction = Extraction(extractFields: string, extractData: string)

  /** The uninterpreted jsonata evaluation: `executeAta(expression, data)`, which is
      `false` when the expression fails. */
  type Extractor = (string, Json) -> Json

  /** A value as `zipObject` indexes it: an array's elements, a string's characters,
      and nothing for any other value (it has no `length`). */
  function Indexed(v: Json): seq<Json>
  {
    match v
    case JArr(xs) => xs
    case JStr(s) => seq(|s|, i requires 0 <= i < |s| => JStr([s[i]]))
    case _ => []
  }

  function ValueAt(vals: seq<Json>, i: nat): Json
  {
    if i < |vals| then vals[i] else JUndef
  }

  /** The property keys names stand for. */
  function KeyStrs(names: seq<Json>): (r: seq<string>)
    ensures |r| == |names|
  {
    seq(|names|, i requires 0 <= i < |names| => ToStr(names[i]))
  }

  /** The properties `zipObject` assigns for the keys, in order. */
  function ZipProps(keys: seq<string>, vals: seq<Json>): seq<Prop>
    decreases |keys|
  {
    if keys == [] then []
    else ObjAssign(ZipProps(keys[..|keys| - 1], vals), keys[|keys| - 1], ValueAt(vals, |keys| - 1))
  }

  /** lodash `zipObject(names, values)`. */
  function ZipObject(names: Json, values: Json): Json
  {
    JObj(ZipProps(KeyStrs(Indexed(names)), Indexed(values)))
  }

  /** The field names `addData` zips with by default. */
  function FieldNames(fields: seq<FieldDef>): (r: seq<Json>)
    ensures |r| == |fields|
  {
    seq(|fields|, i requires 0 <= i < |fields| => JStr(fields[i].name))
  }

  /** A payload whose first row is itself an array. */
  predicate IsZipped(rows: Json)
  {
    rows.JArr? && |rows.elems| > 0 && rows.elems[0].JArr?
  }

  /** The value `addData` writes: the extracted (or given) rows, each zipped with the
      field names when the rows are arrays and names are available. */
  function RowsToWrite(fields: seq<FieldDef>, data: Json, ex: Extraction, ata: Extractor): Json
  {
    var rows := if ex.extractData != "" then ata(ex.extractData, data) else data;
    var names := if ex.extractFields != "" then ata(ex.extractFields, data) else JArr(FieldNames(fields));
    if IsZipped(rows) && Truthy(names) then
      JArr(seq(|rows.elems|, i requires 0 <= i < |rows.elems| => ZipObject(names, rows.elems[i])))
    else rows
  }

  /** What `addData` needs of an existing table it appends to. */
  predicate CanAdd(ts: map<string, Table>, id: string, data: Json, overwrite: bool)
  {
    !overwrite && Truthy(data) && TableName(id) in ts ==> Concatenable(ts[TableName(id)].rows)
  }

  /** `addData(id, fields, data, overwrite, additionalProps)`. */
  function Added(ts: map<string, Table>, id: string, fields: seq<FieldDef>, data: Json, overwrite: bool,
                 ex: Extraction, ata: Extractor): map<string, Table>
    requires CanAdd(ts, id, data, overwrite)
  {
    var created := Created(ts, id, fields);
    if !Truthy(data) then created
    else Written(created, TableName(id), RowsToWrite(fields, data, ex, ata), overwrite)
  }

  /** The payload `insertData` hands to `addData`: an array as it is, anything else
      as a one-element array. */
  function InsertPayload(data: Json): (r: Json)
  {
    if data.JArr? then data else JArr([data])
  }

  /** `insertData(datasource, data, additionalProps)`. */
  function Inserted(ts: map<string, Table>, ds: Datasource, data: Json, ex: Extraction, ata: Extractor): map<string, Table>
  {
    Added(ts, ds.id, ds.fields, InsertPayload(data), true, ex, ata)
  }

  /** The engine's table registry, `alasql.tables`, for the tables of the data layer. */
  class TableStore {
    var tables: map<string, Table>

    constructor ()
      ensures tables == map[]
    {
      tables := map[];
    }

    method CreateTable(id: string, fields: seq<FieldDef>)
      modifies this
      ensures tables == Created(old(tables), id, fields)
    {
      var name := TableName(id);
      if name !in tables {
        tables := tables[name := Table(ColumnsOf(fields), JArr([]))];
      }
    }

    method DropTable(id: string)
      modifies this
      ensures tables == Dropped(old(tables), id)
    {
      var name := TableName(id);
      if name in tables {
        tables := map n | n in tables && n != name :: tables[n];
      }
    }

    method DropOrCreateTable(id: string, fields: seq<FieldDef>)
      modifies this
      ensures tables == Created(Dropped(old(tables), id), id, fields)
    {
      DropTable(id);
      CreateTable(id, fields);
    }

    method WriteData(name: string, data: Json, overwrite: bool)
      requires name in tables
      requires !overwrite ==> Concatenable(tables[name].rows)
      modifies this
      ensures tables == Written(old(tables), name, data, overwrite)
    {
      var t := tables[name];
      if overwrite {
        tables := tables[name := t.(rows := data)];
      } else {
        tables := tables[name := t.(rows := Concat(t.rows, data))];
      }
    }

    method AddData(id: string, fields: seq<FieldDef>, data: Json, overwrite: bool, ex: Extraction, ata: Extractor)
      requires CanAdd(tables, id, data, overwrite)
      modifies this
      ensures tables == Added(old(tables), id, fields, data, overwrite, ex, ata)
    {
      var name := TableName(id);
      CreateTable(id, fields);
      if Truthy(data) {
        var rows := data;
        var names := JArr(FieldNames(fields));
        if ex.extractData != "" {
          rows := ata(ex.extractData, data);
        }
        var zipped := IsZipped(rows);
        if ex.extractFields != "" {
          names := ata(ex.extractFields, data);
        }
        if zipped && Truthy(names) {
          rows := JArr(seq(|rows.elems|, i requires 0 <= i < |rows.elems| => ZipObject(names, rows.elems[i])));
        }
        WriteData(name, rows, overwrite);
      }
    }

    method InsertData(ds: Datasource, data: Json, ex: Extraction, ata: Extractor)
      modifies this
      ensures tables == Inserted(old(tables), ds, data, ex, ata)
    {
      if data.JArr? {
        AddData(ds.id, ds.fields, data, true, ex, ata);
      } else {
        AddData(ds.id, ds.fields, JArr([data]), true, ex, ata);
      }
    }
  }

  // ----- properties of the registry operations -----

  /** Creating a table that exists changes nothing, so a second `createTable` is a
      no-op whatever fields it names; the first creation leaves the table with the
      declared columns and no rows, and every other table untouched. */
  lemma CreateIdempotent(ts: map<string, Table>, id: string, fields: seq<FieldDef>, other: seq<FieldDef>)
    ensures Created(Created(ts, id, fields), id, other) == Created(ts, id, fields)
    ensures TableName(id) !in ts ==> Created(ts, id, fields)[TableName(id)] == Table(ColumnsOf(fields), JArr([]))
    ensures forall n :: n != TableName(id) ==>
      (n in Created(ts, id, fields) <==> n in ts) &&
      (n in ts ==> Created(ts, id, fields)[n] == ts[n])
  {
  }

  /** `dropTable` removes the datasource's table if present and nothing else; on an
      absent table it is a no-op. */
  lemma DropOnlyThatTable(ts: map<string, Table>, id: string)
    ensures TableName(id) !in Dropped(ts, id)
    ensures TableName(id) !in ts ==> Dropped(ts, id) == ts
    ensures forall n :: n != TableName(id) ==>
      (n in Dropped(ts, id) <==> n in ts) && (n in ts ==> Dropped(ts, id)[n] == ts[n])
  {
  }

  /** After `dropOrCreateTable` the table exists with exactly the given columns and
      no rows, whatever it held before; other tables are untouched. */
  lemma DropOrCreateFresh(ts: map<string, Table>, id: string, fields: seq<FieldDef>)
    ensures var r := Created(Dropped(ts, id), id, fields);
      TableName(id) in r && r[TableName(id)] == Table(ColumnsOf(fields), JArr([])) &&
      forall n :: n != TableName(id) ==> (n in r <==> n in ts) && (n in ts ==> r[n] == ts[n])
  {
  }

  /** `writeData` with overwrite leaves exactly the new rows; without, it puts the new
      rows after the existing ones (spreading an array payload). Columns and other
      tables do not change. */
  lemma WriteReplacesOrAppends(ts: map<string, Table>, name: string, data: Json, overwrite: bool)
    requires name in ts
    requires !overwrite ==> ts[name].rows.JArr?
    ensures var r := Written(ts, name, data, overwrite);
      r.Keys == ts.Keys &&
      r[name].columns == ts[name].columns &&
      (overwrite ==> r[name].rows == data) &&
      (!overwrite ==>
        r[name].rows.JArr? &&
        r[name].rows.elems[..|ts[name].rows.elems|] == ts[name].rows.elems &&
        r[name].rows.elems[|ts[name].rows.elems|..] == (if data.JArr? then data.elems else [data])) &&
      forall n :: n in ts && n != name ==> r[n] == ts[n]
  {
    var r := Written(ts, name, data, overwrite);
    if !overwrite {
      var old_ := ts[name].rows.elems;
      var new_ := if data.JArr? then data.elems else [data];
      assert r[name].rows.elems == old_ + new_;
      assert (old_ + new_)[..|old_|] == old_;
      assert (old_ + new_)[|old_|..] == new_;
    }
  }

  /** `addData` always leaves the table in place, and with a falsy payload writes
      nothing. */
  lemma AddFalsyOnlyCreates(ts: map<string, Table>, id: string, fields: seq<FieldDef>, data: Json, overwrite: bool,
                            ex: Extraction, ata: Extractor)
    requires CanAdd(ts, id, data, overwrite)
    ensures TableName(id) in Added(ts, id, fields, data, overwrite, ex, ata)
    ensures !Truthy(data) ==> Added(ts, id, fields, data, overwrite, ex, ata) == Created(ts, id, fields)
  {
  }

  /** `insertData` always overwrites: a payload that is not an array becomes a
      one-element array, and without extraction and array rows it is stored as
      given. The table keeps its columns when it existed and gets the datasource's
      otherwise. */
  lemma InsertWrapsAndOverwrites(ts: map<string, Table>, ds: Datasource, data: Json, ata: Extractor)
    requires !IsZipped(data)
    ensures var r := Inserted(ts, ds, data, Extraction("", ""), ata);
      TableName(ds.id) in r &&
      r[TableName(ds.id)].rows == (if data.JArr? then data else JArr([data])) &&
      r[TableName(ds.id)].columns ==
        (if TableName(ds.id) in ts then ts[TableName(ds.id)].columns else ColumnsOf(ds.fields))
  {
    var payload := InsertPayload(data);
    assert !IsZipped(payload);
    assert Truthy(payload);
    assert RowsToWrite(ds.fields, payload, Extraction("", ""), ata) == payload;
  }

  // ----- zipping -----

  /** The keys of a zipped record are the names, in order, when they are distinct. */
  lemma {:induction false} ZipPropsKeys(keys: seq<string>, vals: seq<Json>)
    requires forall i, j :: 0 <= i < j < |keys| ==> keys[i] != keys[j]
    ensures Keys(ZipProps(keys, vals)) == keys
    ensures DistinctKeys(ZipProps(keys, vals))
    decreases |keys|
  {
    if keys != [] {
      var n := |keys|;
      var pre := keys[..n - 1];
      var k := keys[n - 1];
      var v := ValueAt(vals, n - 1);
      ZipPropsKeys(pre, vals);
      var ps := ZipProps(pre, vals);
      LastNameFresh(keys);
      assert ZipProps(keys, vals) == ps + [Prop(k, v)];
      AssignKeepsDistinct(ps, k, v);
      KeysAppend(ps, Prop(k, v));
      LastSplit(keys);
    }
  }

  lemma LastSplit(keys: seq<string>)
    requires keys != []
    ensures keys == keys[..|keys| - 1] + [keys[|keys| - 1]]
  {
  }

  /** With distinct names, the last name is not among the earlier ones. */
  lemma LastNameFresh(keys: seq<string>)
    requires keys != []
    requires forall i, j :: 0 <= i < j < |keys| ==> keys[i] != keys[j]
    ensures keys[|keys| - 1] !in keys[..|keys| - 1]
  {
    var n := |keys|;
    var pre := keys[..n - 1];
    forall i | 0 <= i < |pre| ensures pre[i] != keys[n - 1] {
      assert pre[i] == keys[i];
    }
  }

  /** `zipObject` pairs the `i`-th name with the `i`-th value (`undefined` past the
      end of the values), when the names are distinct. */
  lemma {:induction false} ZipPropsPairs(keys: seq<string>, vals: seq<Json>, i: nat)
    requires i < |keys|
    requires forall a, b :: 0 <= a < b < |keys| ==> keys[a] != keys[b]
    ensures ObjGet(ZipProps(keys, vals), keys[i]) == Some(ValueAt(vals, i))
    decreases |keys|
  {
    var n := |keys|;
    ObjGetAfterAssign(ZipProps(keys[..n - 1], vals), keys[n - 1], ValueAt(vals, n - 1), keys[i]);
    if i < n - 1 {
      ZipPropsPairs(keys[..n - 1], vals, i);
    }
  }

  /** The rows `addData` writes for a zipped payload without extraction. */
  lemma ZippedRows(fields: seq<FieldDef>, data: Json, ata: Extractor)
    requires IsZipped(data)
    ensures RowsToWrite(fields, data, Extraction("", ""), ata) ==
      JArr(seq(|data.elems|, i requires 0 <= i < |data.elems| => ZipObject(JArr(FieldNames(fields)), data.elems[i])))
  {
    assert Truthy(JArr(FieldNames(fields)));
  }

  /** When `addData` zips, each written row `r` is a record that maps the `j`-th
      field name to the `j`-th cell of the `r`-th payload row. */
  lemma AddZipsRows(ts: map<string, Table>, id: string, fields: seq<FieldDef>, data: Json, overwrite: bool,
                    ata: Extractor, r: nat, j: nat)
    requires CanAdd(ts, id, data, overwrite)
    requires overwrite && IsZipped(data) && r < |data.elems| && j < |fields|
    requires forall a, b :: 0 <= a < b < |fields| ==> fields[a].name != fields[b].name
    ensures var t := Added(ts, id, fields, data, overwrite, Extraction("", ""), ata)[TableName(id)];
      t.rows.JArr? && |t.rows.elems| == |data.elems| &&
      t.rows.elems[r].JObj? &&
      ObjGet(t.rows.elems[r].props, fields[j].name) == Some(ValueAt(Indexed(data.elems[r]), j))
  {
    var names := FieldNames(fields);
    ZippedRows(fields, data, ata);
    var rows := RowsToWrite(fields, data, Extraction("", ""), ata);
    assert Added(ts, id, fields, data, overwrite, Extraction("", ""), ata)[TableName(id)].rows == rows;
    var keys := KeyStrs(Indexed(JArr(names)));
    assert forall a :: 0 <= a < |fields| ==> keys[a] == fields[a].name;
    assert rows.elems[r] == JObj(ZipProps(keys, Indexed(data.elems[r])));
    ZipPropsPairs(keys, Indexed(data.elems[r]), j);
  }
}
