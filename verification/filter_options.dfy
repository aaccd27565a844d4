/** `getMultiValueFilterOptions`: the options of the multi-value filter, one per
    distinct value found in the rows of the component's queries under a field the
    filter is configured for. */
module FilterOptions {

  import opened Outcomes
  import opened JsString
  import opened JsValue
  import opened Flatten

  /** An entry of `fieldsToFilter`. */
  datatype FilterField = FilterField(datasource: string, fieldName: string)

  /** `multiValueFilter`: `fieldsToFilter` is `None` when absent. */
  datatype MultiValueConfig = MultiValueConfig(enabled: Json, fieldsToFilter: Option<seq<FilterField>>)

  /** An entry of a query's `fields`: `{ field, alias }`. */
  datatype AliasField = AliasField(field: Json, alias: Json)

  /** A query of the component as the options see it. */
  datatype QueryEntry = QueryEntry(tableName: string, fields: seq<AliasField>)

  /** A configured field matched to its query. */
  datatype ValidFilter = ValidFilter(datasource: string, fieldName: Json, alias: Json)

  /** `{ alias, field, key, value }`. */
  datatype MVOption = MVOption(alias: Json, field: Json, key: string, value: Json)

  /** `tableName && fieldName && tableName.toLowerCase() === datasource.toLowerCase()`. */
  predicate QueryMatches(q: QueryEntry, f: FilterField)
  {
    q.tableName != "" && f.fieldName != "" && AsciiLower(q.tableName) == AsciiLower(f.datasource)
  }

  /** The first query whose table name matches the datasource, ignoring case. */
  function FindQuery(queries: seq<QueryEntry>, f: FilterField): (r: Option<QueryEntry>)
    ensures r.Some? ==> r.value in queries && QueryMatches(r.value, f)
    ensures r.None? ==> forall q :: q in queries ==> !QueryMatches(q, f)
    ensures forall i | 0 <= i < |queries| && QueryMatches(queries[i], f) ::
      (forall j :: 0 <= j < i ==> !QueryMatches(queries[j], f)) ==> r == Some(queries[i])
  {
    if queries == [] then None
    else if QueryMatches(queries[0], f) then Some(queries[0])
    else
      var r := FindQuery(queries[1..], f);
      assert forall i :: 0 < i < |queries| ==> queries[i] == queries[1..][i - 1];
      r
  }

  /** `alias === fieldName`. */
  predicate AliasMatches(a: AliasField, name: string)
  {
    StrictEq(a.alias, JStr(name))
  }

  /** The first field of the query whose alias is the configured field name. */
  function FindAlias(fields: seq<AliasField>, name: string): (r: Option<AliasField>)
    ensures r.Some? ==> r.value in fields && AliasMatches(r.value, name)
    ensures r.None? ==> forall a :: a in fields ==> !AliasMatches(a, name)
    ensures forall i | 0 <= i < |fields| && AliasMatches(fields[i], name) ::
      (forall j :: 0 <= j < i ==> !AliasMatches(fields[j], name)) ==> r == Some(fields[i])
  {
    if fields == [] then None
    else if AliasMatches(fields[0], name) then Some(fields[0])
    else
      var r := FindAlias(fields[1..], name);
      assert forall i :: 0 < i < |fields| ==> fields[i] == fields[1..][i - 1];
      r
  }

  /** The mapping of one configured field: `false` without datasource or matching
      query; otherwise the source field behind the alias (or the name itself) and
      the alias. */
  function Validate(queries: seq<QueryEntry>, f: FilterField): Option<ValidFilter>
  {
    if f.datasource == "" then None
    else match FindQuery(queries, f)
      case None => None
      case Some(q) =>
        match FindAlias(q.fields, f.fieldName)
        case None => Some(ValidFilter(f.datasource, JStr(f.fieldName), JUndef))
        case Some(a) => Some(ValidFilter(f.datasource, if Truthy(a.field) then a.field else JStr(f.fieldName), a.alias))
  }

  function ValidFilters(queries: seq<QueryEntry>, fs: seq<FilterField>): seq<ValidFilter>
    decreases |fs|
  {
    if fs == [] then []
    else
      var last := match Validate(queries, fs[|fs| - 1]) case None => [] case Some(v) => [v];
      ValidFilters(queries, fs[..|fs| - 1]) + last
  }

  /** `key.split('.').pop()`. */
  function LastSegment(key: string): (r: string)
    ensures '.' !in r
  {
    match LastIndexOf(key, '.')
    case None => key
    case Some(i) => key[i + 1..]
  }

  /** `alias ? optionFieldName === alias : optionFieldName === fieldName`. */
  predicate FilterMatches(v: ValidFilter, name: string)
  {
    if Truthy(v.alias) then StrictEq(JStr(name), v.alias) else StrictEq(JStr(name), v.fieldName)
  }

  /** The filter an option field name belongs to: compared with the alias when the
      filter has one, with the field name otherwise. */
  function FindFilter(filters: seq<ValidFilter>, name: string): (r: Option<ValidFilter>)
    ensures r.Some? ==> r.value in filters && FilterMatches(r.value, name)
    ensures r.None? ==> forall v :: v in filters ==> !FilterMatches(v, name)
    ensures forall i | 0 <= i < |filters| && FilterMatches(filters[i], name) ::
      (forall j :: 0 <= j < i ==> !FilterMatches(filters[j], name)) ==> r == Some(filters[i])
  {
    if filters == [] then None
    else if FilterMatches(filters[0], name) then Some(filters[0])
    else
      var r := FindFilter(filters[1..], name);
      assert forall i :: 0 < i < |filters| ==> filters[i] == filters[1..][i - 1];
      r
  }

  /** `valuesList.indexOf(v) > -1`: strict equality, so `NaN` is never found. */
  predicate Listed(opts: seq<MVOption>, v: Json)
  {
    exists i :: 0 <= i < |opts| && StrictEq(opts[i].value, v)
  }

  /** `generateOption(key)` after the options so far. */
  function OptionStep(opts: seq<MVOption>, filters: seq<ValidFilter>, p: Prop): seq<MVOption>
  {
    if p.val.JUndef? then opts
    else
      var seg := LastSegment(p.key);
      match FindFilter(filters, seg)
      case None => opts
      case Some(f) =>
        if Listed(opts, p.val) then opts
        else opts + [MVOption(if Truthy(f.alias) then f.alias else f.fieldName, f.fieldName, seg, p.val)]
  }

  /** The options generated from the flattened rows. */
  function Options(flat: seq<Prop>, filters: seq<ValidFilter>): seq<MVOption>
    decreases |flat|
  {
    if flat == [] then []
    else OptionStep(Options(flat[..|flat| - 1], filters), filters, flat[|flat| - 1])
  }

  /** What a result of `execute()` contributes to `[].concat(...)`. */
  function Spread(v: Json): seq<Json>
  {
    if v.JArr? then v.elems else [v]
  }

  function AllRows(results: seq<Json>): seq<Json>
    decreases |results|
  {
    if results == [] then [] else AllRows(results[..|results| - 1]) + Spread(results[|results| - 1])
  }

  /** `getMultiValueFilterOptions({ multiValueFilter, queries, defaultData })`, with
      `results` the values `execute()` returns for the runners of `defaultData`;
      `None` is `false`. */
  function MultiValueFilterOptions(config: MultiValueConfig, queries: seq<QueryEntry>, results: seq<Json>)
    : Option<seq<MVOption>>
  {
    if !Truthy(config.enabled) || config.fieldsToFilter.None? || config.fieldsToFilter.value == [] then None
    else Some(Options(Flat(JArr(AllRows(results))), ValidFilters(queries, config.fieldsToFilter.value)))
  }

  function Values(opts: seq<MVOption>): (r: seq<Json>)
    ensures |r| == |opts|
  {
    seq(|opts|, i requires 0 <= i < |opts| => opts[i].value)
  }

  /** The `map(generateOption)` over the keys of the flattened rows, with the list of
      values already offered. */
  method GenerateOptions(flat: seq<Prop>, filters: seq<ValidFilter>) returns (opts: seq<MVOption>)
    ensures opts == Options(flat, filters)
  {
    opts := [];
    var valuesList: seq<Json> := [];
    var i := 0;
    while i < |flat|
      invariant i <= |flat|
      invariant opts == Options(flat[..i], filters)
      invariant valuesList == Values(opts)
    {
      assert flat[..i + 1][..i] == flat[..i];
      var p := flat[i];
      if !p.val.JUndef? {
        var seg := LastSegment(p.key);
        var f := FindFilter(filters, seg);
        if f.Some? {
          var j := 0;
          while j < |valuesList| && !StrictEq(valuesList[j], p.val)
            invariant j <= |valuesList|
            invariant forall k :: 0 <= k < j ==> !StrictEq(valuesList[k], p.val)
          {
            j := j + 1;
          }
          if j == |valuesList| {
            assert !Listed(opts, p.val) by {
              forall k | 0 <= k < |opts| ensures !StrictEq(opts[k].value, p.val) {
                assert valuesList[k] == opts[k].value;
              }
            }
            var fv := f.value;
            valuesList := valuesList + [p.val];
            opts := opts + [MVOption(if Truthy(fv.alias) then fv.alias else fv.fieldName, fv.fieldName, seg, p.val)];
          } else {
            assert StrictEq(opts[j].value, p.val);
          }
        }
      }
      i := i + 1;
    }
    assert flat[..i] == flat;
  }

  /** `getMultiValueFilterOptions`. */
  method GetMultiValueFilterOptions(config: MultiValueConfig, queries: seq<QueryEntry>, results: seq<Json>)
    returns (r: Option<seq<MVOption>>)
    ensures r == MultiValueFilterOptions(config, queries, results)
  {
    if !Truthy(config.enabled) || config.fieldsToFilter.None? || config.fieldsToFilter.value == [] {
      return None;
    }
    var filters := ValidFilters(queries, config.fieldsToFilter.value);
    var flat := FlatObject(JArr(AllRows(results)));
    var opts := GenerateOptions(flat, filters);
    r := Some(opts);
  }

  // ----- properties -----

  predicate DistinctValues(opts: seq<MVOption>)
  {
    forall i, j :: 0 <= i < j < |opts| ==> !StrictEq(opts[i].value, opts[j].value)
  }

  /** No two options carry strictly equal values. */
  lemma {:induction false} OptionsDistinct(flat: seq<Prop>, filters: seq<ValidFilter>)
    ensures DistinctValues(Options(flat, filters))
    decreases |flat|
  {
    if flat != [] {
      var p := flat[|flat| - 1];
      var pre := Options(flat[..|flat| - 1], filters);
      OptionsDistinct(flat[..|flat| - 1], filters);
      var o := Options(flat, filters);
      assert o == OptionStep(pre, filters, p);
      if |o| > |pre| {
        assert o == pre + [o[|pre|]] && o[|pre|].value == p.val;
        assert !Listed(pre, p.val);
        forall i, j | 0 <= i < j < |o| ensures !StrictEq(o[i].value, o[j].value) {
          if j < |pre| {
            assert o[i] == pre[i] && o[j] == pre[j];
            assert !StrictEq(pre[i].value, pre[j].value);
          } else {
            assert o[i] == pre[i] && o[j].value == p.val;
            assert !StrictEq(pre[i].value, p.val);
          }
        }
      } else {
        assert o == pre;
      }
    }
  }

  /** The option `o` is made of the entry `p` of the flattened rows: the entry's
      value, defined, and the last segment of its path, which selects a filter whose
      field it takes. */
  predicate OptionFrom(o: MVOption, filters: seq<ValidFilter>, p: Prop)
  {
    o.value == p.val && !p.val.JUndef? && o.key == LastSegment(p.key) &&
    FindFilter(filters, o.key).Some? && o.field == FindFilter(filters, o.key).value.fieldName
  }

  /** Every option stands for an entry of the flattened rows: its value is the entry's
      value, its key the last segment of the entry's path, and its field that of the
      first filter the segment matches. */
  lemma {:induction false} OptionsSound(flat: seq<Prop>, filters: seq<ValidFilter>, i: nat)
    requires i < |Options(flat, filters)|
    ensures var o := Options(flat, filters)[i];
      (exists k :: 0 <= k < |flat| && OptionFrom(o, filters, flat[k])) &&
      FilterMatches(FindFilter(filters, o.key).value, o.key)
    decreases |flat|
  {
    var n := |flat|;
    var pre := Options(flat[..n - 1], filters);
    OptionStepSound(pre, filters, flat[n - 1]);
    if i < |pre| {
      OptionsSound(flat[..n - 1], filters, i);
      var o := pre[i];
      assert Options(flat, filters)[i] == o;
      var k :| 0 <= k < n - 1 && OptionFrom(o, filters, flat[..n - 1][k]);
      assert flat[k] == flat[..n - 1][k];
    }
  }

  /** One step keeps the options so far and adds at most an option for the entry. */
  lemma OptionStepSound(opts: seq<MVOption>, filters: seq<ValidFilter>, p: Prop)
    ensures var r := OptionStep(opts, filters, p);
      r == opts || (|r| == |opts| + 1 && r[..|opts|] == opts && OptionFrom(r[|opts|], filters, p))
  {
    var r := OptionStep(opts, filters, p);
    if r != opts {
      assert r[..|opts|] == opts;
    }
  }

  /** Every defined value under a configured field is offered: an option with that
      value exists (for `NaN`, which is never deduplicated, the entry's own). */
  lemma {:induction false} OptionsComplete(flat: seq<Prop>, filters: seq<ValidFilter>, k: nat)
    requires k < |flat| && !flat[k].val.JUndef?
    requires FindFilter(filters, LastSegment(flat[k].key)).Some?
    ensures exists i :: 0 <= i < |Options(flat, filters)| && Options(flat, filters)[i].value == flat[k].val
    decreases |flat|
  {
    var n := |flat|;
    var pre := Options(flat[..n - 1], filters);
    assert pre <= Options(flat, filters);
    if k < n - 1 {
      assert flat[..n - 1][k] == flat[k];
      OptionsComplete(flat[..n - 1], filters, k);
      var i :| 0 <= i < |pre| && pre[i].value == flat[k].val;
      assert Options(flat, filters)[i] == pre[i];
    } else if Listed(pre, flat[k].val) {
      var i :| 0 <= i < |pre| && StrictEq(pre[i].value, flat[k].val);
      assert Options(flat, filters)[i] == pre[i];
    } else {
      assert Options(flat, filters)[|pre|].value == flat[k].val;
    }
  }

  /** A disabled filter, or one without fields, has no options (`false`). */
  lemma DisabledHasNoOptions(config: MultiValueConfig, queries: seq<QueryEntry>, results: seq<Json>)
    ensures MultiValueFilterOptions(config, queries, results).None? <==>
      !Truthy(config.enabled) || config.fieldsToFilter.None? || config.fieldsToFilter.value == []
  {
  }
}
