/** The `ComponentLoader` component: its state (hidden layers, the multi-value and
    range selections), the handlers that update it, the filters it adds to each query,
    the runners of its queries, `getData`, and the position of the legend. */
module Component {

  import opened Outcomes
  import opened JsValue
  import opened WhereOps
  import opened WhereSpec
  import opened Store
  import opened Query
  import opened Filters
  import opened Reduction
  import FilterOptions

  // ----- handleHideLayer -----

  /** `list.indexOf(item) !== -1`. */
  predicate Contains(list: seq<Json>, item: Json)
  {
    exists i :: 0 <= i < |list| && StrictEq(list[i], item)
  }

  /** `list.filter((i) => i !== item)`. */
  function Without(list: seq<Json>, item: Json): seq<Json>
    decreases |list|
  {
    if list == [] then []
    else Without(list[..|list| - 1], item) + (if StrictEq(list[|list| - 1], item) then [] else [list[|list| - 1]])
  }

  /** The hidden layers after `handleHideLayer(item)`. */
  function Toggled(list: seq<Json>, item: Json): seq<Json>
  {
    if Contains(list, item) then Without(list, item) else list + [item]
  }

  /** An entry survives the removal exactly when it is not strictly equal to the item. */
  lemma {:induction false} WithoutMembers(list: seq<Json>, item: Json)
    ensures forall x :: x in Without(list, item) <==> x in list && !StrictEq(x, item)
    decreases |list|
  {
    if list != [] {
      var pre := list[..|list| - 1];
      WithoutMembers(pre, item);
      assert list == pre + [list[|list| - 1]];
    }
  }

  /** Removing an item the list does not contain changes nothing. */
  lemma {:induction false} WithoutAbsent(list: seq<Json>, item: Json)
    requires !Contains(list, item)
    ensures Without(list, item) == list
    decreases |list|
  {
    if list != [] {
      var pre := list[..|list| - 1];
      assert !Contains(pre, item) by {
        forall i | 0 <= i < |pre| ensures !StrictEq(pre[i], item) {
          assert pre[i] == list[i];
        }
      }
      WithoutAbsent(pre, item);
      assert list == pre + [list[|list| - 1]];
    }
  }

  /** Removing keeps exactly the entries not strictly equal to the item, so none
      equal to it remains, and a list without it is unchanged. */
  lemma WithoutKeeps(list: seq<Json>, item: Json)
    ensures forall x :: x in Without(list, item) <==> x in list && !StrictEq(x, item)
    ensures !Contains(Without(list, item), item)
    ensures !Contains(list, item) ==> Without(list, item) == list
  {
    WithoutMembers(list, item);
    if !Contains(list, item) {
      WithoutAbsent(list, item);
    }
    var w := Without(list, item);
    forall i | 0 <= i < |w| ensures !StrictEq(w[i], item) {
      assert w[i] in w;
    }
  }

  /** Hiding an item that is not hidden and showing it again restores the list. */
  lemma ToggleTwice(list: seq<Json>, item: Json)
    requires !Contains(list, item) && !item.JNaN?
    ensures Toggled(list, item) == list + [item]
    ensures Toggled(Toggled(list, item), item) == list
  {
    var l := list + [item];
    assert StrictEq(l[|list|], item);
    assert l[..|l| - 1] == list;
    WithoutKeeps(list, item);
  }

  /** `NaN` is never found by `indexOf`, so toggling it always appends another copy. */
  lemma ToggleNaN(list: seq<Json>)
    ensures Toggled(list, JNaN) == list + [JNaN]
  {
  }

  /** `hiddenLayers.indexOf(item)`, `-1` when absent. */
  method IndexOfStrict(list: seq<Json>, item: Json) returns (r: int)
    ensures -1 <= r < |list|
    ensures r == -1 <==> !Contains(list, item)
    ensures r >= 0 ==> StrictEq(list[r], item) && forall j :: 0 <= j < r ==> !StrictEq(list[j], item)
  {
    var i := 0;
    while i < |list|
      invariant i <= |list|
      invariant forall j :: 0 <= j < i ==> !StrictEq(list[j], item)
    {
      if StrictEq(list[i], item) {
        return i;
      }
      i := i + 1;
    }
    return -1;
  }

  /** `list.filter((i) => i !== item)`, element by element. */
  method FilterOut(list: seq<Json>, item: Json) returns (kept: seq<Json>)
    ensures kept == Without(list, item)
  {
    kept := [];
    var i := 0;
    while i < |list|
      invariant i <= |list|
      invariant kept == Without(list[..i], item)
    {
      assert list[..i + 1][..i] == list[..i];
      if !StrictEq(list[i], item) {
        kept := kept + [list[i]];
      }
      i := i + 1;
    }
    assert list[..i] == list;
  }

  // ----- multiValueFilterClickHandler -----

  /** The `fields` object built from the selected option indices `e`: one array of
      values per field, in the order of first selection. */
  function SelectionGroups(e: seq<nat>, data: seq<FilterOptions.MVOption>): seq<Prop>
    requires forall i :: 0 <= i < |e| ==> e[i] < |data|
    decreases |e|
  {
    if e == [] then []
    else
      var o := data[e[|e| - 1]];
      AddValue(SelectionGroups(e[..|e| - 1], data), ToStr(o.field), o.value)
  }

  /** `if (!fields[k]) fields[k] = []; fields[k].push(v)`. */
  function AddValue(fields: seq<Prop>, k: string, v: Json): seq<Prop>
  {
    ObjAssign(fields, k, JArr(Pushed(ObjGet(fields, k), v)))
  }

  /** The array stored under a key with `v` pushed; a fresh array when absent. */
  function Pushed(cur: Option<Json>, v: Json): seq<Json>
  {
    (if cur.Some? && cur.value.JArr? then cur.value.elems else []) + [v]
  }

  /** The values of the selected options whose field is written `k`, in selection order. */
  function SelectedValues(e: seq<nat>, data: seq<FilterOptions.MVOption>, k: string): seq<Json>
    requires forall i :: 0 <= i < |e| ==> e[i] < |data|
    decreases |e|
  {
    if e == [] then []
    else
      var o := data[e[|e| - 1]];
      SelectedValues(e[..|e| - 1], data, k) + (if ToStr(o.field) == k then [o.value] else [])
  }

  /** Each field holds the values of exactly the selected options of that field, in
      selection order; a field with no selected option is absent. */
  lemma {:induction false} SelectionGroupsLookup(e: seq<nat>, data: seq<FilterOptions.MVOption>, k: string)
    requires forall i :: 0 <= i < |e| ==> e[i] < |data|
    ensures ObjGet(SelectionGroups(e, data), k) ==
      if SelectedValues(e, data, k) == [] then None else Some(JArr(SelectedValues(e, data, k)))
    decreases |e|
  {
    if e != [] {
      var pre := e[..|e| - 1];
      var acc := SelectionGroups(pre, data);
      var o := data[e[|e| - 1]];
      var f := ToStr(o.field);
      SelectionGroupsLookup(pre, data, k);
      var vs := SelectedValues(pre, data, k);
      ObjGetAfterAssign(acc, f, JArr(Pushed(ObjGet(acc, f), o.value)), k);
      if k == f {
        assert SelectedValues(e, data, k) == vs + [o.value];
        assert Pushed(ObjGet(acc, f), o.value) == vs + [o.value];
      } else {
        assert SelectedValues(e, data, k) == vs;
      }
    }
  }

  // ----- legendPosition -----

  datatype Side = Top | Bottom | Left | Right

  /** Where the legend goes for `properties.summary.position`; anything else is the
      bottom. */
  function Placement(position: Json): Side
  {
    if position == JStr("top") then Top
    else if position == JStr("left") then Left
    else if position == JStr("right") then Right
    else Bottom
  }

  function Opposite(s: Side): Side
  {
    match s
    case Top => Bottom
    case Bottom => Top
    case Left => Right
    case Right => Left
  }

  /** The flex order of the content item next to the legend. */
  const ItemOrder := 1

  /** The legend style: the side that carries the `10px` padding, the flex order and
      the flex basis. */
  datatype LegendStyle = LegendStyle(paddingSide: Side, padding: string, order: int, flexBasis: Json)

  /** `legendPosition()`, given `properties.summary.position` and `.width`. */
  function LegendPosition(position: Json, width: Json): (s: LegendStyle)
    ensures s.padding == "10px" && s.paddingSide == Opposite(Placement(position))
    ensures s.order < ItemOrder <==> Placement(position) == Top || Placement(position) == Left
    ensures s.order == 0 || s.order == 2
    ensures Placement(position) == Top || Placement(position) == Bottom ==> s.flexBasis == JStr("100%")
    ensures Placement(position) == Left || Placement(position) == Right ==>
      s.flexBasis == (if width.JUndef? then JStr("200px") else width)
  {
    var w := if width.JUndef? then JStr("200px") else width;
    if position == JStr("top") then LegendStyle(Bottom, "10px", 0, JStr("100%"))
    else if position == JStr("left") then LegendStyle(Right, "10px", 0, w)
    else if position == JStr("right") then LegendStyle(Left, "10px", 2, w)
    else LegendStyle(Top, "10px", 2, JStr("100%"))
  }

  /** The runners so far followed by the next query's runner, if it has one; the
      first error stays. */
  function Extend(prev: Result<seq<QueryRunner>, WhereError>, next: Result<Option<QueryRunner>, WhereError>)
    : Result<seq<QueryRunner>, WhereError>
  {
    if prev.Err? then prev
    else if next.Err? then Err(next.error)
    else Ok(prev.value + (if next.value.Some? then [next.value.value] else []))
  }

  /** The runners of a sequence of factory results, in order, skipping the queries
      without a runner; the first error stays. */
  function Runners(results: seq<Result<Option<QueryRunner>, WhereError>>): Result<seq<QueryRunner>, WhereError>
    decreases |results|
  {
    if results == [] then Ok([])
    else Extend(Runners(results[..|results| - 1]), results[|results| - 1])
  }

  /** One more result of the fold: an error ends it with that error, a runner is
      appended and a query without one adds nothing. */
  lemma RunnersNext(results: seq<Result<Option<QueryRunner>, WhereError>>, i: nat, runners: seq<QueryRunner>)
    requires i < |results| && Runners(results[..i]) == Ok(runners)
    ensures results[i].Err? ==> Runners(results) == Err(results[i].error)
    ensures results[i].Ok? ==>
      Runners(results[..i + 1]) == Ok(runners + if results[i].value.Some? then [results[i].value.value] else [])
  {
    assert results[..i + 1][..i] == results[..i];
    if results[i].Err? {
      RunnersErrPersists(results, i + 1);
    }
  }

  /** The runners are complete exactly when no query fails, and then they are the
      runners of the queries that have one, in query order. */
  lemma {:induction false} RunnersOk(results: seq<Result<Option<QueryRunner>, WhereError>>)
    ensures Runners(results).Ok? <==> forall i :: 0 <= i < |results| ==> results[i].Ok?
    ensures Runners(results).Ok? ==> forall q :: q in Runners(results).value <==>
      exists i :: 0 <= i < |results| && results[i] == Ok(Some(q))
    decreases |results|
  {
    if results != [] {
      var pre := results[..|results| - 1];
      RunnersOk(pre);
      if Runners(results).Ok? {
        forall i | 0 <= i < |pre| ensures pre[i].Ok? {
          assert Runners(pre).Ok?;
        }
        forall q ensures q in Runners(results).value <==>
          exists i :: 0 <= i < |results| && results[i] == Ok(Some(q))
        {
          if q in Runners(pre).value {
            var i :| 0 <= i < |pre| && pre[i] == Ok(Some(q));
            assert results[i] == Ok(Some(q));
          }
          if exists i :: 0 <= i < |results| && results[i] == Ok(Some(q)) {
            var i :| 0 <= i < |results| && results[i] == Ok(Some(q));
            if i < |pre| {
              assert pre[i] == Ok(Some(q));
            }
          }
        }
      } else if Runners(pre).Ok? {
        assert results[|results| - 1].Err?;
      } else {
        var i :| 0 <= i < |pre| && !pre[i].Ok?;
        assert results[i] == pre[i];
      }
    }
  }

  /** An error among the first `n` results is the error of all of them. */
  lemma {:induction false} RunnersErrPersists(results: seq<Result<Option<QueryRunner>, WhereError>>, n: nat)
    requires n <= |results| && Runners(results[..n]).Err?
    ensures Runners(results) == Runners(results[..n])
    decreases |results|
  {
    if n == |results| {
      assert results[..n] == results;
    } else {
      var pre := results[..|results| - 1];
      assert pre[..n] == results[..n];
      RunnersErrPersists(pre, n);
    }
  }

  // ----- the filter group -----

  /** The group `this.group('and')` creates, whose `rules` the filters push into. */
  class RuleGroup {
    var combinator: string
    var rules: seq<Node>

    constructor (c: string)
      ensures combinator == c && rules == []
    {
      combinator := c;
      rules := [];
    }

    /** `rules.push(n)`. */
    method Push(n: Node)
      modifies this
      ensures combinator == old(combinator) && rules == old(rules) + [n]
    {
      rules := rules + [n];
    }
  }

  // ----- the component -----

  class ComponentLoader {
    /** `props.queries`, `props.filters`, `props.associatedFilters` and
        `props.properties.rangeFilter.field`. */
    const queries: seq<QuerySettings>
    const catalog: seq<CatalogFilter>
    const associatedFilters: seq<AssociatedFilter>
    const rangeFilterField: Json

    /** `state.hiddenLayers`, `state.multiValueFilter.{selected, fields}` and
        `state.rangeFilter`. */
    var hiddenLayers: seq<Json>
    var mvSelected: seq<nat>
    var mvFields: seq<Prop>
    var rangeFilter: RangeState

    constructor (queries: seq<QuerySettings>, catalog: seq<CatalogFilter>,
                 associatedFilters: seq<AssociatedFilter>, rangeFilterField: Json)
      ensures this.queries == queries && this.catalog == catalog
      ensures this.associatedFilters == associatedFilters && this.rangeFilterField == rangeFilterField
      ensures hiddenLayers == [] && mvSelected == [] && mvFields == []
      ensures rangeFilter == RangeState(JUndef, JUndef, JUndef, JUndef)
    {
      this.queries := queries;
      this.catalog := catalog;
      this.associatedFilters := associatedFilters;
      this.rangeFilterField := rangeFilterField;
      hiddenLayers := [];
      mvSelected := [];
      mvFields := [];
      rangeFilter := RangeState(JUndef, JUndef, JUndef, JUndef);
    }

    /** `handleHideLayer(item)`: shows a hidden item (every copy of it) or hides a
        shown one. */
    method HandleHideLayer(item: Json)
      modifies this
      ensures hiddenLayers == Toggled(old(hiddenLayers), item)
      ensures mvSelected == old(mvSelected) && mvFields == old(mvFields) && rangeFilter == old(rangeFilter)
    {
      var idx := IndexOfStrict(hiddenLayers, item);
      if idx == -1 {
        hiddenLayers := hiddenLayers + [item];
      } else {
        hiddenLayers := FilterOut(hiddenLayers, item);
      }
    }

    /** `multiValueFilterClickHandler(e, data)`: stores the selection and the values
        grouped by field. An option whose field is written as a member of
        `Object.prototype` finds that member instead of an array (a crash). */
    method MultiValueFilterClickHandler(e: seq<nat>, data: seq<FilterOptions.MVOption>)
      requires forall i :: 0 <= i < |e| ==> e[i] < |data| && !IsPrototypeKey(ToStr(data[e[i]].field))
      modifies this
      ensures mvSelected == e && mvFields == SelectionGroups(e, data)
      ensures hiddenLayers == old(hiddenLayers) && rangeFilter == old(rangeFilter)
    {
      var fields: seq<Prop> := [];
      var i := 0;
      while i < |e|
        invariant i <= |e|
        invariant fields == SelectionGroups(e[..i], data)
      {
        assert e[..i + 1][..i] == e[..i];
        var item := data[e[i]];
        fields := AddValue(fields, ToStr(item.field), item.value);
        i := i + 1;
      }
      assert e[..i] == e;
      mvSelected := e;
      mvFields := fields;
    }

    /** `rangeFilterClickHandler(start, end, value)`. */
    method RangeFilterClickHandler(start: Json, end: Json, value: Json)
      modifies this
      ensures rangeFilter == RangeState(rangeFilterField, value, start, end)
      ensures hiddenLayers == old(hiddenLayers) && mvSelected == old(mvSelected) && mvFields == old(mvFields)
    {
      rangeFilter := RangeState(rangeFilterField, value, start, end);
    }

    /** `applyGlobalFilters(query, combinator)`. */
    method ApplyGlobalFilters(q: QuerySettings, search: seq<(string, string)>, comb: RuleGroup)
      modifies comb
      ensures comb.combinator == old(comb.combinator)
      ensures comb.rules == old(comb.rules) + GlobalRules(BuildFilters(catalog, ActiveFilters(search), q.table))
    {
      var filters := BuildFilters(catalog, ActiveFilters(search), q.table);
      if |filters| == 0 {
        return;
      }
      var i := 0;
      while i < |filters|
        invariant i <= |filters|
        invariant comb.combinator == old(comb.combinator)
        invariant comb.rules == old(comb.rules) + GlobalRules(filters)[..i]
      {
        assert GlobalRules(filters)[..i + 1] == GlobalRules(filters)[..i] + [GlobalRules(filters)[i]];
        comb.Push(ValueRule(filters[i].field, OperatorName(filters[i].has), JArr(filters[i].values)));
        i := i + 1;
      }
      assert GlobalRules(filters)[..i] == GlobalRules(filters);
    }

    /** `applyAssociatedFilters(query, combinator)`, given the columns of the query's
        table. */
    method ApplyAssociatedFilters(q: QuerySettings, cols: seq<Column>, comb: RuleGroup)
      modifies comb
      ensures comb.combinator == old(comb.combinator)
      ensures comb.rules == old(comb.rules) + AssociatedRules(associatedFilters, MetaOf(cols, GroupItems(q.groupBy)).allFields)
    {
      var fieldNames := MetaOf(cols, GroupItems(q.groupBy)).allFields;
      if |associatedFilters| == 0 {
        return;
      }
      var meta := TableMeta(cols, q.groupBy);
      var i := 0;
      while i < |associatedFilters|
        invariant i <= |associatedFilters|
        invariant comb.combinator == old(comb.combinator)
        invariant comb.rules == old(comb.rules) + AssociatedRules(associatedFilters[..i], fieldNames)
      {
        assert associatedFilters[..i + 1][..i] == associatedFilters[..i];
        var a := associatedFilters[i];
        if a.field in meta.allFields {
          comb.Push(ValueRule(a.field, a.fn, a.value));
        }
        i := i + 1;
      }
      assert associatedFilters[..i] == associatedFilters;
    }

    /** `applyLocalFilters(query, combinator)`. */
    method ApplyLocalFilters(comb: RuleGroup)
      modifies comb
      ensures comb.combinator == old(comb.combinator)
      ensures comb.rules == old(comb.rules) + LocalRules(rangeFilter, mvFields)
    {
      if Truthy(rangeFilter.field) {
        comb.Push(ValueRule(ToStr(rangeFilter.field), "greater_or_equal", rangeFilter.start));
        comb.Push(ValueRule(ToStr(rangeFilter.field), "less_or_equal", rangeFilter.end));
      }
      ghost var base := comb.rules;
      assert base == old(comb.rules) + RangeRules(rangeFilter);
      var i := 0;
      while i < |mvFields|
        invariant i <= |mvFields|
        invariant comb.combinator == old(comb.combinator)
        invariant comb.rules == base + MultiValueRules(mvFields)[..i]
      {
        assert MultiValueRules(mvFields)[..i + 1] == MultiValueRules(mvFields)[..i] + [MultiValueRules(mvFields)[i]];
        comb.Push(ValueRule(mvFields[i].key, "in", mvFields[i].val));
        i := i + 1;
      }
      assert MultiValueRules(mvFields)[..i] == MultiValueRules(mvFields);
    }

    /** The query with the filter group as its conditions. */
    function Filtered(q: QuerySettings, search: seq<(string, string)>, tables: map<string, Table>): QuerySettings
      reads this
    {
      q.(conditions := Some(FilterGroup(
        GlobalRules(BuildFilters(catalog, ActiveFilters(search), q.table)),
        AssociatedRules(associatedFilters, MetaOf(ShowColumns(tables, q.table), GroupItems(q.groupBy)).allFields),
        LocalRules(rangeFilter, mvFields),
        q.conditions)))
    }

    /** `applyFilters(query)`: only the conditions change; they become the `and`
        group of the global, associated and local rules and the former conditions. */
    method ApplyFilters(q: QuerySettings, search: seq<(string, string)>, tables: map<string, Table>)
      returns (r: QuerySettings)
      ensures r == Filtered(q, search, tables)
    {
      ghost var global := GlobalRules(BuildFilters(catalog, ActiveFilters(search), q.table));
      ghost var assoc := AssociatedRules(associatedFilters, MetaOf(ShowColumns(tables, q.table), GroupItems(q.groupBy)).allFields);
      ghost var local := LocalRules(rangeFilter, mvFields);
      var comb := new RuleGroup("and");
      ApplyGlobalFilters(q, search, comb);
      assert comb.rules == global;
      ApplyAssociatedFilters(q, ShowColumns(tables, q.table), comb);
      assert comb.rules == global + assoc;
      ApplyLocalFilters(comb);
      assert comb.rules == global + assoc + local;
      if q.conditions.Some? {
        comb.Push(q.conditions.value);
      }
      assert comb.rules == global + assoc + local + (if q.conditions.Some? then [q.conditions.value] else []);
      r := q.(conditions := Some(Group(comb.combinator, comb.rules)));
    }

    /** What `data()` dereferences for every query. */
    predicate DataDefined(search: seq<(string, string)>, tables: map<string, Table>)
      reads this
    {
      forall i :: 0 <= i < |queries| ==> FactoryDefined(Filtered(queries[i], search, tables), tables)
    }

    /** What `queryFactory` makes of each query with its filters applied. */
    function FactoryResults(search: seq<(string, string)>, tables: map<string, Table>)
      : (r: seq<Result<Option<QueryRunner>, WhereError>>)
      reads this
      requires DataDefined(search, tables)
      ensures |r| == |queries|
    {
      seq(|queries|, i reads this requires 0 <= i < |queries| && DataDefined(search, tables) =>
        QueryFactory(Filtered(queries[i], search, tables), tables))
    }

    /** The result of `data()`. */
    function DataSpec(search: seq<(string, string)>, tables: map<string, Table>): Result<seq<QueryRunner>, WhereError>
      reads this
      requires DataDefined(search, tables)
    {
      Runners(FactoryResults(search, tables))
    }

    /** `queryFactory(this.applyFilters(query))` for the query at `i`. */
    method FilteredFactory(i: nat, search: seq<(string, string)>, tables: map<string, Table>)
      returns (f: Result<Option<QueryRunner>, WhereError>)
      requires DataDefined(search, tables) && i < |queries|
      ensures f == FactoryResults(search, tables)[i]
    {
      var s := ApplyFilters(queries[i], search, tables);
      f := QueryFactory(s, tables);
    }

    /** One query of `data()`, with `results` what `queryFactory` makes of every
        query: its runner, if any, is appended to those so far; its error is the
        error of `data()`. */
    method DataStep(search: seq<(string, string)>, tables: map<string, Table>,
                    ghost results: seq<Result<Option<QueryRunner>, WhereError>>, i: nat, runners: seq<QueryRunner>)
      returns (next: Result<seq<QueryRunner>, WhereError>)
      requires DataDefined(search, tables) && results == FactoryResults(search, tables)
      requires i < |results| && Runners(results[..i]) == Ok(runners)
      ensures next.Err? ==> next == Runners(results)
      ensures next.Ok? ==> next == Runners(results[..i + 1])
    {
      var f := FilteredFactory(i, search, tables);
      RunnersNext(results, i, runners);
      if f.Err? {
        return Err(f.error);
      }
      next := Ok(runners + if f.value.Some? then [f.value.value] else []);
    }

    /** `data()`: the runner of every query that has a table, each with its filters
        applied; the first compiler error aborts. */
    method Data(search: seq<(string, string)>, tables: map<string, Table>)
      returns (r: Result<seq<QueryRunner>, WhereError>)
      requires DataDefined(search, tables)
      ensures r == DataSpec(search, tables)
    {
      ghost var results := FactoryResults(search, tables);
      var runners: seq<QueryRunner> := [];
      var i := 0;
      while i < |queries|
        invariant i <= |results| && Runners(results[..i]) == Ok(runners)
      {
        var next := DataStep(search, tables, results, i, runners);
        if next.Err? {
          return next;
        }
        runners := next.value;
        i := i + 1;
      }
      assert results[..i] == results;
      r := Ok(runners);
    }

    /** `getData()`: the runners of `data()` reduced. The component `getComponent`
        returns is an arrow function, which has no `lazy`. */
    method GetData(search: seq<(string, string)>, tables: map<string, Table>, contentLazy: Json, exec: Exec)
      returns (r: Result<Loaded, WhereError>)
      requires DataDefined(search, tables)
      requires DataSpec(search, tables).Ok? ==>
        ReduceDefined(DataSpec(search, tables).value, JUndef, contentLazy)
      ensures DataSpec(search, tables).Err? ==> r == Err(DataSpec(search, tables).error)
      ensures DataSpec(search, tables).Ok? ==>
        r == Ok(GetDataSpec(DataSpec(search, tables).value, JUndef, contentLazy, exec))
    {
      var data := Data(search, tables);
      if data.Err? {
        return Err(data.error);
      }
      var loaded := ReduceRunners(data.value, JUndef, contentLazy, exec);
      r := Ok(loaded);
    }
  }

  // ----- properties of the filtered queries -----

  /** The filter group carries a rule for each filter, then the former conditions; the
      runner of a filtered query gets a statement exactly when it is grouped or there is
      at least one filter or condition. */
  lemma FilteredStatement(global: seq<Node>, assoc: seq<Node>, local: seq<Node>, q: QuerySettings)
    ensures var f := q.(conditions := Some(FilterGroup(global, assoc, local, q.conditions)));
      BuildsStatement(f) <==> IsGrouped(q) || |global| + |assoc| + |local| > 0 || q.conditions.Some?
  {
    FilterGroupLayout(global, assoc, local, q.conditions);
  }
}
