/** The reduction at the end of `getData`: the runners of a component's queries are
    merged into one object carrying the merged table metadata, the statements, the
    field descriptors, the rows (keyed by query or concatenated) and the combined
    summary. Running a statement on the SQL engine is a parameter. */
module Reduction {

  import opened Outcomes
  import opened JsValue
  import opened Query

  /** What `getData` returns. `NoData` is `false` (no runner); `Unreduced` is the
      runner list itself (a content component that is not lazy); `Combined` is the
      reduced object with its `data`; `Deferred` is the reduced object of a wrapper
      that is not lazy, whose `execute()` returns `rows`. */
  datatype Loaded =
    | NoData
    | Unreduced(runners: seq<QueryRunner>)
    | Combined(tableMeta: Meta, query: string, queryStrings: seq<Option<Select>>,
               datasource: seq<Descriptor>, data: Json)
    | Deferred(tableMeta: Meta, query: string, queryStrings: seq<Option<Select>>,
               datasource: seq<Descriptor>, rows: seq<Json>)

  /** The rows `execute()` returns for a runner. */
  type Exec = QueryRunner -> seq<Json>

  // ----- lodash merge of the table metadata -----

  /** `merge` of an array of primitives into another: index by index, the source's
      element replaces the destination's; the destination's tail is kept. */
  function Overlay<T>(dst: seq<T>, src: seq<T>): seq<T>
  {
    if |dst| <= |src| then src else src + dst[|src|..]
  }

  /** `merge` of the label list, whose elements may be `undefined`: index by index the
      source's element replaces the destination's, except that an `undefined` one
      leaves in place an element the destination already has. */
  function OverlayLabels(dst: seq<Json>, src: seq<Json>): (r: seq<Json>)
    ensures |r| == if |dst| <= |src| then |src| else |dst|
  {
    if src == [] then dst
    else if dst == [] then src
    else [if src[0].JUndef? then dst[0] else src[0]] + OverlayLabels(dst[1..], src[1..])
  }

  /** What overlaying labels keeps: the longer length; the destination's element where
      the source has none or `undefined`; the source's element everywhere else. */
  lemma {:induction false} OverlayLabelsFacts(dst: seq<Json>, src: seq<Json>)
    ensures forall j :: 0 <= j < |dst| && (j >= |src| || src[j].JUndef?) ==> OverlayLabels(dst, src)[j] == dst[j]
    ensures forall j :: 0 <= j < |src| && (j >= |dst| || !src[j].JUndef?) ==> OverlayLabels(dst, src)[j] == src[j]
  {
    if src != [] && dst != [] {
      OverlayLabelsFacts(dst[1..], src[1..]);
      var r := OverlayLabels(dst, src);
      assert forall j :: 0 < j < |r| ==> r[j] == OverlayLabels(dst[1..], src[1..])[j - 1];
    }
  }

  /** `merge({}, acc, m)`: the time field is always replaced (a `null` one as well),
      the two lists are overlaid. */
  function MergeMeta(acc: Meta, m: Meta): Meta
  {
    Meta(m.timeField, Overlay(acc.allFields, m.allFields), OverlayLabels(acc.labelFields, m.labelFields))
  }

  /** The `tableMeta` of the reduced object after the first `|rs|` runners. */
  function MergedMeta(rs: seq<QueryRunner>): Meta
    decreases |rs|
  {
    if rs == [] then Meta(None, [], []) else MergeMeta(MergedMeta(rs[..|rs| - 1]), rs[|rs| - 1].tableMeta)
  }

  /** The lists `allFields` of the runners. */
  function FieldLists(rs: seq<QueryRunner>): (r: seq<seq<string>>)
    ensures |r| == |rs|
  {
    seq(|rs|, i requires 0 <= i < |rs| => rs[i].tableMeta.allFields)
  }

  /** The merged time field is that of the last runner; the merged `allFields` is as
      long as the longest list, and its entry `i` is entry `i` of the last runner whose
      list reaches that far. */
  lemma MergedMetaFields(rs: seq<QueryRunner>, i: nat)
    requires rs != []
    ensures MergedMeta(rs).timeField == rs[|rs| - 1].tableMeta.timeField
    ensures forall k :: 0 <= k < |rs| ==> |rs[k].tableMeta.allFields| <= |MergedMeta(rs).allFields|
    ensures i < |MergedMeta(rs).allFields| ==>
      exists k :: 0 <= k < |rs| && i < |rs[k].tableMeta.allFields| &&
        MergedMeta(rs).allFields[i] == rs[k].tableMeta.allFields[i] &&
        forall k' :: k < k' < |rs| ==> |rs[k'].tableMeta.allFields| <= i
  {
    MergedFieldsLength(rs);
    if i < |MergedMeta(rs).allFields| {
      var k := MergedFieldsEntry(rs, i);
      assert LastReaching(rs, i, k);
    }
  }

  /** What overlaying keeps: the longer length, the source's entries, then the
      destination's. */
  lemma OverlayFacts<T>(dst: seq<T>, src: seq<T>)
    ensures |Overlay(dst, src)| == if |dst| <= |src| then |src| else |dst|
    ensures forall j :: 0 <= j < |src| ==> Overlay(dst, src)[j] == src[j]
    ensures forall j :: |src| <= j < |dst| ==> Overlay(dst, src)[j] == dst[j]
  {
  }

  /** Without `undefined` in the source, the labels are overlaid like any other list;
      with it, a label the destination defines is never erased. */
  lemma OverlayLabelsDefined(dst: seq<Json>, src: seq<Json>)
    ensures (forall j :: 0 <= j < |src| ==> !src[j].JUndef?) ==> OverlayLabels(dst, src) == Overlay(dst, src)
    ensures forall j :: 0 <= j < |dst| && !dst[j].JUndef? ==> !OverlayLabels(dst, src)[j].JUndef?
  {
    OverlayFacts(dst, src);
    OverlayLabelsFacts(dst, src);
  }

  /** Label `i` of the merged metadata is `undefined` only when every runner whose
      label list reaches `i` has `undefined` there. */
  lemma {:induction false} MergedLabelUndefined(rs: seq<QueryRunner>, i: nat)
    requires i < |MergedMeta(rs).labelFields| && MergedMeta(rs).labelFields[i].JUndef?
    ensures forall k :: 0 <= k < |rs| && i < |rs[k].tableMeta.labelFields| ==> rs[k].tableMeta.labelFields[i].JUndef?
    decreases |rs|
  {
    var n := |rs|;
    var pre := rs[..n - 1];
    var acc := MergedMeta(pre).labelFields;
    var last := rs[n - 1].tableMeta.labelFields;
    assert MergedMeta(rs).labelFields == OverlayLabels(acc, last);
    OverlayLabelsFacts(acc, last);
    if i < |acc| {
      MergedLabelUndefined(pre, i);
    }
    forall k | 0 <= k < n - 1 && i < |rs[k].tableMeta.labelFields|
      ensures rs[k].tableMeta.labelFields[i].JUndef?
    {
      assert rs[k] == pre[k];
      if i >= |acc| {
        PrefixLabelReaches(pre, k, i);
      }
    }
  }

  /** Every index a runner's label list reaches, the merged label list reaches. */
  lemma {:induction false} PrefixLabelReaches(rs: seq<QueryRunner>, k: nat, i: nat)
    requires k < |rs| && i < |rs[k].tableMeta.labelFields|
    ensures i < |MergedMeta(rs).labelFields|
    decreases |rs|
  {
    var n := |rs|;
    var pre := rs[..n - 1];
    OverlayLabelsFacts(MergedMeta(pre).labelFields, rs[n - 1].tableMeta.labelFields);
    if k < n - 1 {
      assert rs[k] == pre[k];
      PrefixLabelReaches(pre, k, i);
    }
  }

  /** The merged list is as long as every runner's list. */
  lemma {:induction false} MergedFieldsLength(rs: seq<QueryRunner>)
    ensures forall k :: 0 <= k < |rs| ==> |rs[k].tableMeta.allFields| <= |MergedMeta(rs).allFields|
    decreases |rs|
  {
    if rs != [] {
      var n := |rs|;
      var pre := rs[..n - 1];
      MergedFieldsLength(pre);
      OverlayFacts(MergedMeta(pre).allFields, rs[n - 1].tableMeta.allFields);
      forall k | 0 <= k < n - 1 ensures |rs[k].tableMeta.allFields| <= |MergedMeta(rs).allFields| {
        assert rs[k] == pre[k];
      }
    }
  }

  /** Runner `k` is the last one whose list reaches index `i`. */
  predicate LastReaching(rs: seq<QueryRunner>, i: nat, k: nat)
  {
    k < |rs| && i < |rs[k].tableMeta.allFields| &&
    forall k' :: k < k' < |rs| ==> |rs[k'].tableMeta.allFields| <= i
  }

  /** Entry `i` of the merged list comes from the last runner whose list reaches it. */
  lemma {:induction false} MergedFieldsEntry(rs: seq<QueryRunner>, i: nat) returns (k: nat)
    requires i < |MergedMeta(rs).allFields|
    ensures LastReaching(rs, i, k) && MergedMeta(rs).allFields[i] == rs[k].tableMeta.allFields[i]
    decreases |rs|
  {
    var n := |rs|;
    var pre := rs[..n - 1];
    var last := rs[n - 1].tableMeta.allFields;
    var acc := MergedMeta(pre).allFields;
    OverlayFacts(acc, last);
    if i < |last| {
      k := n - 1;
    } else {
      k := MergedFieldsEntry(pre, i);
      assert rs[k] == pre[k];
      forall k' | k < k' < n ensures |rs[k'].tableMeta.allFields| <= i {
        if k' < n - 1 {
          assert rs[k'] == pre[k'];
        }
      }
    }
  }

  // ----- the rows -----

  /** `data.length === data.filter((d) => d.key).length`, by counting. */
  function CountKeyed(rs: seq<QueryRunner>): (c: nat)
    ensures c <= |rs|
    decreases |rs|
  {
    if rs == [] then 0 else CountKeyed(rs[..|rs| - 1]) + (if Truthy(rs[|rs| - 1].key) then 1 else 0)
  }

  predicate AllKeyed(rs: seq<QueryRunner>)
  {
    CountKeyed(rs) == |rs|
  }

  /** The count reaches the length exactly when every runner has a key. */
  lemma {:induction false} AllKeyedMeansEvery(rs: seq<QueryRunner>)
    ensures AllKeyed(rs) <==> forall i :: 0 <= i < |rs| ==> Truthy(rs[i].key)
    decreases |rs|
  {
    if rs != [] {
      var pre := rs[..|rs| - 1];
      AllKeyedMeansEvery(pre);
      if forall i :: 0 <= i < |rs| ==> Truthy(rs[i].key) {
        assert forall i :: 0 <= i < |pre| ==> Truthy(pre[i].key) by {
          forall i | 0 <= i < |pre| ensures Truthy(pre[i].key) {
            assert pre[i] == rs[i];
          }
        }
      }
      if AllKeyed(rs) {
        forall i | 0 <= i < |rs| ensures Truthy(rs[i].key) {
          if i < |rs| - 1 {
            assert pre[i] == rs[i];
          }
        }
      }
    }
  }

  /** What a keyed query contributes: its sole row when it has exactly one and
      `isArray` is not set, otherwise all its rows. */
  function KeyedValue(rows: seq<Json>, isArray: Json): Json
  {
    if |rows| == 1 && !Truthy(isArray) then rows[0] else JArr(rows)
  }

  /** `acc.data[d.key] = …` for the first `|rs|` runners. */
  function KeyedData(rs: seq<QueryRunner>, exec: Exec): seq<Prop>
    decreases |rs|
  {
    if rs == [] then []
    else
      var d := rs[|rs| - 1];
      ObjAssign(KeyedData(rs[..|rs| - 1], exec), ToStr(d.key), KeyedValue(exec(d), d.isArray))
  }

  /** The index of the last runner whose key is written `k`. */
  function LastWithKey(rs: seq<QueryRunner>, k: string): (r: Option<nat>)
    ensures r.Some? ==>
      r.value < |rs| && ToStr(rs[r.value].key) == k &&
      forall j :: r.value < j < |rs| ==> ToStr(rs[j].key) != k
    ensures r.None? ==> forall j :: 0 <= j < |rs| ==> ToStr(rs[j].key) != k
    decreases |rs|
  {
    if rs == [] then None
    else if ToStr(rs[|rs| - 1].key) == k then Some(|rs| - 1)
    else
      var r := LastWithKey(rs[..|rs| - 1], k);
      assert forall j :: 0 <= j < |rs| - 1 ==> rs[..|rs| - 1][j] == rs[j];
      r
  }

  /** Each key holds the value of the last query with that key; there is no other key. */
  lemma {:induction false} KeyedLookup(rs: seq<QueryRunner>, exec: Exec, k: string)
    ensures ObjGet(KeyedData(rs, exec), k) ==
      match LastWithKey(rs, k)
      case None => None
      case Some(i) => Some(KeyedValue(exec(rs[i]), rs[i].isArray))
    decreases |rs|
  {
    if rs != [] {
      var n := |rs|;
      var pre := rs[..n - 1];
      var d := rs[n - 1];
      KeyedLookup(pre, exec, k);
      ObjGetAfterAssign(KeyedData(pre, exec), ToStr(d.key), KeyedValue(exec(d), d.isArray), k);
      if ToStr(d.key) != k {
        match LastWithKey(pre, k)
        case None =>
        case Some(i) => assert pre[i] == rs[i];
      }
    }
  }

  /** The rows of each runner. */
  function RowsOf(rs: seq<QueryRunner>, exec: Exec): (r: seq<seq<Json>>)
    ensures |r| == |rs|
  {
    seq(|rs|, i requires 0 <= i < |rs| => exec(rs[i]))
  }

  /** The descriptors of each runner. */
  function DatasourcesOf(rs: seq<QueryRunner>): (r: seq<seq<Descriptor>>)
    ensures |r| == |rs|
  {
    seq(|rs|, i requires 0 <= i < |rs| => rs[i].datasource)
  }

  /** The statement of each runner (`{}` when none is built is `None`). */
  function QueryStringsOf(rs: seq<QueryRunner>): (r: seq<Option<Select>>)
    ensures |r| == |rs|
  {
    seq(|rs|, i requires 0 <= i < |rs| => rs[i].queryString)
  }

  /** The concatenation of two lists of lists is that of each, one after the other. */
  lemma {:induction false} ConcatenatedAppend<T>(a: seq<seq<T>>, b: seq<seq<T>>)
    ensures Concatenated(a + b) == Concatenated(a) + Concatenated(b)
    decreases |b|
  {
    if b == [] {
      assert a + b == a;
    } else {
      var n := |b|;
      AppendLast(a, b);
      ConcatenatedAppend(a, b[..n - 1]);
    }
  }

  /** Merging the queries in two batches gives the rows of the first batch followed by
      those of the second. */
  lemma RowsInQueryOrder(a: seq<QueryRunner>, b: seq<QueryRunner>, exec: Exec)
    ensures Concatenated(RowsOf(a + b, exec)) == Concatenated(RowsOf(a, exec)) + Concatenated(RowsOf(b, exec))
  {
    assert RowsOf(a + b, exec) == RowsOf(a, exec) + RowsOf(b, exec);
    ConcatenatedAppend(RowsOf(a, exec), RowsOf(b, exec));
  }

  /** The last element of `a + b` is that of `b`, and what precedes it is `a` and the
      rest of `b`. */
  lemma AppendLast<T>(a: seq<T>, b: seq<T>)
    requires b != []
    ensures (a + b)[..|a + b| - 1] == a + b[..|b| - 1] && (a + b)[|a + b| - 1] == b[|b| - 1]
  {
  }

  // ----- getData -----

  /** `true` and `undefined` count as lazy. */
  predicate IsLazy(v: Json)
  {
    v == JBool(true) || v.JUndef?
  }

  /** What the reduction dereferences: with a lazy wrapper and content, a first query
      with a key requires all to have one (otherwise `concat` is called on `{}`); a
      wrapper that is not lazy reads `acc.data` from the reduced object, which works
      only for a single query. */
  predicate ReduceDefined(rs: seq<QueryRunner>, wrapperLazy: Json, contentLazy: Json)
  {
    rs != [] ==>
      (IsLazy(wrapperLazy) && IsLazy(contentLazy) ==> Truthy(rs[0].key) ==> AllKeyed(rs)) &&
      (!IsLazy(wrapperLazy) ==> |rs| == 1)
  }

  /** The data of the reduced object: keyed by query when every query has a key,
      otherwise the rows of all queries in order. */
  function ReducedData(rs: seq<QueryRunner>, exec: Exec): Json
  {
    if AllKeyed(rs) then JObj(KeyedData(rs, exec)) else JArr(Concatenated(RowsOf(rs, exec)))
  }

  /** `getData()` on the runners of `data()`: `wrapperLazy` is the `lazy` of the
      component `getComponent` returns and `contentLazy` that of `Content`. */
  function GetDataSpec(rs: seq<QueryRunner>, wrapperLazy: Json, contentLazy: Json, exec: Exec): Loaded
    requires ReduceDefined(rs, wrapperLazy, contentLazy)
  {
    if rs == [] then NoData
    else if !IsLazy(wrapperLazy) then
      Deferred(MergedMeta(rs), rs[|rs| - 1].query, QueryStringsOf(rs),
               Concatenated(DatasourcesOf(rs)), Concatenated(RowsOf(rs, exec)))
    else if !IsLazy(contentLazy) then Unreduced(rs)
    else
      Combined(MergedMeta(rs), rs[|rs| - 1].query, QueryStringsOf(rs),
               Concatenated(DatasourcesOf(rs)), ReducedData(rs, exec))
  }

  /** With runners and a lazy content (or a wrapper that is not lazy), the
      reduction is built. */
  lemma GetDataReduced(rs: seq<QueryRunner>, wrapperLazy: Json, contentLazy: Json, exec: Exec)
    requires ReduceDefined(rs, wrapperLazy, contentLazy)
    requires rs != [] && !(IsLazy(wrapperLazy) && !IsLazy(contentLazy))
    ensures var meta, query, qs, ds := MergedMeta(rs), rs[|rs| - 1].query, QueryStringsOf(rs), Concatenated(DatasourcesOf(rs));
      GetDataSpec(rs, wrapperLazy, contentLazy, exec) ==
        if !IsLazy(wrapperLazy) then Deferred(meta, query, qs, ds, Concatenated(RowsOf(rs, exec)))
        else if AllKeyed(rs) then Combined(meta, query, qs, ds, JObj(KeyedData(rs, exec)))
        else Combined(meta, query, qs, ds, JArr(Concatenated(RowsOf(rs, exec))))
  {
  }

  /** One step of the `reduce`, on each part of the accumulator. */
  lemma ReduceStep(rs: seq<QueryRunner>, i: nat, exec: Exec)
    requires i < |rs|
    ensures MergedMeta(rs[..i + 1]) == MergeMeta(MergedMeta(rs[..i]), rs[i].tableMeta)
    ensures QueryStringsOf(rs[..i + 1]) == QueryStringsOf(rs[..i]) + [rs[i].queryString]
    ensures Concatenated(DatasourcesOf(rs[..i + 1])) == Concatenated(DatasourcesOf(rs[..i])) + rs[i].datasource
    ensures KeyedData(rs[..i + 1], exec) == ObjAssign(KeyedData(rs[..i], exec), ToStr(rs[i].key), KeyedValue(exec(rs[i]), rs[i].isArray))
    ensures Concatenated(RowsOf(rs[..i + 1], exec)) == Concatenated(RowsOf(rs[..i], exec)) + exec(rs[i])
  {
    var next := rs[..i + 1];
    assert next[..i] == rs[..i] && next[i] == rs[i];
    assert DatasourcesOf(next)[..i] == DatasourcesOf(rs[..i]);
    assert RowsOf(next, exec)[..i] == RowsOf(rs[..i], exec);
  }

  /** `data.filter((d) => d.key).length`. */
  method CountKeys(rs: seq<QueryRunner>) returns (keyed: nat)
    ensures keyed == CountKeyed(rs)
  {
    keyed := 0;
    var j := 0;
    while j < |rs|
      invariant j <= |rs|
      invariant keyed == CountKeyed(rs[..j])
    {
      assert rs[..j + 1][..j] == rs[..j];
      if Truthy(rs[j].key) {
        keyed := keyed + 1;
      }
      j := j + 1;
    }
    assert rs[..j] == rs;
  }

  /** The loop of the `reduce` of `getData`, one query at a time: the metadata is
      merged, the statements and descriptors appended, and the rows written under the
      query's key (`keyed`) or appended. */
  method Accumulate(rs: seq<QueryRunner>, keyed: bool, exec: Exec)
    returns (meta: Meta, query: string, queryStrings: seq<Option<Select>>, datasource: seq<Descriptor>,
             byKey: seq<Prop>, rows: seq<Json>)
    requires rs != []
    ensures meta == MergedMeta(rs) && query == rs[|rs| - 1].query
    ensures queryStrings == QueryStringsOf(rs) && datasource == Concatenated(DatasourcesOf(rs))
    ensures keyed ==> byKey == KeyedData(rs, exec)
    ensures !keyed ==> rows == Concatenated(RowsOf(rs, exec))
  {
    meta := Meta(None, [], []);
    query := "";
    queryStrings := [];
    datasource := [];
    byKey := [];
    rows := [];
    var i := 0;
    while i < |rs|
      invariant i <= |rs|
      invariant meta == MergedMeta(rs[..i])
      invariant i > 0 ==> query == rs[i - 1].query
      invariant queryStrings == QueryStringsOf(rs[..i])
      invariant datasource == Concatenated(DatasourcesOf(rs[..i]))
      invariant keyed ==> byKey == KeyedData(rs[..i], exec)
      invariant !keyed ==> rows == Concatenated(RowsOf(rs[..i], exec))
    {
      ReduceStep(rs, i, exec);
      var d := rs[i];
      meta := MergeMeta(meta, d.tableMeta);
      query := d.query;
      queryStrings := queryStrings + [d.queryString];
      datasource := datasource + d.datasource;
      var results := exec(d);
      if keyed {
        byKey := ObjAssign(byKey, ToStr(d.key), KeyedValue(results, d.isArray));
      } else {
        rows := rows + results;
      }
      i := i + 1;
    }
    assert rs[..i] == rs;
  }

  /** `getData()` from the runners on: `false` without runners, the runner list for a
      content component that is not lazy, else the reduced object. */
  method ReduceRunners(rs: seq<QueryRunner>, wrapperLazy: Json, contentLazy: Json, exec: Exec)
    returns (r: Loaded)
    requires ReduceDefined(rs, wrapperLazy, contentLazy)
    ensures r == GetDataSpec(rs, wrapperLazy, contentLazy, exec)
  {
    if |rs| == 0 {
      return NoData;
    }
    if IsLazy(wrapperLazy) && !IsLazy(contentLazy) {
      return Unreduced(rs);
    }
    var count := CountKeys(rs);
    var keyed := count == |rs| && IsLazy(wrapperLazy);
    var meta, query, queryStrings, datasource, byKey, rows := Accumulate(rs, keyed, exec);
    GetDataReduced(rs, wrapperLazy, contentLazy, exec);
    if !IsLazy(wrapperLazy) {
      r := Deferred(meta, query, queryStrings, datasource, rows);
    } else if keyed {
      r := Combined(meta, query, queryStrings, datasource, JObj(byKey));
    } else {
      r := Combined(meta, query, queryStrings, datasource, JArr(rows));
    }
  }

  // ----- the combined summary -----

  /** What one query's `summary(config)` returns: nothing for an empty field, else
      the rows of its summary statement (`run`). */
  function SummaryOf(qs: Select, c: SummaryConfig, run: Select -> seq<Json>): seq<Json>
  {
    match SummaryStatement(qs, c)
    case None => []
    case Some(s) => run(s)
  }

  /** Every query has a statement. */
  predicate AllStatements(stmts: seq<Option<Select>>)
  {
    forall i :: 0 <= i < |stmts| ==> stmts[i].Some?
  }

  /** The lists `f` gives for the statements, concatenated. */
  function ConcatOver(stmts: seq<Option<Select>>, f: Select -> seq<Json>): seq<Json>
    requires AllStatements(stmts)
    decreases |stmts|
  {
    if stmts == [] then []
    else ConcatOver(stmts[..|stmts| - 1], f) + f(stmts[|stmts| - 1].value)
  }

  /** `data.summary(config)`: the summaries of the queries, concatenated. Every query
      must have a statement, since `summary` clones it first. */
  function CombinedSummary(stmts: seq<Option<Select>>, c: SummaryConfig, run: Select -> seq<Json>): seq<Json>
    requires AllStatements(stmts)
  {
    ConcatOver(stmts, s => SummaryOf(s, c, run))
  }

  /** With an empty field the combined summary is empty. */
  lemma EmptyFieldNoSummary(stmts: seq<Option<Select>>, c: SummaryConfig, run: Select -> seq<Json>)
    requires AllStatements(stmts)
    requires !Truthy(c.field)
    ensures CombinedSummary(stmts, c, run) == []
  {
    ConcatOverEmpty(stmts, s => SummaryOf(s, c, run));
  }

  lemma {:induction false} ConcatOverEmpty(stmts: seq<Option<Select>>, f: Select -> seq<Json>)
    requires AllStatements(stmts)
    requires forall s :: f(s) == []
    ensures ConcatOver(stmts, f) == []
    decreases |stmts|
  {
    if stmts != [] {
      ConcatOverEmpty(stmts[..|stmts| - 1], f);
    }
  }

  /** The combined summary of two batches of queries is the first batch's followed
      by the second's. */
  lemma CombinedSummaryAppend(a: seq<Option<Select>>, b: seq<Option<Select>>, c: SummaryConfig,
                              run: Select -> seq<Json>)
    requires AllStatements(a) && AllStatements(b)
    ensures AllStatements(a + b)
    ensures CombinedSummary(a + b, c, run) == CombinedSummary(a, c, run) + CombinedSummary(b, c, run)
  {
    ConcatOverAppend(a, b, s => SummaryOf(s, c, run));
  }

  lemma {:induction false} ConcatOverAppend(a: seq<Option<Select>>, b: seq<Option<Select>>, f: Select -> seq<Json>)
    requires AllStatements(a) && AllStatements(b)
    ensures AllStatements(a + b)
    ensures ConcatOver(a + b, f) == ConcatOver(a, f) + ConcatOver(b, f)
    decreases |b|
  {
    if b == [] {
      assert a + b == a;
    } else {
      var n := |b|;
      AppendLast(a, b);
      AllStatementsSlices(a, b);
      ConcatOverAppend(a, b[..n - 1], f);
    }
  }

  lemma AllStatementsSlices(a: seq<Option<Select>>, b: seq<Option<Select>>)
    requires AllStatements(a) && AllStatements(b) && b != []
    ensures AllStatements(b[..|b| - 1]) && AllStatements(a + b) && AllStatements(a + b[..|b| - 1])
  {
  }
}
