/** The filters a component adds to each of its queries: the global filters named in
    the page's URL and described by the filter catalogue, the associated filters of the
    component, and its local range and multi-value filters. All of them become rules
    of one `and` group that replaces the query's conditions. */
module Filters {

  import opened Outcomes
  import opened JsString
  import opened JsValue
  import opened WhereOps
  import opened WhereSpec
  import opened Query

  // ----- activeFilters -----

  /** `{ scope, hash, values }` of one active URL filter; an absent scope is `None`. */
  datatype ActiveFilter = ActiveFilter(scope: Option<string>, hash: string, values: seq<string>)

  predicate AllWord(s: string)
  {
    forall i :: 0 <= i < |s| ==> IsWordChar(s[i])
  }

  predicate NoSpace(s: string)
  {
    forall i :: 0 <= i < |s| ==> !IsWhitespace(s[i])
  }

  /** A `-` at index `p + 1` means the string has a last `-`, at `p + 1` or later. */
  lemma LastDashFrom(key: string, p: nat)
    requires p + 1 < |key| && key[p + 1] == '-'
    ensures LastIndexOf(key, '-').Some? && LastIndexOf(key, '-').value >= p + 1
  {
  }

  /** The match of `/f(?:-(\S+))?-(\w+)$/i` that begins at index `p`, as the pair
      (scope, hash). The hash is the word after the last `-`, which must end the key;
      the optional scope is everything between `f-` and that `-`: at least one
      character, none of them white space. */
  function MatchAt(key: string, p: nat): Option<(Option<string>, string)>
  {
    if p + 1 >= |key| || !(key[p] == 'f' || key[p] == 'F') || key[p + 1] != '-' then None
    else
      LastDashFrom(key, p);
      var l := LastIndexOf(key, '-').value;
      var hash := key[l + 1..];
      if hash == [] || !AllWord(hash) then None
      else if l == p + 1 then Some((None, hash))
      else if l > p + 2 && NoSpace(key[p + 2..l]) then Some((Some(key[p + 2..l]), hash))
      else None
  }

  /** `key.match(r)`: the leftmost match at index `p` or later. */
  function ParseKey(key: string, p: nat): Option<(Option<string>, string)>
    decreases |key| - p
  {
    if p >= |key| then None
    else if MatchAt(key, p).Some? then MatchAt(key, p)
    else ParseKey(key, p + 1)
  }

  /** The URL key of a filter: `f-hash` or `f-scope-hash`. */
  function FilterKey(scope: Option<string>, hash: string): string
  {
    "f-" + (if scope.Some? then scope.value + "-" else "") + hash
  }

  /** A filter key with a word as hash and a scope free of white space parses back to
      its scope and hash. */
  lemma ParseFilterKey(scope: Option<string>, hash: string)
    requires hash != [] && AllWord(hash)
    requires scope.Some? ==> scope.value != [] && NoSpace(scope.value)
    ensures ParseKey(FilterKey(scope, hash), 0) == Some((scope, hash))
  {
    var key := FilterKey(scope, hash);
    var l := if scope.Some? then |scope.value| + 2 else 1;
    assert key[l] == '-' && key[l + 1..] == hash;
    assert '-' !in hash by {
      forall i | 0 <= i < |hash| ensures hash[i] != '-' {
        assert IsWordChar(hash[i]);
      }
    }
    LastDashFrom(key, l - 1);
    assert LastIndexOf(key, '-') == Some(l);
    if scope.Some? {
      assert key[2..l] == scope.value;
    }
    assert MatchAt(key, 0) == Some((scope, hash));
  }

  /** A key the pattern matches ends with `f-`, in either case, followed by the scope
      and a `-` when there is one, and the hash, a non-empty word. */
  lemma {:induction false} ParsedKeyShape(key: string, p: nat)
    requires ParseKey(key, p).Some?
    ensures var m := ParseKey(key, p).value;
      m.1 != [] && AllWord(m.1) && (m.0.Some? ==> m.0.value != [] && NoSpace(m.0.value)) &&
      exists q :: p <= q < |key| && (key[q] == 'f' || key[q] == 'F') &&
        key[q + 1..] == FilterKey(m.0, m.1)[1..]
    decreases |key| - p
  {
    if MatchAt(key, p).Some? {
      LastDashFrom(key, p);
      var l := LastIndexOf(key, '-').value;
      var m := MatchAt(key, p).value;
      assert ParseKey(key, p) == MatchAt(key, p);
      assert key[l + 1..] == m.1;
      if l == p + 1 {
        assert key[p + 1..] == FilterKey(m.0, m.1)[1..];
      } else {
        assert m == (Some(key[p + 2..l]), key[l + 1..]);
        assert |m.0.value| == l - (p + 2) > 0;
        assert key[p + 1..] == "-" + key[p + 2..l] + "-" + key[l + 1..];
        assert key[p + 1..] == FilterKey(m.0, m.1)[1..];
      }
    } else {
      ParsedKeyShape(key, p + 1);
    }
  }

  /** `URLSearchParams.get(key)`: the value of the first pair with that key. */
  function FirstValue(params: seq<(string, string)>, key: string): string
    requires exists i :: 0 <= i < |params| && params[i].0 == key
  {
    if params[0].0 == key then params[0].1
    else
      assert exists i :: 0 <= i < |params[1..]| && params[1..][i].0 == key by {
        var i :| 0 <= i < |params| && params[i].0 == key;
        assert params[1..][i - 1] == params[i];
      }
      FirstValue(params[1..], key)
  }

  /** The active filters among the first `n` keys of the query string. */
  function ActiveUpTo(params: seq<(string, string)>, n: nat): seq<ActiveFilter>
    requires n <= |params|
  {
    if n == 0 then []
    else
      var key := params[n - 1].0;
      ActiveUpTo(params, n - 1) +
        match ParseKey(key, 0)
        case None => []
        case Some(m) => [ActiveFilter(m.0, m.1, Split(FirstValue(params, key), ','))]
  }

  /** `activeFilters()`, given the pairs of the page's query string in order. */
  function ActiveFilters(params: seq<(string, string)>): seq<ActiveFilter>
  {
    ActiveUpTo(params, |params|)
  }

  /** A key the filter UI writes is active, with its scope, its hash and the
      comma-separated parts of the first value given for it. */
  lemma {:induction false} WrittenKeyActive(params: seq<(string, string)>, n: nat, i: nat,
                                            scope: Option<string>, hash: string)
    requires i < n <= |params|
    requires params[i].0 == FilterKey(scope, hash)
    requires hash != [] && AllWord(hash)
    requires scope.Some? ==> scope.value != [] && NoSpace(scope.value)
    ensures ActiveFilter(scope, hash, Split(FirstValue(params, params[i].0), ',')) in ActiveUpTo(params, n)
  {
    if i == n - 1 {
      ParseFilterKey(scope, hash);
    } else {
      WrittenKeyActive(params, n - 1, i, scope, hash);
    }
  }

  // ----- buildFilters -----

  /** An entry of the filter catalogue: `{ hash, datasource: { id }, field, has,
      values }`, `has` being the comparison symbol. */
  datatype CatalogFilter = CatalogFilter(hash: Json, datasourceId: Json, field: string, has: string, values: seq<Json>)

  /** `find(filters, { hash })`: the first entry whose hash is that string. */
  function FindCatalog(catalog: seq<CatalogFilter>, hash: string): (r: Option<CatalogFilter>)
    ensures r.Some? ==> r.value in catalog && r.value.hash == JStr(hash)
    ensures r.None? ==> forall c :: c in catalog ==> c.hash != JStr(hash)
    ensures forall i | 0 <= i < |catalog| && catalog[i].hash == JStr(hash) ::
      (forall j :: 0 <= j < i ==> catalog[j].hash != JStr(hash)) ==> r == Some(catalog[i])
  {
    if catalog == [] then None
    else if catalog[0].hash == JStr(hash) then Some(catalog[0])
    else
      var r := FindCatalog(catalog[1..], hash);
      assert forall i :: 0 < i < |catalog| ==> catalog[i] == catalog[1..][i - 1];
      r
  }

  /** The entry is on the query's table and has values. */
  predicate Applies(c: CatalogFilter, table: string)
  {
    c.datasourceId == JStr(table) && |c.values| > 0
  }

  /** `buildFilters(query)`: the catalogue entries of the active filters that apply
      to the query's table, in the order of the URL. */
  function BuildFilters(catalog: seq<CatalogFilter>, active: seq<ActiveFilter>, table: string): seq<CatalogFilter>
    decreases |active|
  {
    if active == [] then []
    else
      var found := FindCatalog(catalog, active[|active| - 1].hash);
      BuildFilters(catalog, active[..|active| - 1], table) +
        if found.Some? && Applies(found.value, table) then [found.value] else []
  }

  /** An entry is kept exactly when it is the catalogue entry of an active hash and it
      applies to the table. */
  lemma {:induction false} BuildFiltersKeeps(catalog: seq<CatalogFilter>, active: seq<ActiveFilter>, table: string,
                                             c: CatalogFilter)
    ensures c in BuildFilters(catalog, active, table) <==>
      Applies(c, table) && exists i :: 0 <= i < |active| && FindCatalog(catalog, active[i].hash) == Some(c)
    decreases |active|
  {
    if active != [] {
      var n := |active|;
      var pre := active[..n - 1];
      BuildFiltersKeeps(catalog, pre, table, c);
      var found := FindCatalog(catalog, active[n - 1].hash);
      assert c in BuildFilters(catalog, active, table) <==>
        c in BuildFilters(catalog, pre, table) || (found == Some(c) && Applies(c, table));
      if exists i :: 0 <= i < n && FindCatalog(catalog, active[i].hash) == Some(c) {
        var i :| 0 <= i < n && FindCatalog(catalog, active[i].hash) == Some(c);
        if i < n - 1 {
          assert pre[i] == active[i];
        }
      }
      if exists i :: 0 <= i < n - 1 && FindCatalog(catalog, pre[i].hash) == Some(c) {
        var i :| 0 <= i < n - 1 && FindCatalog(catalog, pre[i].hash) == Some(c);
        assert pre[i] == active[i];
      }
    }
  }

  // ----- the rules -----

  /** `this.value(field, operator, value)`; the id is left out and the rule has no type. */
  function ValueRule(field: string, operator: string, value: Json): Node
  {
    Rule(field, operator, value, "")
  }

  /** `this.operators[has]`: the rule operator of a comparison symbol; `""` stands for
      the `undefined` of any other symbol, which names no operator. */
  function OperatorName(has: string): string
  {
    if has == "=" then "equal"
    else if has == ">" then "greater"
    else if has == "<" then "less"
    else if has == ">=" then "greater_or_equal"
    else if has == "<=" then "less_or_equal"
    else if has == "!=" then "not_equal"
    else if has == "LIKE" then "contains"
    else ""
  }

  /** A comparison symbol becomes the operator whose SQL is that symbol. */
  lemma GlobalOperators(has: string)
    requires has in ["=", ">", "<", ">=", "<=", "!="]
    ensures !IsPrototypeKey(OperatorName(has))
    ensures ParseOperator(OperatorName(has)).Some? && Template(ParseOperator(OperatorName(has)).value) == has + " ?"
  {
    if has == "=" {
      SymbolOperator(has, Equal);
    } else if has == ">" {
      SymbolOperator(has, Greater);
    } else if has == "<" {
      SymbolOperator(has, Less);
    } else if has == ">=" {
      SymbolOperator(has, GreaterOrEqual);
    } else if has == "<=" {
      SymbolOperator(has, LessOrEqual);
    } else {
      SymbolOperator(has, NotEqual);
    }
  }

  /** `LIKE` becomes `contains`, and any other symbol an operator the compiler
      skips. */
  lemma OtherOperators(has: string)
    requires has !in ["=", ">", "<", ">=", "<=", "!="]
    ensures !IsPrototypeKey(OperatorName(has))
    ensures has == "LIKE" ==> ParseOperator(OperatorName(has)) == Some(Contains)
    ensures has != "LIKE" ==> ParseOperator(OperatorName(has)).None?
  {
    if has == "LIKE" {
      SymbolOperator(has, Contains);
    } else {
      assert OperatorName(has) == "";
    }
  }

  /** A symbol whose operator name is `op`'s key finds `op`. */
  lemma SymbolOperator(has: string, op: Operator)
    requires OperatorName(has) == Name(op)
    ensures ParseOperator(OperatorName(has)) == Some(op) && !IsPrototypeKey(OperatorName(has))
  {
    ParseName(op);
  }

  /** The rules of `applyGlobalFilters`: one per filter, on its field, with its
      symbol's operator and its list of values. */
  function GlobalRules(filters: seq<CatalogFilter>): (r: seq<Node>)
    ensures |r| == |filters|
  {
    seq(|filters|, i requires 0 <= i < |filters| =>
      ValueRule(filters[i].field, OperatorName(filters[i].has), JArr(filters[i].values)))
  }

  /** An associated filter of the component: `{ field, fn, value }`. */
  datatype AssociatedFilter = AssociatedFilter(field: string, fn: string, value: Json)

  /** The rules of `applyAssociatedFilters`: one per filter whose field is a column of
      the table, in order. */
  function AssociatedRules(assoc: seq<AssociatedFilter>, fieldNames: seq<string>): seq<Node>
    decreases |assoc|
  {
    if assoc == [] then []
    else
      var a := assoc[|assoc| - 1];
      AssociatedRules(assoc[..|assoc| - 1], fieldNames) +
        (if a.field in fieldNames then [ValueRule(a.field, a.fn, a.value)] else [])
  }

  /** Every associated rule is that of a filter on a column, and every filter on a
      column has its rule. */
  lemma {:induction false} AssociatedRulesOnColumns(assoc: seq<AssociatedFilter>, fieldNames: seq<string>, n: Node)
    ensures n in AssociatedRules(assoc, fieldNames) <==>
      exists a :: a in assoc && a.field in fieldNames && n == ValueRule(a.field, a.fn, a.value)
    decreases |assoc|
  {
    if assoc != [] {
      var k := |assoc|;
      var pre := assoc[..k - 1];
      AssociatedRulesOnColumns(pre, fieldNames, n);
      assert assoc == pre + [assoc[k - 1]];
      if exists a :: a in assoc && a.field in fieldNames && n == ValueRule(a.field, a.fn, a.value) {
        var a :| a in assoc && a.field in fieldNames && n == ValueRule(a.field, a.fn, a.value);
        if a != assoc[k - 1] {
          assert a in pre;
        }
      }
    }
  }

  /** `this.state.rangeFilter`: `{ field, range, start, end }`. */
  datatype RangeState = RangeState(field: Json, range: Json, start: Json, end: Json)

  /** The range rules: `field >= start` and `field <= end`, when a field is set. */
  function RangeRules(r: RangeState): (rules: seq<Node>)
    ensures Truthy(r.field) ==>
      |rules| == 2 && rules[0].Rule? && rules[1].Rule? &&
      ParseOperator(rules[0].operator) == Some(GreaterOrEqual) && rules[0].value == r.start &&
      ParseOperator(rules[1].operator) == Some(LessOrEqual) && rules[1].value == r.end
    ensures !Truthy(r.field) ==> rules == []
  {
    if Truthy(r.field) then
      [ValueRule(ToStr(r.field), "greater_or_equal", r.start), ValueRule(ToStr(r.field), "less_or_equal", r.end)]
    else []
  }

  /** One `in` rule per field of the multi-value selection, with its list of values. */
  function MultiValueRules(fields: seq<Prop>): (r: seq<Node>)
    ensures |r| == |fields|
    ensures forall i :: 0 <= i < |r| ==>
      r[i].Rule? && r[i].field == fields[i].key && ParseOperator(r[i].operator) == Some(In) && r[i].value == fields[i].val
  {
    seq(|fields|, i requires 0 <= i < |fields| => ValueRule(fields[i].key, "in", fields[i].val))
  }

  /** The rules of `applyLocalFilters`: the range rules, then the multi-value rules. */
  function LocalRules(r: RangeState, fields: seq<Prop>): seq<Node>
  {
    RangeRules(r) + MultiValueRules(fields)
  }

  // ----- applyFilters -----

  /** The `and` group of `applyFilters`: the global, associated and local rules, then
      the query's own conditions, if any, as the last child. */
  function FilterGroup(global: seq<Node>, assoc: seq<Node>, local: seq<Node>, conditions: Option<Node>): Node
  {
    Group("and", global + assoc + local + (if conditions.Some? then [conditions.value] else []))
  }

  /** The children come in the order global, associated, local, conditions; the
      conditions are the last child exactly when present. */
  lemma FilterGroupLayout(global: seq<Node>, assoc: seq<Node>, local: seq<Node>, conditions: Option<Node>)
    ensures var g := FilterGroup(global, assoc, local, conditions);
      var a := |global|;
      var b := a + |assoc|;
      var c := b + |local|;
      g.combinator == "and" &&
      |g.rules| == c + (if conditions.Some? then 1 else 0) &&
      g.rules[..a] == global && g.rules[a..b] == assoc && g.rules[b..c] == local &&
      (conditions.Some? ==> g.rules[c] == conditions.value)
  {
    var g := FilterGroup(global, assoc, local, conditions);
    var a := |global|;
    var b := a + |assoc|;
    var c := b + |local|;
    assert g.rules[..c] == global + assoc + local;
    assert (global + assoc + local)[..a] == global;
    assert (global + assoc + local)[a..b] == assoc;
    assert (global + assoc + local)[b..c] == local;
  }

  /** The rules the filters build are ones the compiler walks without crashing: their
      operators are never inherited members of the operator tables. */
  predicate SafeRules(rules: seq<Node>)
  {
    forall i :: 0 <= i < |rules| ==> rules[i].Rule? && RuleSupported(rules[i])
  }

  lemma GlobalRulesSafe(filters: seq<CatalogFilter>)
    ensures SafeRules(GlobalRules(filters))
  {
    forall i | 0 <= i < |filters| ensures !IsPrototypeKey(OperatorName(filters[i].has)) {
      if filters[i].has in ["=", ">", "<", ">=", "<=", "!="] {
        GlobalOperators(filters[i].has);
      } else {
        OtherOperators(filters[i].has);
      }
    }
  }

  lemma LocalRulesSafe(r: RangeState, fields: seq<Prop>)
    ensures SafeRules(LocalRules(r, fields))
  {
    var range := RangeRules(r);
    var mv := MultiValueRules(fields);
    assert !IsPrototypeKey("greater_or_equal") && !IsPrototypeKey("less_or_equal");
    assert SafeRules(range);
    assert !IsPrototypeKey("in");
    assert SafeRules(mv) by {
      forall i | 0 <= i < |mv| ensures mv[i].Rule? && RuleSupported(mv[i]) {
        assert mv[i] == ValueRule(fields[i].key, "in", fields[i].val);
      }
    }
    forall i | 0 <= i < |range + mv| ensures (range + mv)[i].Rule? && RuleSupported((range + mv)[i]) {
      if i >= |range| {
        assert (range + mv)[i] == mv[i - |range|];
      }
    }
  }

  /** The filter group compiles whenever the associated operators are not inherited
      members and the query's own conditions compile or are an empty group. */
  lemma FilterGroupSupported(global: seq<Node>, assoc: seq<Node>, local: seq<Node>, conditions: Option<Node>)
    requires SafeRules(global) && SafeRules(assoc) && SafeRules(local)
    requires conditions.Some? ==> ChildSupported(conditions.value)
    ensures Supported(FilterGroup(global, assoc, local, conditions))
  {
    var g := FilterGroup(global, assoc, local, conditions);
    FilterGroupLayout(global, assoc, local, conditions);
    var a := |global|;
    var b := a + |assoc|;
    var c := b + |local|;
    forall i | 0 <= i < |g.rules| ensures ChildSupported(g.rules[i]) {
      if i < a {
        assert g.rules[i] == global[i];
      } else if i < b {
        assert g.rules[i] == g.rules[a..b][i - a];
      } else if i < c {
        assert g.rules[i] == g.rules[b..c][i - b];
      }
    }
  }

  /** The rules of the associated filters are safe when no filter's operator is an
      inherited member of the operator tables. */
  lemma {:induction false} AssociatedRulesSafe(assoc: seq<AssociatedFilter>, fieldNames: seq<string>)
    requires forall i :: 0 <= i < |assoc| ==> !IsPrototypeKey(assoc[i].fn)
    ensures SafeRules(AssociatedRules(assoc, fieldNames))
    decreases |assoc|
  {
    if assoc != [] {
      AssociatedRulesSafe(assoc[..|assoc| - 1], fieldNames);
    }
  }
}
