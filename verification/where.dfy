/** `getSQL`: compiles a query-builder rule tree to a SQL `WHERE` expression, with
    the values either inline or bound to a prepared statement. The walk changes the
    statement object step by step and is proved to compute `WhereSpec.Compile`. */
module Where {

  import opened Outcomes
  import opened JsString
  import opened JsValue
  import opened WhereOps
  import opened WhereSpec

  /** A statement object of one of the three factories (question marks, numbered,
      named): it collects the values `add` binds and hands them out in `run`. */
  class StatementBuilder {
    const mode: Mode
    var params: seq<Json>
    var index: nat
    var indexes: map<string, Tally>
    var named: seq<Prop>

    /** The statement object as a value. */
    function State(): Builder
      reads this
    {
      Builder(mode, params, index, indexes, named)
    }

    constructor (m: Mode)
      ensures State() == NewBuilder(m)
    {
      mode := m;
      params := [];
      index := 0;
      indexes := map[];
      named := [];
    }

    /** `add(rule, value)`. */
    method Add(field: string, v: Json) returns (placeholder: string)
      modifies this
      ensures State() == WhereSpec.Add(old(State()), field, v).0
      ensures placeholder == WhereSpec.Add(old(State()), field, v).1
    {
      match mode
      case QuestionMark =>
        params := params + [v];
        placeholder := "?";
      case Numbered(c) =>
        params := params + [v];
        index := index + 1;
        placeholder := [c] + IntToString(index);
      case Named(c) =>
        placeholder := AddNamed(c, field, v);
    }

    /** `add` in named mode: the field's counter names the value. */
    method AddNamed(c: char, field: string, v: Json) returns (placeholder: string)
      requires mode == Named(c)
      modifies this
      ensures State() == WhereSpec.Add(old(State()), field, v).0
      ensures placeholder == WhereSpec.Add(old(State()), field, v).1
    {
      ghost var b := State();
      var k := NextCounter(field);
      var key := NamedKey(field, k);
      named := ObjAssign(named, key, v);
      placeholder := [c] + key;
      AddNamedResult(b, field, v);
    }

    /** `if (!indexes[field]) indexes[field] = 1;` then `indexes[field]++`. */
    method NextCounter(field: string) returns (k: Tally)
      modifies this
      ensures k == Counter(old(State()), field)
      ensures indexes == Store(old(indexes), field, Succ(k))
      ensures params == old(params) && index == old(index) && named == old(named)
    {
      if !SlotTruthy(CounterSlot(indexes, field)) {
        indexes := Store(indexes, field, Num(1));
      }
      k := SlotNumber(CounterSlot(indexes, field));
      indexes := Store(indexes, field, Succ(k));
    }

    /** `run()`. */
    method Run() returns (p: Params)
      ensures p == RunParams(State())
    {
      if mode.Named? {
        p := Keyed(named);
      } else {
        p := Positional(params);
      }
    }
  }

  /** In named mode `add` moves the field's counter on and binds `field_k`. */
  lemma AddNamedResult(b: Builder, field: string, v: Json)
    requires b.mode.Named?
    ensures var k := Counter(b, field);
      WhereSpec.Add(b, field, v) ==
        (Builder(b.mode, b.positional, b.index, Store(b.counters, field, Succ(k)), ObjAssign(b.keyed, NamedKey(field, k), v)),
         [b.mode.mark] + NamedKey(field, k))
  {
  }

  /** The state of an optional statement object. */
  function StateOf(stmt: StatementBuilder?): Option<Builder>
    reads stmt
  {
    if stmt == null then None else Some(stmt.State())
  }

  /** Writes one coerced value: bound to the statement, or inline and quoted when
      it is a string. */
  method Bind(field: string, v: Json, stmt: StatementBuilder?) returns (text: string)
    modifies stmt
    ensures text == Emit(old(StateOf(stmt)), field, v).0
    ensures StateOf(stmt) == Emit(old(StateOf(stmt)), field, v).1
  {
    if stmt != null {
      text := stmt.Add(field, v);
    } else if v.JStr? {
      text := "'" + v.s + "'";
    } else {
      text := ToStr(v);
    }
  }

  /** The values of one rule, written one after the other with the operator's
      separator between them. */
  method ValuesSql(field: string, ruleType: string, op: Operator, vals: seq<Json>, stmt: StatementBuilder?)
    returns (r: Result<string, WhereError>)
    requires ruleType != "double"
    modifies stmt
    ensures var spec := ValuesText(field, ruleType, op, vals, old(StateOf(stmt)));
      && (r.Ok? <==> spec.Ok?)
      && (r.Err? ==> r.error == spec.error)
      && (r.Ok? ==> spec.value == Acc(r.value, StateOf(stmt)))
  {
    ghost var b0 := StateOf(stmt);
    var value := "";
    var i := 0;
    while i < |vals|
      invariant 0 <= i <= |vals|
      invariant ValuesText(field, ruleType, op, vals[..i], b0) == Ok(Acc(value, StateOf(stmt)))
    {
      var next := ValuesStep(field, ruleType, op, vals, i, value, stmt, b0);
      if next.Err? {
        return next;
      }
      value := next.value;
      i := i + 1;
    }
    assert vals[..i] == vals;
    r := Ok(value);
  }

  /** One iteration of the loop over the values of a rule. */
  method ValuesStep(field: string, ruleType: string, op: Operator, vals: seq<Json>, i: nat, value: string,
                    stmt: StatementBuilder?, ghost b0: Option<Builder>)
    returns (next: Result<string, WhereError>)
    requires ruleType != "double" && i < |vals|
    requires ValuesText(field, ruleType, op, vals[..i], b0) == Ok(Acc(value, StateOf(stmt)))
    modifies stmt
    ensures next.Err? ==> ValuesText(field, ruleType, op, vals, b0) == Err(next.error)
    ensures next.Ok? ==> ValuesText(field, ruleType, op, vals[..i + 1], b0) == Ok(Acc(next.value, StateOf(stmt)))
  {
    ValuesTextSnoc(field, ruleType, op, vals, i, b0);
    next := ValueSql(field, ruleType, op, i, vals[i], value, stmt);
    if next.Err? {
      ValuesErrPersists(field, ruleType, op, vals, i + 1, b0);
    }
  }

  /** Value number `i` of a rule appended to the text so far. */
  method ValueSql(field: string, ruleType: string, op: Operator, i: nat, v: Json, value: string, stmt: StatementBuilder?)
    returns (r: Result<string, WhereError>)
    requires ruleType != "double"
    modifies stmt
    ensures var spec := ValueStep(field, ruleType, op, i, v, Acc(value, old(StateOf(stmt))));
      && (r.Ok? <==> spec.Ok?)
      && (r.Err? ==> r.error == spec.error)
      && (r.Ok? ==> spec.value == Acc(r.value, StateOf(stmt)))
  {
    ghost var b := StateOf(stmt);
    var text := value;
    if i > 0 {
      text := text + SepText(op);
    }
    var c := Coerce(v, ruleType, stmt != null, op);
    assert c == Coerce(v, ruleType, b.Some?, op);
    if c.Err? {
      return Err(c.error);
    }
    var bound := Bind(field, c.value, stmt);
    ghost var e := Emit(b, field, c.value);
    assert bound == e.0 && StateOf(stmt) == e.1;
    assert text == value + (if i > 0 then SepText(op) else "");
    assert ValueStep(field, ruleType, op, i, v, Acc(value, b)) == Ok(Acc(value + (if i > 0 then SepText(op) else "") + e.0, e.1));
    r := Ok(text + bound);
  }

  /** A child that is not a nested group: the SQL of a rule with a known operator
      is added to the parts. */
  method RuleSql(rule: Node, parts: seq<string>, stmt: StatementBuilder?)
    returns (r: Result<seq<string>, WhereError>)
    requires !IsNested(rule) && (rule.Rule? ==> RuleSupported(rule))
    modifies stmt
    ensures var spec := RuleStep(rule, Parts(parts, old(StateOf(stmt))));
      && (r.Ok? <==> spec.Ok?)
      && (r.Err? ==> r.error == spec.error)
      && (r.Ok? ==> spec.value == Parts(r.value, StateOf(stmt)))
  {
    if rule.Group? || ParseOperator(rule.operator).None? {
      return Ok(parts);
    }
    var op := ParseOperator(rule.operator).value;
    var value := "";
    if NbInputs(op) != 0 {
      var res := ValuesSql(rule.field, rule.ruleType, op, ValueList(rule.value), stmt);
      if res.Err? {
        return Err(res.error);
      }
      value := res.value;
    }
    r := Ok(parts + [rule.field + " " + ReplaceFirst(Template(op), "?", value)]);
  }

  /** `parse(group)`. */
  method Parse(g: Node, nl: string, stmt: StatementBuilder?) returns (r: Result<string, WhereError>)
    requires Supported(g)
    modifies stmt
    ensures var spec := GroupSpec(g, nl, old(StateOf(stmt)));
      && (r.Ok? <==> spec.Ok?)
      && (r.Err? ==> r.error == spec.error)
      && (r.Ok? ==> spec.value == Acc(r.value, StateOf(stmt)))
    decreases g, 1
  {
    if AsciiUpper(g.combinator) != "AND" && AsciiUpper(g.combinator) != "OR" {
      return Err(BadCombinator(g.combinator));
    }
    ghost var b0 := StateOf(stmt);
    var parts: seq<string> := [];
    var i := 0;
    while i < |g.rules|
      invariant 0 <= i <= |g.rules|
      invariant PartsSpec(g, i, nl, b0) == Ok(Parts(parts, StateOf(stmt)))
    {
      var next := PartStep(g, nl, i, parts, stmt, b0);
      if next.Err? {
        return Err(next.error);
      }
      parts := next.value;
      i := i + 1;
    }
    r := Ok(Join(parts, " " + g.combinator + nl));
  }

  /** One iteration of the loop over the children of a group: a nested group in
      parentheses, or a rule. */
  method PartStep(g: Node, nl: string, i: nat, parts: seq<string>, stmt: StatementBuilder?, ghost b0: Option<Builder>)
    returns (next: Result<seq<string>, WhereError>)
    requires Supported(g) && i < |g.rules|
    requires PartsSpec(g, i, nl, b0) == Ok(Parts(parts, StateOf(stmt)))
    modifies stmt
    ensures next.Err? ==> PartsSpec(g, |g.rules|, nl, b0) == Err(next.error)
    ensures next.Ok? ==> PartsSpec(g, i + 1, nl, b0) == Ok(Parts(next.value, StateOf(stmt)))
    decreases g, 0
  {
    var rule := g.rules[i];
    assert ChildSupported(rule);
    if IsNested(rule) {
      var inner := Parse(rule, nl, stmt);
      if inner.Err? {
        PartsErrPersists(g, i + 1, nl, b0);
        return Err(inner.error);
      }
      next := Ok(parts + ["(" + nl + inner.value + nl + ")" + nl]);
    } else {
      next := RuleSql(rule, parts, stmt);
      if next.Err? {
        PartsErrPersists(g, i + 1, nl, b0);
      }
    }
  }

  /** `getSQL(stmt, multiline, root)`. */
  method GetSQL(stmt: StmtArg, multiline: bool, root: Node) returns (r: Result<Output, WhereError>)
    requires Supported(root)
    ensures r == Compile(stmt, multiline, root)
  {
    var nl := if multiline then "\n" else " ";
    var builder: StatementBuilder? := null;
    if StartMode(stmt).Some? {
      builder := new StatementBuilder(StartMode(stmt).value);
    }
    var sql := Parse(root, nl, builder);
    if sql.Err? {
      return Err(sql.error);
    }
    if builder != null {
      var params := builder.Run();
      r := Ok(Output(sql.value, Some(params)));
    } else {
      r := Ok(Output(sql.value, None));
    }
  }
}
