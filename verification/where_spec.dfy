/** What `getSQL` computes from a rule tree, as functions. The walk goes through the
    children of a group left to right, threading the prepared-statement builder; each
    function is written over a prefix so that the loops of the implementation can keep
    it as their invariant. */
module WhereSpec {

  import opened Outcomes
  import opened JsString
  import opened JsValue
  import opened WhereOps

  /** A node of the query-builder rule tree. */
  datatype Node =
    | Rule(field: string, operator: string, value: Json, ruleType: string)
    | Group(combinator: string, rules: seq<Node>)

  /** A child that is compiled as a parenthesised sub-group. */
  predicate IsNested(n: Node)
  {
    n.Group? && |n.rules| > 0
  }

  /** A rule the compiler handles: its operator is not an inherited member of the
      operator tables (those crash), and a `double` rule takes no input (the float
      coercion is not modelled). */
  predicate RuleSupported(n: Node)
    requires n.Rule?
  {
    !IsPrototypeKey(n.operator) &&
    (n.ruleType == "double" ==>
      ParseOperator(n.operator).None? || NbInputs(ParseOperator(n.operator).value) == 0)
  }

  /** A group the compiler can walk: it has a combinator (an absent one is read from
      settings that do not exist at module level, which crashes), and so do the
      sub-groups it descends into. */
  predicate Supported(g: Node)
    decreases g, 1
  {
    g.Group? && g.combinator != "" &&
    forall i | 0 <= i < |g.rules| :: ChildSupported(g.rules[i])
  }

  predicate ChildSupported(n: Node)
    decreases n, 2
  {
    if n.Rule? then RuleSupported(n) else n.rules == [] || Supported(n)
  }

  // ----- prepared statements -----

  /** A count in `indexes`: a number, or `NaN` once `++` has run on a value that is
      not a number. */
  datatype Tally = Num(n: nat) | NotANumber

  /** The state of a statement object: the mode, the positional values (question
      marks and numbered), the numbered counter, the own entries of the per-field
      counter object `indexes` and the keyed values (named). */
  datatype Builder = Builder(
    mode: Mode,
    positional: seq<Json>,
    index: nat,
    counters: map<string, Tally>,
    keyed: seq<Prop>)

  function NewBuilder(m: Mode): Builder
  {
    Builder(m, [], 0, map[], [])
  }

  /** `${k}` of a count. */
  function TallyText(t: Tally): string
  {
    match t
    case Num(k) => IntToString(k)
    case NotANumber => "NaN"
  }

  /** The parameter name of a value bound for `field` in named mode. */
  function NamedKey(field: string, t: Tally): string
  {
    field + "_" + TallyText(t)
  }

  /** What `indexes[field]` reads on a plain object: an own entry, a member inherited
      from `Object.prototype` (`__proto__` always reads the prototype itself), or
      nothing. */
  datatype Slot = Own(t: Tally) | Inherited | Absent

  function CounterSlot(counters: map<string, Tally>, field: string): Slot
  {
    if field == "__proto__" then Inherited
    else if field in counters then Own(counters[field])
    else if IsPrototypeKey(field) then Inherited
    else Absent
  }

  /** `!!indexes[field]`: an inherited member is a function or an object. */
  predicate SlotTruthy(s: Slot)
  {
    s.Inherited? || (s.Own? && s.t.Num? && s.t.n != 0)
  }

  /** The number `indexes[field]++` yields. */
  function SlotNumber(s: Slot): Tally
  {
    if s.Own? then s.t else NotANumber
  }

  /** `indexes[field] = t`; the `__proto__` setter ignores a value that is not an object. */
  function Store(counters: map<string, Tally>, field: string, t: Tally): map<string, Tally>
  {
    if field == "__proto__" then counters else counters[field := t]
  }

  /** The count after `++`. */
  function Succ(t: Tally): Tally
  {
    match t
    case Num(k) => Num(k + 1)
    case NotANumber => NotANumber
  }

  /** The count `add` uses for `field`: the stored count, 1 after a falsy one, and
      `NaN` for a member of `Object.prototype` not yet overwritten. */
  function Counter(b: Builder, field: string): (t: Tally)
    ensures field == "__proto__" ==> t == NotANumber
    ensures !IsPrototypeKey(field) && field !in b.counters ==> t == Num(1)
    ensures t.Num? ==> t.n >= 1
  {
    var s := CounterSlot(b.counters, field);
    if SlotTruthy(s) then SlotNumber(s) else Num(1)
  }

  /** `stmt.add(rule, value)`: binds the value and returns its placeholder. */
  function Add(b: Builder, field: string, v: Json): (r: (Builder, string))
    ensures r.0.mode == b.mode
    ensures !b.mode.Named? ==> r.0.positional == b.positional + [v] && r.0.keyed == b.keyed
    ensures b.mode.Named? ==>
      r.0.positional == b.positional && ObjGet(r.0.keyed, NamedKey(field, Counter(b, field))) == Some(v)
    ensures b.mode == QuestionMark ==> r.1 == "?"
    ensures b.mode.Numbered? ==> r.1 == [b.mode.mark] + IntToString(b.index + 1)
    ensures b.mode.Named? ==> r.1 == [b.mode.mark] + NamedKey(field, Counter(b, field))
  {
    match b.mode
    case QuestionMark =>
      (b.(positional := b.positional + [v]), "?")
    case Numbered(c) =>
      (b.(positional := b.positional + [v], index := b.index + 1), [c] + IntToString(b.index + 1))
    case Named(c) =>
      var k := Counter(b, field);
      var key := NamedKey(field, k);
      ObjGetAfterAssign(b.keyed, key, v, key);
      (b.(counters := Store(b.counters, field, Succ(k)), keyed := ObjAssign(b.keyed, key, v)), [c] + key)
  }

  /** The bound values: an array for question marks and numbered, an object for named. */
  datatype Params = Positional(values: seq<Json>) | Keyed(props: seq<Prop>)

  /** `stmt.run()`. */
  function RunParams(b: Builder): Params
  {
    if b.mode.Named? then Keyed(b.keyed) else Positional(b.positional)
  }

  // ----- one rule -----

  /** The values of a rule: an array as it is, any other value as a one-element list. */
  function ValueList(v: Json): seq<Json>
  {
    if v.JArr? then v.elems else [v]
  }

  /** The separator text written between two values. */
  function SepText(op: Operator): string
  {
    if Sep(op).Some? then Sep(op).value else "undefined"
  }

  /** A value after coercion by type, escaping (without statements, for untyped
      rules) and the LIKE pattern of the operator. */
  function Coerce(v: Json, ruleType: string, stmtOn: bool, op: Operator): Result<Json, WhereError>
    requires ruleType != "double"
  {
    var v1 :- if ruleType == "integer" || ruleType == "boolean" then ChangeType(v, ruleType)
              else if stmtOn then Ok(v) else Ok(EscapeValue(v));
    Ok(if Mod(op).Some? then JStr(Fmt(Mod(op).value, FmtArgs(v1))) else v1)
  }

  /** The text written for one coerced value: a placeholder from the statement, or
      else the value inline, quoted when it is a string. */
  function Emit(b: Option<Builder>, field: string, v: Json): (string, Option<Builder>)
  {
    match b
    case None => (if v.JStr? then "'" + v.s + "'" else ToStr(v), None)
    case Some(bb) => var a := Add(bb, field, v); (a.1, Some(a.0))
  }

  /** The text and the builder after the first `|vals|` values of a rule. */
  datatype Acc = Acc(text: string, builder: Option<Builder>)

  function ValuesText(field: string, ruleType: string, op: Operator, vals: seq<Json>, b: Option<Builder>)
    : Result<Acc, WhereError>
    requires ruleType != "double"
    decreases |vals|
  {
    if vals == [] then Ok(Acc("", b))
    else
      var prev :- ValuesText(field, ruleType, op, vals[..|vals| - 1], b);
      ValueStep(field, ruleType, op, |vals| - 1, vals[|vals| - 1], prev)
  }

  /** Value number `i` of a rule: separator, coercion, then its text. */
  function ValueStep(field: string, ruleType: string, op: Operator, i: nat, v: Json, acc: Acc)
    : Result<Acc, WhereError>
    requires ruleType != "double"
  {
    var c :- Coerce(v, ruleType, acc.builder.Some?, op);
    var e := Emit(acc.builder, field, c);
    Ok(Acc(acc.text + (if i > 0 then SepText(op) else "") + e.0, e.1))
  }

  /** The SQL of one rule: the field, a space, and the operator text with its first
      `?` replaced by the values. */
  function RuleText(field: string, op: Operator, values: string): string
  {
    field + " " + ReplaceFirst(Template(op), "?", values)
  }

  /** The parts of a group so far and the builder. */
  datatype Parts = Parts(parts: seq<string>, builder: Option<Builder>)

  /** A child that is not a nested group: an empty group or a rule with an unknown
      operator adds nothing, any other rule adds its SQL. */
  function RuleStep(r: Node, acc: Parts): Result<Parts, WhereError>
    requires !IsNested(r) && (r.Rule? ==> RuleSupported(r))
  {
    if r.Group? then Ok(acc)
    else match ParseOperator(r.operator)
      case None => Ok(acc)
      case Some(op) =>
        if NbInputs(op) == 0 then Ok(Parts(acc.parts + [RuleText(r.field, op, "")], acc.builder))
        else
          var a :- ValuesText(r.field, r.ruleType, op, ValueList(r.value), acc.builder);
          Ok(Parts(acc.parts + [RuleText(r.field, op, a.text)], a.builder))
  }

  // ----- groups -----

  /** `parse(group)`: the combinator check, then the parts joined by the combinator. */
  function GroupSpec(g: Node, nl: string, b: Option<Builder>): Result<Acc, WhereError>
    requires Supported(g)
    decreases g, 1
  {
    if AsciiUpper(g.combinator) != "AND" && AsciiUpper(g.combinator) != "OR" then
      Err(BadCombinator(g.combinator))
    else
      var p :- PartsSpec(g, |g.rules|, nl, b);
      Ok(Acc(Join(p.parts, " " + g.combinator + nl), p.builder))
  }

  /** The parts of the first `n` children of `g`. */
  function PartsSpec(g: Node, n: nat, nl: string, b: Option<Builder>): Result<Parts, WhereError>
    requires Supported(g) && n <= |g.rules|
    decreases g, 0, n
  {
    if n == 0 then Ok(Parts([], b))
    else
      var prev :- PartsSpec(g, n - 1, nl, b);
      ChildStep(g.rules[n - 1], nl, prev)
  }

  /** One child of a group. */
  function ChildStep(child: Node, nl: string, acc: Parts): Result<Parts, WhereError>
    requires ChildSupported(child)
    decreases child, 2
  {
    if IsNested(child) then
      var inner :- GroupSpec(child, nl, acc.builder);
      Ok(Parts(acc.parts + ["(" + nl + inner.text + nl + ")" + nl], inner.builder))
    else RuleStep(child, acc)
  }

  /** The result of `getSQL`: the SQL text, and the parameters when statements are on. */
  datatype Output = Output(sql: string, params: Option<Params>)

  /** `getSQL(stmt, multiline, root)`. */
  function Compile(stmt: StmtArg, multiline: bool, root: Node): Result<Output, WhereError>
    requires Supported(root)
  {
    var b := if StartMode(stmt).Some? then Some(NewBuilder(StartMode(stmt).value)) else None;
    var a :- GroupSpec(root, if multiline then "\n" else " ", b);
    Ok(Output(a.text, if a.builder.Some? then Some(RunParams(a.builder.value)) else None))
  }

  lemma ValuesTextSnoc(field: string, ruleType: string, op: Operator, vals: seq<Json>, i: nat, b: Option<Builder>)
    requires ruleType != "double" && i < |vals|
    requires ValuesText(field, ruleType, op, vals[..i], b).Ok?
    ensures ValuesText(field, ruleType, op, vals[..i + 1], b) ==
      ValueStep(field, ruleType, op, i, vals[i], ValuesText(field, ruleType, op, vals[..i], b).value)
  {
    var pre := vals[..i + 1];
    assert pre[..|pre| - 1] == vals[..i];
    assert pre[|pre| - 1] == vals[i];
  }

  /** Once a value fails, the rest of the rule fails with the same error. */
  lemma {:induction false} ValuesErrPersists(field: string, ruleType: string, op: Operator, vals: seq<Json>, j: nat, b: Option<Builder>)
    requires ruleType != "double" && j <= |vals|
    requires ValuesText(field, ruleType, op, vals[..j], b).Err?
    ensures ValuesText(field, ruleType, op, vals, b) == ValuesText(field, ruleType, op, vals[..j], b)
    decreases |vals| - j
  {
    if j < |vals| {
      assert vals[..j + 1][..j] == vals[..j];
      ValuesErrPersists(field, ruleType, op, vals, j + 1, b);
    } else {
      assert vals[..j] == vals;
    }
  }

  /** Once a child fails, the group fails with the same error. */
  lemma {:induction false} PartsErrPersists(g: Node, j: nat, nl: string, b: Option<Builder>)
    requires Supported(g) && j <= |g.rules|
    requires PartsSpec(g, j, nl, b).Err?
    ensures PartsSpec(g, |g.rules|, nl, b) == PartsSpec(g, j, nl, b)
    decreases |g.rules| - j
  {
    if j < |g.rules| {
      PartsErrPersists(g, j + 1, nl, b);
    }
  }

  // ----- the tree after compilation -----

  /** The rule tree as `getSQL` leaves it: every rule it compiles with a
      one-input or two-input operator has its value wrapped into an array. */
  function Wrap(n: Node): Node
    decreases n
  {
    match n
    case Rule(f, o, v, t) =>
      if ParseOperator(o).Some? && NbInputs(ParseOperator(o).value) != 0 && !v.JArr?
      then Rule(f, o, JArr([v]), t) else n
    case Group(c, rs) =>
      if rs == [] then n else Group(c, seq(|rs|, i requires 0 <= i < |rs| => Wrap(rs[i])))
  }
}
