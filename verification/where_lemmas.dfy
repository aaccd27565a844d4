/** Properties of the rule-to-SQL compiler. */
module WhereLemmas {

  import opened Outcomes
  import opened JsString
  import opened JsValue
  import opened WhereOps
  import opened WhereSpec

  // ----- errors -----

  /** A root group whose combinator is neither AND nor OR (in any letter case) throws,
      naming the combinator. */
  lemma BadCombinatorThrows(stmt: StmtArg, multiline: bool, root: Node)
    requires Supported(root)
    requires AsciiUpper(root.combinator) != "AND" && AsciiUpper(root.combinator) != "OR"
    ensures Compile(stmt, multiline, root) == Err(BadCombinator(root.combinator))
  {
  }

  /** A group without rules compiles to the empty condition, with no parameters bound. */
  lemma EmptyGroup(stmt: StmtArg, multiline: bool, c: string)
    requires AsciiUpper(c) == "AND" || AsciiUpper(c) == "OR"
    ensures Supported(Group(c, []))
    ensures Compile(stmt, multiline, Group(c, [])) ==
      Ok(Output("", if stmt.StmtOff? then None
                    else if StartMode(stmt).value.Named? then Some(Keyed([]))
                    else Some(Positional([]))))
  {
    var g := Group(c, []);
    assert Supported(g);
    var b := if StartMode(stmt).Some? then Some(NewBuilder(StartMode(stmt).value)) else None;
    var nl := if multiline then "\n" else " ";
    assert PartsSpec(g, 0, nl, b) == Ok(Parts([], b));
    assert GroupSpec(g, nl, b) == Ok(Acc("", b));
  }

  // ----- what the statement builder keeps -----

  /** `r` is a later state of the statement `b`: present exactly when `b` is, with the
      same mode, the values bound so far still bound first, and a numbered counter
      that still counts the values. */
  predicate Keeps(b: Option<Builder>, r: Option<Builder>)
  {
    b.Some? == r.Some? &&
    (b.Some? ==>
      r.value.mode == b.value.mode &&
      b.value.positional <= r.value.positional &&
      (b.value.mode.Numbered? && b.value.index == |b.value.positional| ==>
        r.value.index == |r.value.positional|))
  }

  lemma ValueStepKeeps(field: string, ruleType: string, op: Operator, i: nat, v: Json, acc: Acc)
    requires ruleType != "double"
    requires ValueStep(field, ruleType, op, i, v, acc).Ok?
    ensures Keeps(acc.builder, ValueStep(field, ruleType, op, i, v, acc).value.builder)
  {
  }

  lemma {:induction false} ValuesKeep(field: string, ruleType: string, op: Operator, vals: seq<Json>, b: Option<Builder>)
    requires ruleType != "double"
    requires ValuesText(field, ruleType, op, vals, b).Ok?
    ensures Keeps(b, ValuesText(field, ruleType, op, vals, b).value.builder)
    decreases |vals|
  {
    if vals != [] {
      var prev := ValuesText(field, ruleType, op, vals[..|vals| - 1], b);
      ValuesKeep(field, ruleType, op, vals[..|vals| - 1], b);
      ValueStepKeeps(field, ruleType, op, |vals| - 1, vals[|vals| - 1], prev.value);
    }
  }

  lemma {:induction false} GroupKeeps(g: Node, nl: string, b: Option<Builder>)
    requires Supported(g)
    requires GroupSpec(g, nl, b).Ok?
    ensures Keeps(b, GroupSpec(g, nl, b).value.builder)
    decreases g, 1
  {
    PartsKeep(g, |g.rules|, nl, b);
  }

  lemma {:induction false} PartsKeep(g: Node, n: nat, nl: string, b: Option<Builder>)
    requires Supported(g) && n <= |g.rules|
    requires PartsSpec(g, n, nl, b).Ok?
    ensures Keeps(b, PartsSpec(g, n, nl, b).value.builder)
    decreases g, 0, n
  {
    if n > 0 {
      var prev := PartsSpec(g, n - 1, nl, b);
      PartsKeep(g, n - 1, nl, b);
      assert ChildSupported(g.rules[n - 1]);
      ChildKeeps(g.rules[n - 1], nl, prev.value);
    }
  }

  lemma {:induction false} ChildKeeps(child: Node, nl: string, acc: Parts)
    requires ChildSupported(child)
    requires ChildStep(child, nl, acc).Ok?
    ensures Keeps(acc.builder, ChildStep(child, nl, acc).value.builder)
    decreases child, 2
  {
    if IsNested(child) {
      GroupKeeps(child, nl, acc.builder);
    } else if child.Rule? && ParseOperator(child.operator).Some? {
      var op := ParseOperator(child.operator).value;
      if NbInputs(op) != 0 {
        ValuesKeep(child.field, child.ruleType, op, ValueList(child.value), acc.builder);
      }
    }
  }

  /** Parameters come back exactly when statements are on: an object of named
      parameters in named mode, an array otherwise; in numbered mode the last
      placeholder number is the number of values bound. */
  lemma ParamsIffStatement(stmt: StmtArg, multiline: bool, root: Node)
    requires Supported(root)
    requires Compile(stmt, multiline, root).Ok?
    ensures var out := Compile(stmt, multiline, root).value;
      && (out.params.Some? <==> !stmt.StmtOff?)
      && (out.params.Some? ==> (out.params.value.Keyed? <==> StartMode(stmt).value.Named?))
  {
    var b := if StartMode(stmt).Some? then Some(NewBuilder(StartMode(stmt).value)) else None;
    GroupKeeps(root, if multiline then "\n" else " ", b);
  }

  // ----- what does not depend on the statement mode or the layout -----

  /** The last underscore of a named parameter separates the field from the counter. */
  lemma LastUnderscore(f: string, t: Tally)
    ensures LastIndexOf(NamedKey(f, t), '_') == Some(|f|)
  {
    var s := NamedKey(f, t);
    var d := TallyText(t);
    assert s[|f|] == '_';
    assert s[|f| + 1..] == d;
    assert '_' !in d by {
      forall i | 0 <= i < |d| ensures d[i] != '_' {
        if t.Num? {
          assert IsDigit(d[i]);
        }
      }
    }
  }

  /** Different fields or counts give different parameter names; `NaN` is never the
      text of a count. */
  lemma NamedKeyInjective(f1: string, t1: Tally, f2: string, t2: Tally)
    requires NamedKey(f1, t1) == NamedKey(f2, t2)
    ensures f1 == f2 && t1 == t2
  {
    LastUnderscore(f1, t1);
    LastUnderscore(f2, t2);
    NamedKeyParts(f1, t1);
    NamedKeyParts(f2, t2);
    TallyTextInjective(t1, t2);
  }

  lemma NamedKeyParts(f: string, t: Tally)
    ensures |f| < |NamedKey(f, t)|
    ensures NamedKey(f, t)[..|f|] == f && NamedKey(f, t)[|f| + 1..] == TallyText(t)
  {
  }

  lemma TallyTextInjective(t1: Tally, t2: Tally)
    requires TallyText(t1) == TallyText(t2)
    ensures t1 == t2
  {
    if t1.Num? {
      CountTextNotNaN(t1.n);
      ParseIntOfIntToString(t1.n);
    }
    if t2.Num? {
      CountTextNotNaN(t2.n);
      ParseIntOfIntToString(t2.n);
    }
  }

  lemma CountTextNotNaN(k: nat)
    ensures IntToString(k) != "NaN"
  {
    assert IsDigit(IntToString(k)[0]);
  }

  /** In named mode no name is bound twice; a name `field_k` has `k` below the
      field's own count, a name `field_NaN` belongs to `__proto__` or to a field with
      an own count, and `__proto__` never gets an own count. */
  ghost predicate NamedInv(b: Builder)
  {
    DistinctKeys(b.keyed) && "__proto__" !in b.counters &&
    (forall f, k: nat :: NamedKey(f, Num(k)) in Keys(b.keyed) ==>
       f in b.counters && b.counters[f].Num? && k < b.counters[f].n) &&
    (forall f :: NamedKey(f, NotANumber) in Keys(b.keyed) ==> f == "__proto__" || f in b.counters)
  }

  /** For every field but `__proto__` the name `add` binds is not bound yet. */
  lemma FreshNamedKey(b: Builder, field: string)
    requires NamedInv(b) && field != "__proto__"
    ensures NamedKey(field, Counter(b, field)) !in Keys(b.keyed)
  {
    if field in b.counters {
      assert CounterSlot(b.counters, field) == Own(b.counters[field]);
    }
  }

  /** Every named `add` keeps the invariant, `__proto__` included. */
  lemma NamedInvStep(b: Builder, field: string, v: Json)
    requires b.mode.Named? && NamedInv(b)
    ensures NamedInv(Add(b, field, v).0)
  {
    var t := Counter(b, field);
    var key := NamedKey(field, t);
    assert Add(b, field, v).0 == b.(counters := Store(b.counters, field, Succ(t)), keyed := ObjAssign(b.keyed, key, v));
    NamedInvAssign(b, field, v);
  }

  /** The invariant after binding `v` to the name `add` computes and storing the count. */
  lemma NamedInvAssign(b: Builder, field: string, v: Json)
    requires NamedInv(b)
    ensures var t := Counter(b, field);
      NamedInv(b.(counters := Store(b.counters, field, Succ(t)), keyed := ObjAssign(b.keyed, NamedKey(field, t), v)))
  {
    var t := Counter(b, field);
    var key := NamedKey(field, t);
    var keyed := ObjAssign(b.keyed, key, v);
    var counters := Store(b.counters, field, Succ(t));
    AssignKeepsDistinct(b.keyed, key, v);
    AssignKeysWithin(b.keyed, key, v);
    CountedNamesStep(b, field, Keys(keyed), counters);
    NaNNamesStep(b, field, Keys(keyed), counters);
  }

  lemma AssignKeysWithin(ps: seq<Prop>, k: string, v: Json)
    ensures forall x :: x in Keys(ObjAssign(ps, k, v)) ==> x in Keys(ps) || x == k
  {
    if k !in Keys(ps) {
      KeysAppend(ps, Prop(k, v));
    }
  }

  /** After `add`, a name `f_k` still has `k` below `f`'s own count. */
  lemma CountedNamesStep(b: Builder, field: string, keys: seq<string>, counters: map<string, Tally>)
    requires NamedInv(b)
    requires forall x :: x in keys ==> x in Keys(b.keyed) || x == NamedKey(field, Counter(b, field))
    requires counters == Store(b.counters, field, Succ(Counter(b, field)))
    ensures forall f, k: nat :: NamedKey(f, Num(k)) in keys ==>
      f in counters && counters[f].Num? && k < counters[f].n
  {
    var t := Counter(b, field);
    forall f, k: nat | NamedKey(f, Num(k)) in keys
      ensures f in counters && counters[f].Num? && k < counters[f].n
    {
      if NamedKey(f, Num(k)) == NamedKey(field, t) {
        NamedKeyInjective(f, Num(k), field, t);
      } else if f == field {
        assert CounterSlot(b.counters, field) == Own(b.counters[field]);
      }
    }
  }

  /** After `add`, a name `f_NaN` still belongs to `__proto__` or to a field with an
      own count, and `__proto__` still has none. */
  lemma NaNNamesStep(b: Builder, field: string, keys: seq<string>, counters: map<string, Tally>)
    requires NamedInv(b)
    requires forall x :: x in keys ==> x in Keys(b.keyed) || x == NamedKey(field, Counter(b, field))
    requires counters == Store(b.counters, field, Succ(Counter(b, field)))
    ensures forall f :: NamedKey(f, NotANumber) in keys ==> f == "__proto__" || f in counters
    ensures "__proto__" !in counters
  {
    var t := Counter(b, field);
    forall f | NamedKey(f, NotANumber) in keys ensures f == "__proto__" || f in counters
    {
      if NamedKey(f, NotANumber) == NamedKey(field, t) {
        NamedKeyInjective(f, NotANumber, field, t);
      }
    }
  }

  /** A named `add` on any field but `__proto__` never overwrites: it appends a fresh
      name. */
  lemma NamedAddAppends(b: Builder, field: string, v: Json)
    requires b.mode.Named? && NamedInv(b) && field != "__proto__"
    ensures Add(b, field, v).0.keyed == b.keyed + [Prop(NamedKey(field, Counter(b, field)), v)]
    ensures NamedInv(Add(b, field, v).0)
  {
    FreshNamedKey(b, field);
    NamedInvStep(b, field, v);
  }

  /** `__proto__` reads `Object.prototype` and ignores the stored count, so every value
      for it is bound to `__proto___NaN`, and a later one overwrites an earlier one. */
  lemma ProtoFieldOverwrites(b: Builder, v: Json)
    requires b.mode.Named? && NamedKey("__proto__", NotANumber) in Keys(b.keyed)
    ensures Add(b, "__proto__", v).1 == [b.mode.mark] + "__proto___NaN"
    ensures Add(b, "__proto__", v).0.counters == b.counters
    ensures Keys(Add(b, "__proto__", v).0.keyed) == Keys(b.keyed)
    ensures ObjGet(Add(b, "__proto__", v).0.keyed, "__proto___NaN") == Some(v)
  {
    assert NamedKey("__proto__", NotANumber) == "__proto___NaN";
  }

  /** Another member of `Object.prototype` is found as an inherited function, so its
      first value is bound to `field_NaN`; that stores an own `NaN`, which is falsy,
      and the count restarts at 1. */
  lemma InheritedFieldCounts(m: Mode, field: string, v1: Json, v2: Json)
    requires m.Named? && IsPrototypeKey(field) && field != "__proto__"
    ensures var first := Add(NewBuilder(m), field, v1);
      first.1 == [m.mark] + field + "_NaN" &&
      Add(first.0, field, v2).1 == [m.mark] + field + "_1"
  {
    var b := NewBuilder(m);
    assert Counter(b, field) == NotANumber;
    assert NamedKey(field, NotANumber) == field + "_NaN";
    var first := Add(b, field, v1);
    assert first.0.counters == map[field := NotANumber];
    assert Counter(first.0, field) == Num(1);
    assert IntToString(1) == "1";
    assert NamedKey(field, Num(1)) == field + "_1";
  }

  /** How many values a statement has bound. */
  function Bound(b: Builder): nat
  {
    if b.mode.Named? then |b.keyed| else |b.positional|
  }

  /** Two statement states that bind the same way: equal, or both present with as many
      values bound, no named parameter bound twice, and the same values when both are
      positional. */
  ghost predicate Agree(b1: Option<Builder>, b2: Option<Builder>)
  {
    b1 == b2 ||
    (b1.Some? && b2.Some? && Bound(b1.value) == Bound(b2.value) &&
     (b1.value.mode.Named? ==> NamedInv(b1.value)) &&
     (b2.value.mode.Named? ==> NamedInv(b2.value)) &&
     (!b1.value.mode.Named? && !b2.value.mode.Named? ==> b1.value.positional == b2.value.positional))
  }

  /** Two statement states with positional placeholders and the same values bound. */
  predicate PositionalAgree(b1: Option<Builder>, b2: Option<Builder>)
  {
    b1.Some? && b2.Some? && !b1.value.mode.Named? && !b2.value.mode.Named? &&
    b1.value.positional == b2.value.positional
  }

  /** Two runs of the same computation: they fail together, with the same error, and
      agreeing statements stay agreeing. */
  predicate SameOutcome<T>(r1: Result<T, WhereError>, r2: Result<T, WhereError>)
  {
    (r1.Err? <==> r2.Err?) && (r1.Err? ==> r1.error == r2.error)
  }

  /** Coercion fails the same way whether or not statements are on. */
  lemma CoerceSameOutcome(v: Json, ruleType: string, s1: bool, s2: bool, op: Operator)
    requires ruleType != "double"
    ensures SameOutcome(Coerce(v, ruleType, s1, op), Coerce(v, ruleType, s2, op))
  {
  }

  lemma EmitAgree(b1: Builder, b2: Builder, field: string, c: Json)
    requires Agree(Some(b1), Some(b2)) && field != "__proto__"
    ensures Agree(Emit(Some(b1), field, c).1, Emit(Some(b2), field, c).1)
  {
    if b1 != b2 {
      if b1.mode.Named? {
        NamedAddAppends(b1, field, c);
      }
      if b2.mode.Named? {
        NamedAddAppends(b2, field, c);
      }
      var n1 := Add(b1, field, c).0;
      var n2 := Add(b2, field, c).0;
      assert Bound(n1) == Bound(b1) + 1;
      assert Bound(n2) == Bound(b2) + 1;
    }
  }

  lemma ValueStepAgree(field: string, ruleType: string, op: Operator, i: nat, v: Json, a1: Acc, a2: Acc)
    requires ruleType != "double"
    ensures var r1 := ValueStep(field, ruleType, op, i, v, a1);
      var r2 := ValueStep(field, ruleType, op, i, v, a2);
      SameOutcome(r1, r2) &&
      (r1.Ok? && Agree(a1.builder, a2.builder) && field != "__proto__" ==> Agree(r1.value.builder, r2.value.builder)) &&
      (r1.Ok? && PositionalAgree(a1.builder, a2.builder) ==> PositionalAgree(r1.value.builder, r2.value.builder)) &&
      (r1.Ok? && a1.builder == a2.builder ==> r1.value.builder == r2.value.builder)
  {
    CoerceSameOutcome(v, ruleType, a1.builder.Some?, a2.builder.Some?, op);
    var c1 := Coerce(v, ruleType, a1.builder.Some?, op);
    var c2 := Coerce(v, ruleType, a2.builder.Some?, op);
    if c1.Ok? {
      assert ValueStep(field, ruleType, op, i, v, a1).value.builder == Emit(a1.builder, field, c1.value).1;
      assert ValueStep(field, ruleType, op, i, v, a2).value.builder == Emit(a2.builder, field, c2.value).1;
      if a1.builder != a2.builder && Agree(a1.builder, a2.builder) && field != "__proto__" {
        assert c1 == c2;
        EmitAgree(a1.builder.value, a2.builder.value, field, c1.value);
      }
      if PositionalAgree(a1.builder, a2.builder) {
        assert c1 == c2;
      }
    }
  }

  lemma {:induction false} ValuesAgree(field: string, ruleType: string, op: Operator, vals: seq<Json>, b1: Option<Builder>, b2: Option<Builder>)
    requires ruleType != "double"
    ensures var r1 := ValuesText(field, ruleType, op, vals, b1);
      var r2 := ValuesText(field, ruleType, op, vals, b2);
      SameOutcome(r1, r2) &&
      (r1.Ok? && Agree(b1, b2) && field != "__proto__" ==> Agree(r1.value.builder, r2.value.builder)) &&
      (r1.Ok? && PositionalAgree(b1, b2) ==> PositionalAgree(r1.value.builder, r2.value.builder)) &&
      (r1.Ok? && b1 == b2 ==> r1.value.builder == r2.value.builder)
    decreases |vals|
  {
    if vals != [] {
      var init := vals[..|vals| - 1];
      ValuesAgree(field, ruleType, op, init, b1, b2);
      var p1 := ValuesText(field, ruleType, op, init, b1);
      var p2 := ValuesText(field, ruleType, op, init, b2);
      if p1.Ok? {
        ValueStepAgree(field, ruleType, op, |vals| - 1, vals[|vals| - 1], p1.value, p2.value);
      }
    }
  }

  /** No rule of the tree is on the field `__proto__`. */
  predicate NoProtoField(n: Node)
    decreases n
  {
    if n.Rule? then n.field != "__proto__"
    else forall i | 0 <= i < |n.rules| :: NoProtoField(n.rules[i])
  }

  lemma {:induction false} GroupAgree(g: Node, nl1: string, nl2: string, b1: Option<Builder>, b2: Option<Builder>)
    requires Supported(g)
    ensures var r1 := GroupSpec(g, nl1, b1);
      var r2 := GroupSpec(g, nl2, b2);
      SameOutcome(r1, r2) &&
      (r1.Ok? && Agree(b1, b2) && NoProtoField(g) ==> Agree(r1.value.builder, r2.value.builder)) &&
      (r1.Ok? && PositionalAgree(b1, b2) ==> PositionalAgree(r1.value.builder, r2.value.builder)) &&
      (r1.Ok? && b1 == b2 ==> r1.value.builder == r2.value.builder)
    decreases g, 1
  {
    PartsAgree(g, |g.rules|, nl1, nl2, b1, b2);
  }

  lemma {:induction false} PartsAgree(g: Node, n: nat, nl1: string, nl2: string, b1: Option<Builder>, b2: Option<Builder>)
    requires Supported(g) && n <= |g.rules|
    ensures var r1 := PartsSpec(g, n, nl1, b1);
      var r2 := PartsSpec(g, n, nl2, b2);
      SameOutcome(r1, r2) &&
      (r1.Ok? && Agree(b1, b2) && NoProtoField(g) ==> Agree(r1.value.builder, r2.value.builder)) &&
      (r1.Ok? && PositionalAgree(b1, b2) ==> PositionalAgree(r1.value.builder, r2.value.builder)) &&
      (r1.Ok? && b1 == b2 ==> r1.value.builder == r2.value.builder)
    decreases g, 0, n
  {
    if n > 0 {
      PartsAgree(g, n - 1, nl1, nl2, b1, b2);
      var p1 := PartsSpec(g, n - 1, nl1, b1);
      var p2 := PartsSpec(g, n - 1, nl2, b2);
      if p1.Ok? {
        assert ChildSupported(g.rules[n - 1]);
        ChildAgree(g.rules[n - 1], nl1, nl2, p1.value, p2.value);
      }
    }
  }

  lemma {:induction false} ChildAgree(child: Node, nl1: string, nl2: string, a1: Parts, a2: Parts)
    requires ChildSupported(child)
    ensures var r1 := ChildStep(child, nl1, a1);
      var r2 := ChildStep(child, nl2, a2);
      SameOutcome(r1, r2) &&
      (r1.Ok? && Agree(a1.builder, a2.builder) && NoProtoField(child) ==> Agree(r1.value.builder, r2.value.builder)) &&
      (r1.Ok? && PositionalAgree(a1.builder, a2.builder) ==> PositionalAgree(r1.value.builder, r2.value.builder)) &&
      (r1.Ok? && a1.builder == a2.builder ==> r1.value.builder == r2.value.builder)
    decreases child, 2
  {
    if IsNested(child) {
      GroupAgree(child, nl1, nl2, a1.builder, a2.builder);
    } else if child.Rule? && ParseOperator(child.operator).Some? {
      var op := ParseOperator(child.operator).value;
      if NbInputs(op) != 0 {
        ValuesAgree(child.field, child.ruleType, op, ValueList(child.value), a1.builder, a2.builder);
      }
    }
  }

  /** Whether `getSQL` throws, and with which error, depends only on the rule tree:
      not on the statement mode and not on the line layout. */
  lemma ErrorsIndependentOfOptions(s1: StmtArg, s2: StmtArg, m1: bool, m2: bool, root: Node)
    requires Supported(root)
    ensures SameOutcome(Compile(s1, m1, root), Compile(s2, m2, root))
  {
    var b1 := if StartMode(s1).Some? then Some(NewBuilder(StartMode(s1).value)) else None;
    var b2 := if StartMode(s2).Some? then Some(NewBuilder(StartMode(s2).value)) else None;
    GroupAgree(root, if m1 then "\n" else " ", if m2 then "\n" else " ", b1, b2);
  }

  /** The line layout does not change the parameters, in any mode. */
  lemma ParamsIndependentOfLayout(stmt: StmtArg, root: Node)
    requires Supported(root)
    requires Compile(stmt, false, root).Ok?
    ensures Compile(stmt, true, root).Ok?
    ensures Compile(stmt, true, root).value.params == Compile(stmt, false, root).value.params
  {
    var b := if StartMode(stmt).Some? then Some(NewBuilder(StartMode(stmt).value)) else None;
    GroupAgree(root, " ", "\n", b, b);
  }

  /** Named parameters bind one fresh name per value: as many parameters as question
      marks bind values, none overwritten. */
  lemma NamedBindsEveryValue(text: string, m1: bool, m2: bool, root: Node)
    requires Supported(root) && NoProtoField(root)
    requires ModeOf(text).Named?
    requires Compile(StmtOn, m1, root).Ok?
    ensures Compile(StmtName(text), m2, root).Ok?
    ensures var ps := Compile(StmtName(text), m2, root).value.params;
      var qs := Compile(StmtOn, m1, root).value.params;
      ps.Some? && ps.value.Keyed? && qs.Some? && qs.value.Positional? &&
      |ps.value.props| == |qs.value.values| && DistinctKeys(ps.value.props)
  {
    var b1 := Some(NewBuilder(QuestionMark));
    var b2 := Some(NewBuilder(ModeOf(text)));
    var nl1 := if m1 then "\n" else " ";
    var nl2 := if m2 then "\n" else " ";
    GroupAgree(root, nl1, nl2, b1, b2);
    GroupKeeps(root, nl1, b1);
    GroupKeeps(root, nl2, b2);
  }

  /** Question marks and numbered placeholders bind the same values in the same order. */
  lemma NumberedBindsLikeQuestionMarks(text: string, m1: bool, m2: bool, root: Node)
    requires Supported(root)
    requires ModeOf(text).Numbered?
    requires Compile(StmtOn, m1, root).Ok?
    ensures Compile(StmtName(text), m2, root).Ok?
    ensures Compile(StmtName(text), m2, root).value.params == Compile(StmtOn, m1, root).value.params
  {
    var b1 := Some(NewBuilder(QuestionMark));
    var b2 := Some(NewBuilder(ModeOf(text)));
    var nl1 := if m1 then "\n" else " ";
    var nl2 := if m2 then "\n" else " ";
    GroupAgree(root, nl1, nl2, b1, b2);
    GroupKeeps(root, nl1, b1);
    GroupKeeps(root, nl2, b2);
  }

  // ----- children that add nothing -----

  /** A child that contributes nothing: an empty group, or a rule whose operator is not
      in the tables. */
  predicate Skipped(x: Node)
  {
    !IsNested(x) && (x.Group? || (ParseOperator(x.operator).None? && !IsPrototypeKey(x.operator)))
  }

  lemma {:induction false} PartsPrefix(g1: Node, g2: Node, j: nat, nl: string, b: Option<Builder>)
    requires Supported(g1) && Supported(g2)
    requires j <= |g1.rules| && j <= |g2.rules| && g1.rules[..j] == g2.rules[..j]
    ensures PartsSpec(g1, j, nl, b) == PartsSpec(g2, j, nl, b)
  {
    if j > 0 {
      assert g1.rules[..j - 1] == g1.rules[..j][..j - 1];
      assert g2.rules[..j - 1] == g2.rules[..j][..j - 1];
      PartsPrefix(g1, g2, j - 1, nl, b);
      assert g1.rules[j - 1] == g1.rules[..j][j - 1];
    }
  }

  lemma {:induction false} PartsSkip(c: string, a: seq<Node>, x: Node, rest: seq<Node>, k: nat, nl: string, b: Option<Builder>)
    requires Supported(Group(c, a + [x] + rest)) && Supported(Group(c, a + rest)) && Skipped(x)
    requires k <= |rest|
    ensures PartsSpec(Group(c, a + [x] + rest), |a| + 1 + k, nl, b) ==
      PartsSpec(Group(c, a + rest), |a| + k, nl, b)
  {
    var g1 := Group(c, a + [x] + rest);
    var g2 := Group(c, a + rest);
    if k == 0 {
      assert g1.rules[..|a|] == a == g2.rules[..|a|];
      PartsPrefix(g1, g2, |a|, nl, b);
      assert g1.rules[|a|] == x;
    } else {
      PartsSkip(c, a, x, rest, k - 1, nl, b);
      assert g1.rules[|a| + 1 + k - 1] == rest[k - 1] == g2.rules[|a| + k - 1];
    }
  }

  /** Inserting an empty group or a rule with an unknown operator anywhere among a
      group's children changes neither the SQL nor the parameters. */
  lemma SkippedChildChangesNothing(stmt: StmtArg, multiline: bool, c: string, a: seq<Node>, x: Node, rest: seq<Node>)
    requires Supported(Group(c, a + rest)) && Skipped(x)
    ensures Supported(Group(c, a + [x] + rest))
    ensures Compile(stmt, multiline, Group(c, a + [x] + rest)) == Compile(stmt, multiline, Group(c, a + rest))
  {
    SkippedChildSupported(c, a, x, rest);
    var b := if StartMode(stmt).Some? then Some(NewBuilder(StartMode(stmt).value)) else None;
    GroupSkip(c, a, x, rest, if multiline then "\n" else " ", b);
  }

  lemma SkippedChildSupported(c: string, a: seq<Node>, x: Node, rest: seq<Node>)
    requires Supported(Group(c, a + rest)) && Skipped(x)
    ensures Supported(Group(c, a + [x] + rest))
  {
    var g1 := Group(c, a + [x] + rest);
    var g2 := Group(c, a + rest);
    forall i | 0 <= i < |g1.rules| ensures ChildSupported(g1.rules[i])
    {
      if i < |a| {
        assert g1.rules[i] == g2.rules[i];
      } else if i > |a| {
        assert g1.rules[i] == g2.rules[i - 1];
      }
    }
  }

  lemma GroupSkip(c: string, a: seq<Node>, x: Node, rest: seq<Node>, nl: string, b: Option<Builder>)
    requires Supported(Group(c, a + [x] + rest)) && Supported(Group(c, a + rest)) && Skipped(x)
    ensures GroupSpec(Group(c, a + [x] + rest), nl, b) == GroupSpec(Group(c, a + rest), nl, b)
  {
    PartsSkip(c, a, x, rest, |rest|, nl, b);
  }

  // ----- the rule values wrapped in place -----

  lemma {:induction false} WrapChildSupported(n: Node)
    requires ChildSupported(n)
    ensures ChildSupported(Wrap(n)) && IsNested(Wrap(n)) == IsNested(n)
    ensures n.Group? ==> Wrap(n).Group? && Wrap(n).combinator == n.combinator
    decreases n
  {
    if n.Group? && n.rules != [] {
      forall i | 0 <= i < |n.rules| ensures ChildSupported(Wrap(n).rules[i])
      {
        WrapChildSupported(n.rules[i]);
      }
    }
  }

  lemma {:induction false} GroupWrap(g: Node, nl: string, b: Option<Builder>)
    requires Supported(g) && Supported(Wrap(g))
    ensures GroupSpec(Wrap(g), nl, b) == GroupSpec(g, nl, b)
    decreases g, 1
  {
    if g.rules != [] {
      PartsWrap(g, |g.rules|, nl, b);
    }
  }

  lemma {:induction false} PartsWrap(g: Node, n: nat, nl: string, b: Option<Builder>)
    requires Supported(g) && Supported(Wrap(g)) && g.rules != [] && n <= |g.rules|
    ensures PartsSpec(Wrap(g), n, nl, b) == PartsSpec(g, n, nl, b)
    decreases g, 0, n
  {
    if n > 0 {
      PartsWrap(g, n - 1, nl, b);
      var prev := PartsSpec(g, n - 1, nl, b);
      var child := g.rules[n - 1];
      assert Wrap(g).rules[n - 1] == Wrap(child);
      if prev.Ok? {
        assert ChildSupported(child);
        ChildWrap(child, nl, prev.value);
        assert PartsSpec(Wrap(g), n, nl, b) == ChildStep(Wrap(child), nl, prev.value);
      }
    }
  }

  lemma {:induction false} ChildWrap(child: Node, nl: string, acc: Parts)
    requires ChildSupported(child)
    ensures ChildSupported(Wrap(child))
    ensures ChildStep(Wrap(child), nl, acc) == ChildStep(child, nl, acc)
    decreases child, 2
  {
    WrapChildSupported(child);
    if IsNested(child) {
      GroupWrap(child, nl, acc.builder);
    }
  }

  /** Compiling the tree as `getSQL` leaves it gives the same SQL and parameters
      again, and wrapping twice is wrapping once. */
  lemma CompileWrapped(stmt: StmtArg, multiline: bool, root: Node)
    requires Supported(root)
    ensures Supported(Wrap(root))
    ensures Compile(stmt, multiline, Wrap(root)) == Compile(stmt, multiline, root)
    ensures Wrap(Wrap(root)) == Wrap(root)
  {
    if root.rules != [] {
      WrapChildSupported(root);
    }
    var b := if StartMode(stmt).Some? then Some(NewBuilder(StartMode(stmt).value)) else None;
    GroupWrap(root, if multiline then "\n" else " ", b);
    WrapTwice(root);
  }

  lemma {:induction false} WrapTwice(n: Node)
    ensures Wrap(Wrap(n)) == Wrap(n)
    decreases n
  {
    if n.Group? && n.rules != [] {
      forall i | 0 <= i < |n.rules| ensures Wrap(Wrap(n.rules[i])) == Wrap(n.rules[i])
      {
        WrapTwice(n.rules[i]);
      }
    }
  }
}

module WhereBinding {

  import opened Outcomes
  import opened JsString
  import opened JsValue
  import opened WhereOps
  import opened WhereSpec

  /** `n` question marks. */
  function Marks(n: nat): (r: seq<string>)
    ensures |r| == n && forall i :: 0 <= i < n ==> r[i] == "?"
  {
    seq(n, _ => "?")
  }

  /** With question marks, the values of an untyped rule whose operator has no LIKE
      pattern are bound unchanged and in order, and the rule's value text is one `?`
      per value joined by the operator's separator. */
  lemma {:induction false} QuestionMarksBindValues(field: string, ruleType: string, op: Operator, vals: seq<Json>, b: Builder)
    requires ruleType != "integer" && ruleType != "boolean" && ruleType != "double"
    requires Mod(op).None? && b.mode == QuestionMark
    ensures ValuesText(field, ruleType, op, vals, Some(b)) ==
      Ok(Acc(Join(Marks(|vals|), SepText(op)), Some(b.(positional := b.positional + vals))))
    decreases |vals|
  {
    if vals != [] {
      var n := |vals| - 1;
      var init := vals[..n];
      var v := vals[n];
      QuestionMarksBindValues(field, ruleType, op, init, b);
      QuestionMarkStep(field, ruleType, op, n, v, Join(Marks(n), SepText(op)), b.(positional := b.positional + init));
      MarksJoinStep(n, SepText(op));
      AppendInitLast(b.positional, vals);
    } else {
      assert b.positional + vals == b.positional;
    }
  }

  /** One untyped value with question marks: a `?`, and the value bound last. */
  lemma QuestionMarkStep(field: string, ruleType: string, op: Operator, i: nat, v: Json, text: string, b: Builder)
    requires ruleType != "integer" && ruleType != "boolean" && ruleType != "double"
    requires Mod(op).None? && b.mode == QuestionMark
    ensures ValueStep(field, ruleType, op, i, v, Acc(text, Some(b))) ==
      Ok(Acc(text + (if i > 0 then SepText(op) else "") + "?", Some(b.(positional := b.positional + [v]))))
  {
    assert Coerce(v, ruleType, true, op) == Ok(v);
  }

  lemma AppendInitLast<T>(p: seq<T>, s: seq<T>)
    requires s != []
    ensures (p + s[..|s| - 1]) + [s[|s| - 1]] == p + s
  {
  }

  /** One more question mark extends the joined text by the separator and a `?`. */
  lemma MarksJoinStep(n: nat, sep: string)
    ensures Join(Marks(n + 1), sep) == Join(Marks(n), sep) + (if n > 0 then sep else "") + "?"
  {
    assert Marks(n + 1)[..n] == Marks(n);
  }

  /** Without statements, an untyped string value is written escaped and quoted. */
  lemma InlineString(field: string, ruleType: string, op: Operator, s: string)
    requires ruleType != "integer" && ruleType != "boolean" && ruleType != "double"
    requires Mod(op).None?
    ensures ValuesText(field, ruleType, op, [JStr(s)], None) ==
      Ok(Acc("'" + EscapeString(s) + "'", None))
  {
    assert [JStr(s)][..0] == [];
    assert ValuesText(field, ruleType, op, [], None) == Ok(Acc("", None));
    assert Coerce(JStr(s), ruleType, false, op) == Ok(JStr(EscapeString(s)));
    var q := "'" + EscapeString(s) + "'";
    assert Emit(None, field, JStr(EscapeString(s))) == (q, None);
    assert "" + "" + q == q;
    assert ValueStep(field, ruleType, op, 0, JStr(s), Acc("", None)) == Ok(Acc(q, None));
  }
}
