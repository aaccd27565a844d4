/** The tables and helpers of the rule-to-SQL compiler: the operator catalogue,
    string escaping, the `{n}` formatter, type coercion of rule values and the parsing
    of the prepared-statement option. */
module WhereOps {

  import opened Outcomes
  import opened JsString
  import opened JsValue

  /** The twenty query-builder operators. */
  datatype Operator =
    | Equal | NotEqual | In | NotIn
    | Less | LessOrEqual | Greater | GreaterOrEqual
    | Between | NotBetween
    | BeginsWith | NotBeginsWith | Contains | NotContains | EndsWith | NotEndsWith
    | IsEmpty | IsNotEmpty | IsNull | IsNotNull

  /** Why compiling a rule tree throws. */
  datatype WhereError =
    | BadCombinator(combinator: string)   // a combinator other than AND / OR, in any case
    | NotAString(value: Json)             // a boolean-typed value that has no `trim`

  /** The operator's key in both operator tables. */
  function Name(op: Operator): string
  {
    match op
    case Equal => "equal"
    case NotEqual => "not_equal"
    case In => "in"
    case NotIn => "not_in"
    case Less => "less"
    case LessOrEqual => "less_or_equal"
    case Greater => "greater"
    case GreaterOrEqual => "greater_or_equal"
    case Between => "between"
    case NotBetween => "not_between"
    case BeginsWith => "begins_with"
    case NotBeginsWith => "not_begins_with"
    case Contains => "contains"
    case NotContains => "not_contains"
    case EndsWith => "ends_with"
    case NotEndsWith => "not_ends_with"
    case IsEmpty => "is_empty"
    case IsNotEmpty => "is_not_empty"
    case IsNull => "is_null"
    case IsNotNull => "is_not_null"
  }

  /** Looking a rule's `operator` string up in the tables; `None` when it is not a key. */
  const OperatorNames: map<string, Operator> := map[
    "equal" := Equal, "not_equal" := NotEqual, "in" := In, "not_in" := NotIn,
    "less" := Less, "less_or_equal" := LessOrEqual, "greater" := Greater,
    "greater_or_equal" := GreaterOrEqual, "between" := Between, "not_between" := NotBetween,
    "begins_with" := BeginsWith, "not_begins_with" := NotBeginsWith, "contains" := Contains,
    "not_contains" := NotContains, "ends_with" := EndsWith, "not_ends_with" := NotEndsWith,
    "is_empty" := IsEmpty, "is_not_empty" := IsNotEmpty, "is_null" := IsNull, "is_not_null" := IsNotNull]

  function ParseOperator(s: string): (r: Option<Operator>)
    ensures r.Some? ==> Name(r.value) == s
  {
    if s in OperatorNames then Some(OperatorNames[s]) else None
  }

  /** Every operator is found under its own name. */
  lemma ParseName(op: Operator)
    ensures ParseOperator(Name(op)) == Some(op)
  {
  }

  /** The names of `Object.prototype`'s members. Looking one of these up in the operator
      tables finds an inherited function instead of an operator entry. */
  predicate IsPrototypeKey(s: string)
  {
    s in ["constructor", "hasOwnProperty", "isPrototypeOf", "propertyIsEnumerable",
          "toLocaleString", "toString", "valueOf", "__proto__", "__defineGetter__",
          "__defineSetter__", "__lookupGetter__", "__lookupSetter__"]
  }

  /** The SQL text of the operator; `?` marks where the value list goes. */
  function Template(op: Operator): string
  {
    match op
    case Equal => "= ?"
    case NotEqual => "!= ?"
    case In => "IN(?)"
    case NotIn => "NOT IN(?)"
    case Less => "< ?"
    case LessOrEqual => "<= ?"
    case Greater => "> ?"
    case GreaterOrEqual => ">= ?"
    case Between => "BETWEEN ?"
    case NotBetween => "NOT BETWEEN ?"
    case BeginsWith => "LIKE(?)"
    case NotBeginsWith => "NOT LIKE(?)"
    case Contains => "LIKE(?)"
    case NotContains => "NOT LIKE(?)"
    case EndsWith => "LIKE(?)"
    case NotEndsWith => "NOT LIKE(?)"
    case IsEmpty => "= ''"
    case IsNotEmpty => "!= ''"
    case IsNull => "IS NULL"
    case IsNotNull => "IS NOT NULL"
  }

  /** The separator written between the values of one rule, where the table has one. */
  function Sep(op: Operator): Option<string>
  {
    match op
    case In => Some(", ")
    case NotIn => Some(", ")
    case Between => Some(" AND ")
    case NotBetween => Some(" AND ")
    case _ => None
  }

  /** The `{0}` pattern that turns a value into a LIKE pattern. */
  function Mod(op: Operator): Option<string>
  {
    match op
    case BeginsWith => Some("{0}%")
    case NotBeginsWith => Some("{0}%")
    case Contains => Some("%{0}%")
    case NotContains => Some("%{0}%")
    case EndsWith => Some("%{0}")
    case NotEndsWith => Some("%{0}")
    case _ => None
  }

  /** `nb_inputs` of the operator definition. */
  function NbInputs(op: Operator): nat
  {
    match op
    case Between => 2
    case NotBetween => 2
    case IsEmpty => 0
    case IsNotEmpty => 0
    case IsNull => 0
    case IsNotNull => 0
    case _ => 1
  }

  /** `multiple` of the operator definition. */
  predicate Multiple(op: Operator)
  {
    op == In || op == NotIn
  }

  /** `apply_to` of the operator definition. */
  function ApplyTo(op: Operator): seq<string>
  {
    match op
    case Equal => ["string", "number", "datetime", "boolean"]
    case NotEqual => ["string", "number", "datetime", "boolean"]
    case In => ["string", "number", "datetime"]
    case NotIn => ["string", "number", "datetime"]
    case IsNull => ["string", "number", "datetime", "boolean"]
    case IsNotNull => ["string", "number", "datetime", "boolean"]
    case _ => if NbInputs(op) == 0 || Mod(op).Some? then ["string"] else ["number", "datetime"]
  }

  /** The two tables agree: an operator takes inputs exactly when its SQL text has a
      `?` slot, it has a separator exactly when it takes two inputs or several values,
      and the LIKE patterns belong to the one-input string operators. */
  lemma TablesAgree(op: Operator)
    ensures NbInputs(op) > 0 <==> '?' in Template(op)
    ensures Sep(op).Some? <==> (NbInputs(op) == 2 || Multiple(op))
    ensures Mod(op).Some? ==> NbInputs(op) == 1 && ApplyTo(op) == ["string"]
    ensures Template(op) == Template(Negation(Negation(op)))
  {
  }

  /** The operator with the opposite meaning (`equal` / `not_equal`, ...). */
  function Negation(op: Operator): (r: Operator)
    ensures NbInputs(r) == NbInputs(op) && Mod(r) == Mod(op) && Sep(r) == Sep(op)
  {
    match op
    case Equal => NotEqual
    case NotEqual => Equal
    case In => NotIn
    case NotIn => In
    case Less => GreaterOrEqual
    case GreaterOrEqual => Less
    case Greater => LessOrEqual
    case LessOrEqual => Greater
    case Between => NotBetween
    case NotBetween => Between
    case BeginsWith => NotBeginsWith
    case NotBeginsWith => BeginsWith
    case Contains => NotContains
    case NotContains => Contains
    case EndsWith => NotEndsWith
    case NotEndsWith => EndsWith
    case IsEmpty => IsNotEmpty
    case IsNotEmpty => IsEmpty
    case IsNull => IsNotNull
    case IsNotNull => IsNull
  }

  // ----- escapeString -----

  /** The escape of one character. The source makes three passes (the
      backslash-class characters, then tab, then SUB); the first pass writes only
      backslashes and the letters `0 n r b` and quotes, so the passes compose to this
      single character-wise map. */
  function EscapeChar(c: char): string
  {
    if c == '\0' then "\\0"
    else if c == '\n' then "\\n"
    else if c == '\r' then "\\r"
    else if c == '\U{0008}' then "\\b"
    else if c == '\\' || c == '\'' || c == '"' then ['\\', c]
    else if c == '\t' then "\\t"
    else if c == '\U{001A}' then "\\Z"
    else [c]
  }

  function EscapeString(s: string): string
  {
    if s == [] then [] else EscapeChar(s[0]) + EscapeString(s[1..])
  }

  /** `escapeString(v)`: strings are escaped, other values pass unchanged. */
  function EscapeValue(v: Json): (r: Json)
    ensures !v.JStr? ==> r == v
    ensures v.JStr? ==> r.JStr? && Unescape(r.s) == v.s
  {
    if v.JStr? then UnescapeEscape(v.s); JStr(EscapeString(v.s)) else v
  }

  /** The characters the escape removes from a string. */
  predicate IsEscaped(c: char)
  {
    c == '\0' || c == '\n' || c == '\r' || c == '\U{0008}' || c == '\t' || c == '\U{001A}'
  }

  /** Reading an escaped string back: a backslash and the next character stand for
      one character. */
  function Unescape(s: string): string
  {
    if s == [] then []
    else if s[0] == '\\' && |s| >= 2 then [Unescaped(s[1])] + Unescape(s[2..])
    else [s[0]] + Unescape(s[1..])
  }

  function Unescaped(c: char): char
  {
    if c == '0' then '\0'
    else if c == 'n' then '\n'
    else if c == 'r' then '\r'
    else if c == 'b' then '\U{0008}'
    else if c == 't' then '\t'
    else if c == 'Z' then '\U{001A}'
    else c
  }

  lemma UnescapeChar(c: char, t: string)
    ensures Unescape(EscapeChar(c) + t) == [c] + Unescape(t)
  {
    var e := EscapeChar(c);
    if |e| == 2 {
      assert (e + t)[2..] == t;
    } else {
      assert (e + t)[1..] == t;
    }
  }

  /** The escape loses nothing: unescaping gives the original string back. */
  lemma {:induction false} UnescapeEscape(s: string)
    ensures Unescape(EscapeString(s)) == s
  {
    if s != [] {
      UnescapeChar(s[0], EscapeString(s[1..]));
      UnescapeEscape(s[1..]);
      assert s == [s[0]] + s[1..];
    }
  }

  /** After escaping, no NUL, newline, carriage return, backspace, tab or SUB is left,
      and every quote is preceded by a backslash. */
  lemma {:induction false} EscapeRemovesControls(s: string)
    ensures forall i :: 0 <= i < |EscapeString(s)| ==> !IsEscaped(EscapeString(s)[i])
    ensures forall i :: 0 <= i < |EscapeString(s)| && EscapeString(s)[i] == '\'' ==>
      i > 0 && EscapeString(s)[i - 1] == '\\'
  {
    if s != [] {
      EscapeRemovesControls(s[1..]);
      var e := EscapeChar(s[0]);
      var rest := EscapeString(s[1..]);
      assert EscapeString(s) == e + rest;
      forall i | 0 <= i < |e + rest| && (e + rest)[i] == '\''
        ensures i > 0 && (e + rest)[i - 1] == '\\'
      {
        if i >= |e| {
          assert (e + rest)[i] == rest[i - |e|];
          if i - |e| > 0 {
            assert (e + rest)[i - 1] == rest[i - |e| - 1];
          }
        }
      }
    }
  }

  // ----- fmt -----

  /** The arguments of `fmt(pattern, v)`: the elements of an array, else `v` alone. */
  function FmtArgs(v: Json): seq<Json>
  {
    if v.JArr? then v.elems else [v]
  }

  /** `fmt(t, args)`: every `{n}` (decimal digits) is replaced by argument `n` as a
      string, `undefined` when there is no such argument. */
  function Fmt(t: string, args: seq<Json>): string
    decreases |t|
  {
    if t == [] then []
    else if t[0] == '{' && 0 < DigitRun(t[1..]) && 1 + DigitRun(t[1..]) < |t| && t[1 + DigitRun(t[1..])] == '}' then
      var k := DigitRun(t[1..]);
      var idx := DigitsValue(t[1..1 + k]);
      (if idx < |args| then ToStr(args[idx]) else "undefined") + Fmt(t[2 + k..], args)
    else [t[0]] + Fmt(t[1..], args)
  }

  lemma FmtPlain(t: string, args: seq<Json>)
    requires '{' !in t
    ensures Fmt(t, args) == t
  {
  }

  lemma FmtHead(c: char, s: string, args: seq<Json>)
    requires c != '{'
    ensures Fmt([c] + s, args) == [c] + Fmt(s, args)
  {
    assert ([c] + s)[1..] == s;
  }

  /** What `{0}` turns into. */
  function FirstArg(args: seq<Json>): string
  {
    if args == [] then "undefined" else ToStr(args[0])
  }

  lemma FmtSlotZero(post: string, args: seq<Json>)
    ensures Fmt("{0}" + post, args) == FirstArg(args) + Fmt(post, args)
  {
    var t := "{0}" + post;
    assert t[1..][0] == '0' && t[1..][1] == '}';
    assert DigitRun(t[1..]) == 1;
    assert t[1..2] == "0";
    assert DigitsValue(t[1..2]) == 0;
    assert t[3..] == post;
  }

  lemma SplitHead(pre: string, mid: string, post: string)
    requires pre != []
    ensures pre + mid + post == [pre[0]] + (pre[1..] + mid + post)
  {
    assert pre == [pre[0]] + pre[1..];
  }

  /** A pattern with one `{0}` slot and no other brace gets the first argument there. */
  lemma {:induction false} FmtOneSlot(pre: string, post: string, args: seq<Json>)
    requires '{' !in pre && '{' !in post
    ensures Fmt(pre + "{0}" + post, args) == pre + FirstArg(args) + post
    decreases |pre|
  {
    if pre == [] {
      FmtSlotFirst(pre, post, args);
    } else {
      FmtOneSlot(pre[1..], post, args);
      FmtSlotShift(pre, post, args);
    }
  }

  lemma FmtSlotFirst(pre: string, post: string, args: seq<Json>)
    requires pre == [] && '{' !in post
    ensures Fmt(pre + "{0}" + post, args) == pre + FirstArg(args) + post
  {
    var a := FirstArg(args);
    assert pre + "{0}" + post == "{0}" + post;
    assert pre + a + post == a + post;
    FmtPlain(post, args);
    FmtSlotZero(post, args);
  }

  /** One more leading character outside the slot is copied through. */
  lemma FmtSlotShift(pre: string, post: string, args: seq<Json>)
    requires pre != [] && pre[0] != '{'
    requires Fmt(pre[1..] + "{0}" + post, args) == pre[1..] + FirstArg(args) + post
    ensures Fmt(pre + "{0}" + post, args) == pre + FirstArg(args) + post
  {
    FmtHead(pre[0], pre[1..] + "{0}" + post, args);
    SplitHead(pre, "{0}", post);
    SplitHead(pre, FirstArg(args), post);
  }

  /** `{0}%`: the first argument followed by `%`. */
  lemma FmtPrefixPattern(args: seq<Json>)
    ensures Fmt("{0}%", args) == FirstArg(args) + "%"
  {
    FmtOneSlot("", "%", args);
    assert "" + "{0}" + "%" == "{0}%";
  }

  /** `%{0}`: `%` followed by the first argument. */
  lemma FmtSuffixPattern(args: seq<Json>)
    ensures Fmt("%{0}", args) == "%" + FirstArg(args)
  {
    FmtOneSlot("%", "", args);
    assert "%" + "{0}" + "" == "%{0}";
  }

  /** `%{0}%`: the first argument between two `%`. */
  lemma FmtInfixPattern(args: seq<Json>)
    ensures Fmt("%{0}%", args) == "%" + FirstArg(args) + "%"
  {
    FmtOneSlot("%", "%", args);
    assert "%" + "{0}" + "%" == "%{0}%";
  }

  /** The three LIKE patterns put the first argument before, around or after `%`. */
  lemma FmtLikePatterns(op: Operator, v: Json)
    requires Mod(op).Some?
    ensures var a := FirstArg(FmtArgs(v));
      Fmt(Mod(op).value, FmtArgs(v)) ==
        (if op == BeginsWith || op == NotBeginsWith then a + "%"
         else if op == EndsWith || op == NotEndsWith then "%" + a
         else "%" + a + "%")
  {
    var args := FmtArgs(v);
    var m := Mod(op).value;
    if op == BeginsWith || op == NotBeginsWith {
      assert m == "{0}%";
      FmtPrefixPattern(args);
    } else if op == EndsWith || op == NotEndsWith {
      assert m == "%{0}";
      FmtSuffixPattern(args);
    } else {
      assert m == "%{0}%";
      FmtInfixPattern(args);
    }
  }

  // ----- changeType -----

  /** `changeType(v, type, true)` for the `integer` and `boolean` types (booleans as
      0 / 1); any other type leaves the value as it is. A `boolean` value that is not
      a string has no `trim` and throws. */
  function ChangeType(v: Json, ruleType: string): (r: Result<Json, WhereError>)
    requires ruleType != "double"
  {
    if ruleType == "integer" then Ok(IntegerOf(v))
    else if ruleType == "boolean" then BooleanOf(v)
    else Ok(v)
  }

  /** `parseInt(v, 10)`, `NaN` when no digits are read. */
  function IntegerOf(v: Json): Json
  {
    match ParseInt(ToStr(v))
    case None => JNaN
    case Some(n) => JNum(n)
  }

  /** `v.trim().toLowerCase() === 'true' || v.trim() === '1'` as 1 or 0. */
  function BooleanOf(v: Json): Result<Json, WhereError>
  {
    if v.JStr? then
      var t := Trim(v.s);
      Ok(JNum(if AsciiLower(t) == "true" || t == "1" then 1 else 0))
    else Err(NotAString(v))
  }

  /** A boolean-typed string becomes 1 exactly when, trimmed, it reads `true` in any
      letter case or `1`, and 0 otherwise; any other value throws. */
  lemma ChangeTypeBoolean(v: Json)
    ensures v.JStr? && (AsciiLower(Trim(v.s)) == "true" || Trim(v.s) == "1") <==>
      ChangeType(v, "boolean") == Ok(JNum(1))
    ensures v.JStr? && !(AsciiLower(Trim(v.s)) == "true" || Trim(v.s) == "1") <==>
      ChangeType(v, "boolean") == Ok(JNum(0))
    ensures !v.JStr? <==> ChangeType(v, "boolean").Err?
  {
  }

  /** An integer, or its decimal text, comes through the `integer` coercion unchanged. */
  lemma ChangeTypeInteger(n: int)
    ensures ChangeType(JNum(n), "integer") == Ok(JNum(n))
    ensures ChangeType(JStr(IntToString(n)), "integer") == Ok(JNum(n))
  {
    NumberChangesToItself(n);
    TextChangesToNumber(n);
  }

  lemma NumberChangesToItself(n: int)
    ensures ChangeType(JNum(n), "integer") == Ok(JNum(n))
  {
    IntegerOfIntToString(n);
    ChangeTypeIsInteger(JNum(n));
  }

  lemma TextChangesToNumber(n: int)
    ensures ChangeType(JStr(IntToString(n)), "integer") == Ok(JNum(n))
  {
    IntegerOfIntToString(n);
    ChangeTypeIsInteger(JStr(IntToString(n)));
  }

  /** The number and its decimal text both parse back to the number. */
  lemma IntegerOfIntToString(n: int)
    ensures IntegerOf(JNum(n)) == JNum(n)
    ensures IntegerOf(JStr(IntToString(n))) == JNum(n)
  {
    ParseIntOfIntToString(n);
  }

  lemma ChangeTypeIsInteger(v: Json)
    ensures ChangeType(v, "integer") == Ok(IntegerOf(v))
  {
  }

  // ----- prepared statements -----

  /** The `stmt` argument: `false`, `true`, or a configuration string. */
  datatype StmtArg = StmtOff | StmtOn | StmtName(text: string)

  /** How placeholders are written: `?`, `$1 $2 ...`, or `:field_1 ...`. */
  datatype Mode = QuestionMark | Numbered(mark: char) | Named(mark: char)

  /** The keyword of the statement pattern that starts at `i`, alternatives in order. */
  function KeywordAt(s: string, i: nat): Option<string>
  {
    if OccursAt(s, "question_mark", i) then Some("question_mark")
    else if OccursAt(s, "numbered", i) then Some("numbered")
    else if OccursAt(s, "named", i) then Some("named")
    else None
  }

  /** The leftmost keyword from `i` on. */
  function FindKeyword(s: string, i: nat): (r: Option<(nat, string)>)
    ensures r.Some? ==> i <= r.value.0 && KeywordAt(s, r.value.0) == Some(r.value.1)
    ensures r.Some? ==> forall j :: i <= j < r.value.0 ==> KeywordAt(s, j).None?
    decreases |s| + 1 - i
  {
    if i > |s| then None
    else match KeywordAt(s, i)
      case Some(k) => Some((i, k))
      case None => FindKeyword(s, i + 1)
  }

  /** The optional `(c)` after the keyword: one character that is not a line terminator. */
  function OptionChar(s: string, j: nat): Option<char>
  {
    if j + 3 <= |s| && s[j] == '(' && !IsLineTerminator(s[j + 1]) && s[j + 2] == ')'
    then Some(s[j + 1]) else None
  }

  /** `getStmtConfig(s)` followed by the statement factory it selects: no keyword means
      question marks; a missing option character means `$` for numbered and `:` for
      named statements. */
  function ModeOf(s: string): Mode
  {
    match FindKeyword(s, 0)
    case None => QuestionMark
    case Some((i, k)) =>
      var c := OptionChar(s, i + |k|);
      if k == "question_mark" then QuestionMark
      else if k == "numbered" then Numbered(if c.Some? then c.value else '$')
      else Named(if c.Some? then c.value else ':')
  }

  /** The statement builder `getSQL` starts with, none when statements are off. */
  function StartMode(stmt: StmtArg): Option<Mode>
  {
    match stmt
    case StmtOff => None
    case StmtOn => Some(QuestionMark)
    case StmtName(s) => Some(ModeOf(s))
  }

  lemma {:induction false} NoKeywordFrom(s: string, i: nat)
    requires forall j :: i <= j ==> KeywordAt(s, j).None?
    ensures FindKeyword(s, i).None?
    decreases |s| + 1 - i
  {
    if i <= |s| {
      NoKeywordFrom(s, i + 1);
    }
  }

  /** A configuration string that names no statement kind selects question marks. */
  lemma NoKeywordMeansQuestionMark(s: string)
    requires !Includes(s, "numbered") && !Includes(s, "named")
    ensures ModeOf(s) == QuestionMark
  {
    match FindKeyword(s, 0)
    case None =>
    case Some((i, k)) =>
  }

  /** The documented configurations. */
  lemma StatementConfigurations(c: char)
    requires !IsLineTerminator(c)
    ensures ModeOf("question_mark") == QuestionMark
    ensures ModeOf("numbered") == Numbered('$')
    ensures ModeOf("numbered(" + [c] + ")") == Numbered(c)
    ensures ModeOf("named") == Named(':')
    ensures ModeOf("named(" + [c] + ")") == Named(c)
  {
    assert KeywordAt("question_mark", 0) == Some("question_mark");
    assert KeywordAt("numbered", 0) == Some("numbered");
    assert KeywordAt("numbered(" + [c] + ")", 0) == Some("numbered") by {
      assert ("numbered(" + [c] + ")")[0..8] == "numbered";
    }
    assert KeywordAt("named", 0) == Some("named");
    assert KeywordAt("named(" + [c] + ")", 0) == Some("named") by {
      assert ("named(" + [c] + ")")[0..5] == "named";
      assert ("named(" + [c] + ")")[1] == 'a';
    }
  }
}
