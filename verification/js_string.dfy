/** String operations of the JavaScript runtime that the query layer relies on,
    stated over `seq<char>` (one `char` per UTF-16 code unit). */
module JsString {

  import opened Outcomes

  /** The characters that `String.prototype.trim` strips and that `\s` matches:
      WhiteSpace and LineTerminator of ECMAScript (section 12.2 and 12.3 of ECMA-262). */
  predicate IsWhitespace(c: char)
  {
    c == '\t' || c == '\U{000B}' || c == '\U{000C}' || c == ' ' || c == '\U{00A0}' || c == '\U{FEFF}'
    || c == '\n' || c == '\r' || c == '\U{2028}' || c == '\U{2029}'
    || c == '\U{1680}' || ('\U{2000}' <= c <= '\U{200A}') || c == '\U{202F}' || c == '\U{205F}' || c == '\U{3000}'
  }

  /** The line terminators, which a regular expression `.` does not match. */
  predicate IsLineTerminator(c: char)
  {
    c == '\n' || c == '\r' || c == '\U{2028}' || c == '\U{2029}'
  }

  /** `\w` of a regular expression without the `u` flag (the `i` flag does not widen it). */
  predicate IsWordChar(c: char)
  {
    ('a' <= c <= 'z') || ('A' <= c <= 'Z') || ('0' <= c <= '9') || c == '_'
  }

  predicate IsDigit(c: char)
  {
    '0' <= c <= '9'
  }

  function DigitValue(c: char): (d: nat)
    requires IsDigit(c)
    ensures d < 10
  {
    (c as int - '0' as int) as nat
  }

  function DigitChar(d: nat): (c: char)
    requires d < 10
    ensures IsDigit(c) && DigitValue(c) == d
  {
    ('0' as int + d) as char
  }

  function LowerChar(c: char): char
  {
    if 'A' <= c <= 'Z' then (c as int + 32) as char else c
  }

  function UpperChar(c: char): char
  {
    if 'a' <= c <= 'z' then (c as int - 32) as char else c
  }

  /** `toLowerCase` restricted to the ASCII letters. */
  function AsciiLower(s: string): (r: string)
    ensures |r| == |s|
    ensures forall i :: 0 <= i < |s| ==> r[i] == LowerChar(s[i])
  {
    seq(|s|, i requires 0 <= i < |s| => LowerChar(s[i]))
  }

  /** `toUpperCase` restricted to the ASCII letters. */
  function AsciiUpper(s: string): (r: string)
    ensures |r| == |s|
    ensures forall i :: 0 <= i < |s| ==> r[i] == UpperChar(s[i])
  {
    seq(|s|, i requires 0 <= i < |s| => UpperChar(s[i]))
  }

  function TrimStart(s: string): (r: string)
    ensures |r| <= |s| && r == s[|s| - |r|..]
    ensures r == [] || !IsWhitespace(r[0])
  {
    if s != [] && IsWhitespace(s[0]) then TrimStart(s[1..]) else s
  }

  function TrimEnd(s: string): (r: string)
    ensures |r| <= |s| && r == s[..|r|]
    ensures r == [] || !IsWhitespace(r[|r| - 1])
  {
    if s != [] && IsWhitespace(s[|s| - 1]) then TrimEnd(s[..|s| - 1]) else s
  }

  /** `String.prototype.trim`. */
  function Trim(s: string): (r: string)
    ensures r == [] || (!IsWhitespace(r[0]) && !IsWhitespace(r[|r| - 1]))
  {
    TrimEnd(TrimStart(s))
  }

  /** Decimal digits of a natural number, most significant first. */
  function NatToString(n: nat): (r: string)
    ensures |r| > 0
    ensures forall i :: 0 <= i < |r| ==> IsDigit(r[i])
    decreases n
  {
    if n < 10 then [DigitChar(n)] else NatToString(n / 10) + [DigitChar(n % 10)]
  }

  /** `String(n)` for an integral number. */
  function IntToString(n: int): (r: string)
    ensures |r| > 0
    ensures n >= 0 ==> forall i :: 0 <= i < |r| ==> IsDigit(r[i])
    ensures n < 0 ==> r[0] == '-'
  {
    if n < 0 then "-" + NatToString(-n) else NatToString(n)
  }

  /** The value of a run of decimal digits, most significant first. */
  function DigitsValue(ds: string): nat
    requires forall i :: 0 <= i < |ds| ==> IsDigit(ds[i])
  {
    if ds == [] then 0 else DigitsValue(ds[..|ds| - 1]) * 10 + DigitValue(ds[|ds| - 1])
  }

  /** The length of the longest prefix of `s` made of decimal digits. */
  function DigitRun(s: string): (k: nat)
    ensures k <= |s|
    ensures forall i :: 0 <= i < k ==> IsDigit(s[i])
    ensures k == |s| || !IsDigit(s[k])
  {
    if s == [] || !IsDigit(s[0]) then 0 else 1 + DigitRun(s[1..])
  }

  /** `parseInt(s, 10)`: `None` is `NaN`. Leading white space is skipped, one sign is
      accepted, and the longest run of digits that follows is read. */
  function ParseInt(s: string): (r: Option<int>)
  {
    var t := TrimStart(s);
    var neg := t != [] && t[0] == '-';
    var body := if t != [] && (t[0] == '-' || t[0] == '+') then t[1..] else t;
    var k := DigitRun(body);
    if k == 0 then None
    else
      var v: int := DigitsValue(body[..k]);
      Some(if neg then -v else v)
  }

  lemma {:induction false} DigitsValueOfNatToString(n: nat)
    ensures DigitsValue(NatToString(n)) == n
    decreases n
  {
    var s := NatToString(n);
    if n >= 10 {
      DigitsValueOfNatToString(n / 10);
      assert s[..|s| - 1] == NatToString(n / 10);
    }
  }

  lemma DigitRunOfDigits(s: string)
    requires forall i :: 0 <= i < |s| ==> IsDigit(s[i])
    ensures DigitRun(s) == |s|
  {
    if s != [] {
      DigitRunOfDigits(s[1..]);
    }
  }

  /** `parseInt(String(n), 10) == n` for every integer `n`. */
  lemma ParseIntOfIntToString(n: int)
    ensures ParseInt(IntToString(n)) == Some(n)
  {
    var s := IntToString(n);
    if n < 0 {
      var d := NatToString(-n);
      assert s[1..] == d;
      DigitsValueOfNatToString(-n);
      TrimStartUnchanged(s);
      DigitRunOfDigits(d);
      ParseIntNegative(s);
    } else {
      DigitsValueOfNatToString(n);
      TrimStartUnchanged(s);
      DigitRunOfDigits(s);
      ParseIntUnsigned(s);
    }
  }

  lemma TrimStartUnchanged(s: string)
    requires s != [] && !IsWhitespace(s[0])
    ensures TrimStart(s) == s
  {
  }

  /** `parseInt` of a run of digits reads all of it. */
  lemma ParseIntUnsigned(s: string)
    requires s != [] && TrimStart(s) == s && IsDigit(s[0]) && DigitRun(s) == |s|
    ensures ParseInt(s) == Some(DigitsValue(s) as int)
  {
    assert s[..|s|] == s;
  }

  /** `parseInt` of `-` followed by a run of digits reads all of them. */
  lemma ParseIntNegative(s: string)
    requires |s| > 1 && TrimStart(s) == s && s[0] == '-' && DigitRun(s[1..]) == |s| - 1
    ensures ParseInt(s) == Some(-(DigitsValue(s[1..]) as int))
  {
    assert s[1..][..|s| - 1] == s[1..];
  }

  /** `parts.join(sep)`. */
  function Join(parts: seq<string>, sep: string): (r: string)
    ensures parts == [] ==> r == []
    ensures |parts| == 1 ==> r == parts[0]
  {
    if parts == [] then []
    else if |parts| == 1 then parts[0]
    else Join(parts[..|parts| - 1], sep) + sep + parts[|parts| - 1]
  }

  /** `s.split(sep)` for a one-character separator. The empty string gives `[""]`. */
  function Split(s: string, sep: char): (r: seq<string>)
    ensures |r| > 0
    ensures forall k :: 0 <= k < |r| ==> sep !in r[k]
  {
    if s == [] then [[]]
    else
      var rest := Split(s[1..], sep);
      if s[0] == sep then [[]] + rest
      else [[s[0]] + rest[0]] + rest[1..]
  }

  lemma {:induction false} JoinPrepend(first: string, rest: seq<string>, sep: string)
    requires |rest| > 0
    ensures Join([first] + rest, sep) == first + sep + Join(rest, sep)
    decreases |rest|
  {
    var all := [first] + rest;
    if |rest| == 1 {
      assert all[..|all| - 1] == [first];
    } else {
      assert all[..|all| - 1] == [first] + rest[..|rest| - 1];
      JoinPrepend(first, rest[..|rest| - 1], sep);
    }
  }

  lemma {:induction false} JoinExtendFirst(c: char, first: string, rest: seq<string>, sep: string)
    ensures Join([[c] + first] + rest, sep) == [c] + Join([first] + rest, sep)
  {
    if rest != [] {
      JoinPrepend([c] + first, rest, sep);
      JoinPrepend(first, rest, sep);
    }
  }

  /** Splitting on a separator and joining with it gives the string back. */
  lemma {:induction false} JoinSplit(s: string, sep: char)
    ensures Join(Split(s, sep), [sep]) == s
  {
    if s != [] {
      var rest := Split(s[1..], sep);
      JoinSplit(s[1..], sep);
      if s[0] == sep {
        JoinPrepend([], rest, [sep]);
      } else {
        assert rest == [rest[0]] + rest[1..];
        JoinExtendFirst(s[0], rest[0], rest[1..], [sep]);
      }
    }
  }

  /** `pat` occurs in `s` at index `i`. */
  predicate OccursAt(s: string, pat: string, i: int)
  {
    0 <= i <= |s| - |pat| && s[i..i + |pat|] == pat
  }

  /** `s.includes(sub)`. */
  predicate Includes(s: string, sub: string)
  {
    exists i | 0 <= i <= |s| :: OccursAt(s, sub, i)
  }

  /** The leftmost index at which `pat` occurs in `s`, from `from` on. */
  function IndexOf(s: string, pat: string, from: nat): (r: Option<nat>)
    requires from <= |s|
    ensures r.Some? ==> from <= r.value && OccursAt(s, pat, r.value)
    ensures r.Some? ==> forall j :: from <= j < r.value ==> !OccursAt(s, pat, j)
    ensures r.None? ==> forall j :: from <= j ==> !OccursAt(s, pat, j)
    decreases |s| - from
  {
    if from + |pat| > |s| then None
    else if s[from..from + |pat|] == pat then Some(from)
    else IndexOf(s, pat, from + 1)
  }

  /** GetSubstitution of section 22.1.3.19.1 of ECMA-262 for a match without capture
      groups: `$$` is `$`, `$&` the match, `` $` `` the text before it, `$'` the text after
      it; any other `$` is literal. */
  function Substitute(rep: string, matched: string, before: string, after: string): string
  {
    if rep == [] then []
    else if rep[0] == '$' && |rep| >= 2 && rep[1] == '$' then "$" + Substitute(rep[2..], matched, before, after)
    else if rep[0] == '$' && |rep| >= 2 && rep[1] == '&' then matched + Substitute(rep[2..], matched, before, after)
    else if rep[0] == '$' && |rep| >= 2 && rep[1] == '`' then before + Substitute(rep[2..], matched, before, after)
    else if rep[0] == '$' && |rep| >= 2 && rep[1] == '\'' then after + Substitute(rep[2..], matched, before, after)
    else [rep[0]] + Substitute(rep[1..], matched, before, after)
  }

  lemma {:induction false} SubstituteWithoutDollar(rep: string, matched: string, before: string, after: string)
    requires '$' !in rep
    ensures Substitute(rep, matched, before, after) == rep
  {
    if rep != [] {
      SubstituteWithoutDollar(rep[1..], matched, before, after);
    }
  }

  /** `s.replace(pat, rep)` with a string (or a one-character regular expression) as
      pattern: only the first occurrence is replaced, and `rep` is read by `Substitute`. */
  function ReplaceFirst(s: string, pat: string, rep: string): (r: string)
  {
    match IndexOf(s, pat, 0)
    case None => s
    case Some(p) =>
      s[..p] + Substitute(rep, pat, s[..p], s[p + |pat|..]) + s[p + |pat|..]
  }

  /** Replacing into a string without `pat` changes nothing; with a replacement free
      of `$` the first occurrence is replaced verbatim. */
  lemma ReplaceFirstLiteral(s: string, pat: string, rep: string)
    requires '$' !in rep
    ensures IndexOf(s, pat, 0).None? ==> ReplaceFirst(s, pat, rep) == s
    ensures IndexOf(s, pat, 0).Some? ==>
      var p := IndexOf(s, pat, 0).value;
      ReplaceFirst(s, pat, rep) == s[..p] + rep + s[p + |pat|..]
  {
    match IndexOf(s, pat, 0)
    case None =>
    case Some(p) => SubstituteWithoutDollar(rep, pat, s[..p], s[p + |pat|..]);
  }

  /** `s.replace(/c/g, d)` for single characters. */
  function ReplaceAllChar(s: string, c: char, d: char): (r: string)
    ensures |r| == |s|
    ensures forall i :: 0 <= i < |s| ==> r[i] == (if s[i] == c then d else s[i])
  {
    if s == [] then [] else [if s[0] == c then d else s[0]] + ReplaceAllChar(s[1..], c, d)
  }

  /** The index of the last occurrence of `c` in `s`. */
  function LastIndexOf(s: string, c: char): (r: Option<nat>)
    ensures r.Some? ==> r.value < |s| && s[r.value] == c && c !in s[r.value + 1..]
    ensures r.None? ==> c !in s
  {
    if s == [] then None
    else if s[|s| - 1] == c then Some(|s| - 1)
    else
      var r := LastIndexOf(s[..|s| - 1], c);
      assert s == s[..|s| - 1] + [s[|s| - 1]];
      r
  }
  /** A string free of the separator splits into itself alone. */
  lemma {:induction false} SplitWithoutSep(a: string, sep: char)
    requires sep !in a
    ensures Split(a, sep) == [a]
  {
    if a != [] {
      assert a[0] in a && a == [a[0]] + a[1..];
      SplitWithoutSep(a[1..], sep);
    }
  }

  lemma {:induction false} SplitAtSep(a: string, b: string, sep: char)
    requires sep !in a
    ensures Split(a + [sep] + b, sep) == [a] + Split(b, sep)
  {
    var s := a + [sep] + b;
    if a == [] {
      assert s[1..] == b;
    } else {
      assert s[1..] == a[1..] + [sep] + b;
      assert a[0] in a && s[0] == a[0] && a == [a[0]] + a[1..];
      SplitAtSep(a[1..], b, sep);
    }
  }

  /** Joining parts free of the separator and splitting again gives the parts back. */
  lemma {:induction false} SplitJoin(parts: seq<string>, sep: char)
    requires |parts| > 0
    requires forall k :: 0 <= k < |parts| ==> sep !in parts[k]
    ensures Split(Join(parts, [sep]), sep) == parts
    decreases |parts|
  {
    if |parts| == 1 {
      SplitWithoutSep(parts[0], sep);
    } else {
      var rest := parts[1..];
      assert parts == [parts[0]] + rest;
      JoinPrepend(parts[0], rest, [sep]);
      SplitJoin(rest, sep);
      SplitAtSep(parts[0], Join(rest, [sep]), sep);
    }
  }

  /** The parts after the first, each with `s` in front. */
  function Shifted(parts: seq<string>, s: string): (r: seq<string>)
    ensures |r| == |parts|
  {
    seq(|parts|, k requires 0 <= k < |parts| => if k == 0 then parts[0] else s + parts[k])
  }

  /** A separator `c` followed by `s` is the separator `c` with `s` moved into the
      parts that follow it. */
  lemma {:induction false} JoinShifted(parts: seq<string>, c: char, s: string)
    ensures Join(parts, [c] + s) == Join(Shifted(parts, s), [c])
    decreases |parts|
  {
    var n := |parts|;
    if n > 1 {
      JoinShifted(parts[..n - 1], c, s);
      assert Shifted(parts, s)[..n - 1] == Shifted(parts[..n - 1], s);
    }
  }
}
