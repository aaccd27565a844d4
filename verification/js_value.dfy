/** The JavaScript values that flow through the query layer: rows, rule values,
    query parameters and option values. Numbers are integral (floating point is not
    modelled); an object is the list of its own properties in insertion order. */
module JsValue {

  import opened Outcomes
  import opened JsString

  datatype Json =
    | JUndef
    | JNull
    | JBool(b: bool)
    | JNum(n: int)
    | JNaN
    | JStr(s: string)
    | JArr(elems: seq<Json>)
    | JObj(props: seq<Prop>)

  datatype Prop = Prop(key: string, val: Json)

  /** ToBoolean: the falsy values are `undefined`, `null`, `false`, `0`, `NaN` and `""`. */
  predicate Truthy(v: Json)
  {
    match v
    case JUndef => false
    case JNull => false
    case JBool(b) => b
    case JNum(n) => n != 0
    case JNaN => false
    case JStr(s) => s != []
    case _ => true
  }

  /** `typeof v === 'object' && v !== null`. */
  predicate IsObjectLike(v: Json)
  {
    v.JArr? || v.JObj?
  }

  /** `String(v)`. An array is its elements joined by `,`, with `null` and
      `undefined` elements written as the empty string. */
  function ToStr(v: Json): string
    decreases v, 1
  {
    match v
    case JUndef => "undefined"
    case JNull => "null"
    case JBool(b) => if b then "true" else "false"
    case JNum(n) => IntToString(n)
    case JNaN => "NaN"
    case JStr(s) => s
    case JArr(xs) => Join(ElemStrs(xs), ",")
    case JObj(_) => "[object Object]"
  }

  function ElemStrs(xs: seq<Json>): (r: seq<string>)
    ensures |r| == |xs|
    decreases xs, 0
  {
    if xs == [] then []
    else [if xs[0].JUndef? || xs[0].JNull? then "" else ToStr(xs[0])] + ElemStrs(xs[1..])
  }

  /** `a === b` for primitive values (`NaN` is not equal to itself). */
  predicate StrictEq(a: Json, b: Json)
  {
    a == b && !a.JNaN?
  }

  /** The property names of an object, in order. */
  function Keys(ps: seq<Prop>): (r: seq<string>)
    ensures |r| == |ps|
    ensures forall i :: 0 <= i < |ps| ==> r[i] == ps[i].key
  {
    if ps == [] then [] else [ps[0].key] + Keys(ps[1..])
  }

  /** Appending a property appends its key. */
  lemma KeysAppend(ps: seq<Prop>, p: Prop)
    ensures Keys(ps + [p]) == Keys(ps) + [p.key]
  {
    var r := Keys(ps + [p]);
    assert forall i :: 0 <= i < |ps| ==> r[i] == (ps + [p])[i].key == ps[i].key;
  }

  predicate DistinctKeys(ps: seq<Prop>)
  {
    forall i, j :: 0 <= i < j < |ps| ==> ps[i].key != ps[j].key
  }

  /** `obj[k]`, `None` when the property is absent. */
  function ObjGet(ps: seq<Prop>, k: string): (r: Option<Json>)
    ensures r.None? <==> k !in Keys(ps)
  {
    if ps == [] then None
    else if ps[0].key == k then Some(ps[0].val)
    else ObjGet(ps[1..], k)
  }

  /** The position of property `k`, if present. */
  function KeyIndex(ps: seq<Prop>, k: string): (r: Option<nat>)
    ensures r.Some? ==> r.value < |ps| && ps[r.value].key == k
    ensures r.Some? ==> forall j :: 0 <= j < r.value ==> ps[j].key != k
    ensures r.None? <==> k !in Keys(ps)
  {
    if ps == [] then None
    else if ps[0].key == k then Some(0)
    else match KeyIndex(ps[1..], k)
      case None => None
      case Some(i) => Some(i + 1)
  }

  /** `obj[k] = v`: an existing property keeps its position, a new one goes last. */
  function ObjAssign(ps: seq<Prop>, k: string, v: Json): (r: seq<Prop>)
    ensures k !in Keys(ps) ==> r == ps + [Prop(k, v)]
    ensures k in Keys(ps) ==> |r| == |ps| && Keys(r) == Keys(ps)
  {
    match KeyIndex(ps, k)
    case None => ps + [Prop(k, v)]
    case Some(i) =>
      var r := ps[i := Prop(k, v)];
      assert Keys(r) == Keys(ps);
      r
  }

  lemma AssignCons(ps: seq<Prop>, k: string, v: Json)
    requires ps != [] && ps[0].key != k
    ensures ObjAssign(ps, k, v) == [ps[0]] + ObjAssign(ps[1..], k, v)
  {
    match KeyIndex(ps[1..], k)
    case None =>
      assert ps == [ps[0]] + ps[1..];
    case Some(i) =>
      AssignConsAt(ps, k, v, i);
  }

  lemma AssignConsAt(ps: seq<Prop>, k: string, v: Json, i: nat)
    requires ps != [] && ps[0].key != k && KeyIndex(ps[1..], k) == Some(i)
    ensures ObjAssign(ps, k, v) == [ps[0]] + ObjAssign(ps[1..], k, v)
  {
    assert KeyIndex(ps, k) == Some(i + 1);
    UpdateAfterHead(ps, i, Prop(k, v));
  }

  lemma UpdateAfterHead<T>(s: seq<T>, i: nat, y: T)
    requires i + 1 < |s|
    ensures s[i + 1 := y] == [s[0]] + s[1..][i := y]
  {
    assert s[i + 1 := y][1..] == s[1..][i := y];
  }

  lemma {:induction false} ObjGetAfterAssign(ps: seq<Prop>, k: string, v: Json, k': string)
    ensures ObjGet(ObjAssign(ps, k, v), k') == if k' == k then Some(v) else ObjGet(ps, k')
  {
    if ps == [] {
    } else if ps[0].key != k {
      ObjGetAfterAssign(ps[1..], k, v, k');
      AssignCons(ps, k, v);
    } else {
      assert KeyIndex(ps, k) == Some(0);
      assert ObjAssign(ps, k, v) == [Prop(k, v)] + ps[1..];
    }
  }

  lemma {:induction false} AssignKeepsDistinct(ps: seq<Prop>, k: string, v: Json)
    requires DistinctKeys(ps)
    ensures DistinctKeys(ObjAssign(ps, k, v))
  {
    var r := ObjAssign(ps, k, v);
    if k in Keys(ps) {
      assert Keys(r) == Keys(ps);
      forall i, j | 0 <= i < j < |r| ensures r[i].key != r[j].key {
        assert r[i].key == Keys(r)[i] && r[j].key == Keys(r)[j];
      }
    } else {
      forall i, j | 0 <= i < j < |r| ensures r[i].key != r[j].key {
        if j == |ps| {
          assert r[i].key == Keys(ps)[i];
        }
      }
    }
  }
}
