/** `flatObject`: flattens nested objects and arrays into one object whose keys are
    the dotted paths `a.b.c` of the leaves. */
module Flatten {

  import opened Outcomes
  import opened JsString
  import opened JsValue

  /** The number of own enumerable properties `for…in` visits: an array's indices,
      an object's properties, a string's character indices; none for other values. */
  function EntryCount(v: Json): nat
  {
    match v
    case JArr(xs) => |xs|
    case JObj(ps) => |ps|
    case JStr(s) => |s|
    case _ => 0
  }

  /** The `i`-th key `for…in` visits. */
  function EntryKey(v: Json, i: nat): string
    requires i < EntryCount(v)
  {
    match v
    case JObj(ps) => ps[i].key
    case _ => NatToString(i)
  }

  /** `acc[prefix + p.key] = p.val` for each property of `ps`, in order. */
  function AssignAll(acc: seq<Prop>, prefix: string, ps: seq<Prop>): seq<Prop>
    decreases |ps|
  {
    if ps == [] then acc
    else ObjAssign(AssignAll(acc, prefix, ps[..|ps| - 1]), prefix + ps[|ps| - 1].key, ps[|ps| - 1].val)
  }

  /** The flattening of `v`. */
  function Flat(v: Json): seq<Prop>
    decreases v, 1
  {
    FlatUpTo(v, EntryCount(v))
  }

  /** What the loop of `flatObject` has built after visiting `n` entries of `v`. */
  function FlatUpTo(v: Json, n: nat): seq<Prop>
    requires n <= EntryCount(v)
    decreases v, 0, n
  {
    if n == 0 then []
    else
      var acc := FlatUpTo(v, n - 1);
      var k := EntryKey(v, n - 1);
      match v
      case JArr(xs) => Place(acc, k, xs[n - 1])
      case JObj(ps) => Place(acc, k, ps[n - 1].val)
      case JStr(s) => ObjAssign(acc, k, JStr([s[n - 1]]))
  }

  /** One entry: an object-like value contributes its own flattening under `k.`, any
      other value is copied under `k`. */
  function Place(acc: seq<Prop>, k: string, x: Json): seq<Prop>
    decreases x, 2
  {
    if IsObjectLike(x) then AssignAll(acc, k + ".", Flat(x)) else ObjAssign(acc, k, x)
  }

  /** `flatObject(ob)`. */
  method FlatObject(ob: Json) returns (r: seq<Prop>)
    ensures r == Flat(ob)
    decreases ob, 1
  {
    r := [];
    var i := 0;
    while i < EntryCount(ob)
      invariant i <= EntryCount(ob)
      invariant r == FlatUpTo(ob, i)
    {
      r := FlatStep(ob, i, r);
      i := i + 1;
    }
  }

  /** The body of the outer loop of `flatObject` for the `i`-th entry of `ob`. */
  method FlatStep(ob: Json, i: nat, acc: seq<Prop>) returns (r: seq<Prop>)
    requires i < EntryCount(ob) && acc == FlatUpTo(ob, i)
    ensures r == FlatUpTo(ob, i + 1)
    decreases ob, 0
  {
    var k := EntryKey(ob, i);
    if ob.JStr? {
      r := ObjAssign(acc, k, JStr([ob.s[i]]));
    } else {
      var x := if ob.JArr? then ob.elems[i] else ob.props[i].val;
      assert FlatUpTo(ob, i + 1) == Place(acc, k, x);
      r := PlaceEntry(acc, k, x);
    }
  }

  /** One iteration of the outer loop of `flatObject`: `toReturn[k] = x`, or the
      inner loop over `flatObject(x)` when `x` is an object. */
  method PlaceEntry(acc: seq<Prop>, k: string, x: Json) returns (r: seq<Prop>)
    ensures r == Place(acc, k, x)
    decreases x, 2
  {
    if IsObjectLike(x) {
      var inner := FlatObject(x);
      r := AssignPrefixed(acc, k + ".", inner);
    } else {
      r := ObjAssign(acc, k, x);
    }
  }

  /** The inner loop of `flatObject`: `acc[prefix + p.key] = p.val` for each `p`. */
  method AssignPrefixed(acc: seq<Prop>, prefix: string, ps: seq<Prop>) returns (r: seq<Prop>)
    ensures r == AssignAll(acc, prefix, ps)
  {
    r := acc;
    var j := 0;
    while j < |ps|
      invariant j <= |ps|
      invariant r == AssignAll(acc, prefix, ps[..j])
    {
      assert ps[..j + 1][..j] == ps[..j];
      r := ObjAssign(r, prefix + ps[j].key, ps[j].val);
      j := j + 1;
    }
    assert ps[..j] == ps;
  }

  // ----- properties -----

  /** A value that is kept as it is: not an object, or `null`. */
  predicate IsLeaf(v: Json)
  {
    !IsObjectLike(v)
  }

  predicate Leaves(ps: seq<Prop>)
  {
    forall i :: 0 <= i < |ps| ==> IsLeaf(ps[i].val)
  }

  lemma AssignLeaf(ps: seq<Prop>, k: string, v: Json)
    requires Leaves(ps) && IsLeaf(v)
    ensures Leaves(ObjAssign(ps, k, v))
  {
  }

  lemma {:induction false} AssignAllLeaves(acc: seq<Prop>, prefix: string, ps: seq<Prop>)
    requires Leaves(acc) && Leaves(ps)
    ensures Leaves(AssignAll(acc, prefix, ps))
    decreases |ps|
  {
    if ps != [] {
      AssignAllLeaves(acc, prefix, ps[..|ps| - 1]);
      AssignLeaf(AssignAll(acc, prefix, ps[..|ps| - 1]), prefix + ps[|ps| - 1].key, ps[|ps| - 1].val);
    }
  }

  lemma {:induction false} AssignAllDistinct(acc: seq<Prop>, prefix: string, ps: seq<Prop>)
    requires DistinctKeys(acc)
    ensures DistinctKeys(AssignAll(acc, prefix, ps))
    decreases |ps|
  {
    if ps != [] {
      AssignAllDistinct(acc, prefix, ps[..|ps| - 1]);
      AssignKeepsDistinct(AssignAll(acc, prefix, ps[..|ps| - 1]), prefix + ps[|ps| - 1].key, ps[|ps| - 1].val);
    }
  }

  /** Every value of a flattened object is a leaf (no object is left), and no key
      occurs twice. */
  lemma {:induction false} FlatIsFlat(v: Json)
    ensures Leaves(Flat(v)) && DistinctKeys(Flat(v))
    decreases v, 1
  {
    FlatUpToIsFlat(v, EntryCount(v));
  }

  lemma {:induction false} FlatUpToIsFlat(v: Json, n: nat)
    requires n <= EntryCount(v)
    ensures Leaves(FlatUpTo(v, n)) && DistinctKeys(FlatUpTo(v, n))
    decreases v, 0, n, 1
  {
    if n > 0 {
      FlatUpToIsFlat(v, n - 1);
      FlatStepIsFlat(v, n);
    }
  }

  /** The `n`-th entry keeps the object built so far flat. */
  lemma {:induction false} FlatStepIsFlat(v: Json, n: nat)
    requires 0 < n <= EntryCount(v)
    requires Leaves(FlatUpTo(v, n - 1)) && DistinctKeys(FlatUpTo(v, n - 1))
    ensures Leaves(FlatUpTo(v, n)) && DistinctKeys(FlatUpTo(v, n))
    decreases v, 0, n, 0
  {
    var acc := FlatUpTo(v, n - 1);
    var k := EntryKey(v, n - 1);
    if v.JStr? {
      AssignLeaf(acc, k, JStr([v.s[n - 1]]));
      AssignKeepsDistinct(acc, k, JStr([v.s[n - 1]]));
    } else {
      var x := if v.JArr? then v.elems[n - 1] else v.props[n - 1].val;
      assert FlatUpTo(v, n) == Place(acc, k, x);
      PlaceIsFlat(acc, k, x);
    }
  }

  lemma {:induction false} PlaceIsFlat(acc: seq<Prop>, k: string, x: Json)
    requires Leaves(acc) && DistinctKeys(acc)
    ensures Leaves(Place(acc, k, x)) && DistinctKeys(Place(acc, k, x))
    decreases x, 2
  {
    if IsObjectLike(x) {
      FlatIsFlat(x);
      AssignAllLeaves(acc, k + ".", Flat(x));
      AssignAllDistinct(acc, k + ".", Flat(x));
    } else {
      AssignLeaf(acc, k, x);
      AssignKeepsDistinct(acc, k, x);
    }
  }

  /** An object that is already flat (distinct keys, leaf values) flattens to itself. */
  lemma {:induction false} FlatOfFlatObject(ps: seq<Prop>, n: nat)
    requires n <= |ps| && Leaves(ps) && DistinctKeys(ps)
    ensures FlatUpTo(JObj(ps), n) == ps[..n]
  {
    if n > 0 {
      FlatOfFlatObject(ps, n - 1);
      var p := ps[n - 1];
      assert FlatUpTo(JObj(ps), n) == Place(ps[..n - 1], p.key, p.val);
      assert Place(ps[..n - 1], p.key, p.val) == ObjAssign(ps[..n - 1], p.key, p.val);
      var ks := Keys(ps[..n - 1]);
      assert p.key !in ks by {
        forall i | 0 <= i < |ks| ensures ks[i] != p.key {
          assert ks[i] == ps[i].key;
        }
      }
      assert ps[..n] == ps[..n - 1] + [p];
    }
  }

  /** Flattening is idempotent. */
  lemma FlatIdempotent(v: Json)
    ensures Flat(JObj(Flat(v))) == Flat(v)
  {
    FlatIsFlat(v);
    FlatOfFlatObject(Flat(v), |Flat(v)|);
  }

  /** The properties with `prefix` in front of each key. */
  function Prefixed(prefix: string, ps: seq<Prop>): (r: seq<Prop>)
    ensures |r| == |ps|
  {
    seq(|ps|, i requires 0 <= i < |ps| => Prop(prefix + ps[i].key, ps[i].val))
  }

  lemma {:induction false} AssignAllFresh(prefix: string, ps: seq<Prop>)
    requires DistinctKeys(ps)
    ensures AssignAll([], prefix, ps) == Prefixed(prefix, ps)
    decreases |ps|
  {
    if ps != [] {
      var n := |ps|;
      AssignAllFresh(prefix, ps[..n - 1]);
      PrefixedFresh(prefix, ps);
      PrefixedSnoc(prefix, ps);
    }
  }

  lemma PrefixedSnoc(prefix: string, ps: seq<Prop>)
    requires ps != []
    ensures Prefixed(prefix, ps) == Prefixed(prefix, ps[..|ps| - 1]) + [Prop(prefix + ps[|ps| - 1].key, ps[|ps| - 1].val)]
  {
  }

  /** With distinct keys, the last key under `prefix` is not among the earlier ones. */
  lemma PrefixedFresh(prefix: string, ps: seq<Prop>)
    requires DistinctKeys(ps) && ps != []
    ensures prefix + ps[|ps| - 1].key !in Keys(Prefixed(prefix, ps[..|ps| - 1]))
  {
    var n := |ps|;
    var pre := Prefixed(prefix, ps[..n - 1]);
    forall i | 0 <= i < n - 1 ensures pre[i].key != prefix + ps[n - 1].key {
      PrefixInjective(prefix, ps[i].key, ps[n - 1].key);
    }
  }

  lemma PrefixInjective(prefix: string, a: string, b: string)
    requires a != b
    ensures prefix + a != prefix + b
  {
    assert (prefix + a)[|prefix|..] == a;
    assert (prefix + b)[|prefix|..] == b;
  }

  /** A property `k` holding an object flattens to the leaves of that object, each
      under the key `k.` followed by its own path. */
  lemma NestedKeys(k: string, x: Json)
    requires IsObjectLike(x)
    ensures Flat(JObj([Prop(k, x)])) == Prefixed(k + ".", Flat(x))
  {
    var v := JObj([Prop(k, x)]);
    assert FlatUpTo(v, 0) == [];
    assert FlatUpTo(v, 1) == Place([], k, x);
    assert Place([], k, x) == AssignAll([], k + ".", Flat(x));
    FlatIsFlat(x);
    AssignAllFresh(k + ".", Flat(x));
  }

  /** A leaf property is copied as it is. */
  lemma LeafKept(k: string, x: Json)
    requires IsLeaf(x)
    ensures Flat(JObj([Prop(k, x)])) == [Prop(k, x)]
  {
    assert FlatUpTo(JObj([Prop(k, x)]), 1) == Place([], k, x);
  }
}
