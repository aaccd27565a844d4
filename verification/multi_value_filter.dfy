/** The multi-value filter widget: the selection it shows, the options of each field,
    the search over option values and the change it forwards to the component. */
module MultiValueFilter {

  import opened JsString
  import opened JsValue
  import opened FilterOptions
  import opened WhereOps
  import Component

  // ----- the displayed selection -----

  /** `selected.filter(item => items[item] !== undefined)`: the selected indices whose
      option exists, in selection order. */
  function ShownSelection(selected: seq<nat>, items: seq<MVOption>): seq<nat>
    decreases |selected|
  {
    if selected == [] then []
    else (if selected[0] < |items| then [selected[0]] else []) + ShownSelection(selected[1..], items)
  }

  /** An index is shown exactly when it is selected and within the options. */
  lemma {:induction false} ShownSelectionMembers(selected: seq<nat>, items: seq<MVOption>)
    ensures forall x :: x in ShownSelection(selected, items) <==> x in selected && x < |items|
    ensures |ShownSelection(selected, items)| <= |selected|
    decreases |selected|
  {
    if selected != [] {
      ShownSelectionMembers(selected[1..], items);
      assert selected == [selected[0]] + selected[1..];
    }
  }

  /** A selection within the options is shown unchanged, so filtering twice is
      filtering once. */
  lemma {:induction false} ShownSelectionKeepsValid(selected: seq<nat>, items: seq<MVOption>)
    ensures (forall i :: 0 <= i < |selected| ==> selected[i] < |items|) ==> ShownSelection(selected, items) == selected
    ensures ShownSelection(ShownSelection(selected, items), items) == ShownSelection(selected, items)
    decreases |selected|
  {
    if selected != [] {
      ShownSelectionKeepsValid(selected[1..], items);
      var rest := ShownSelection(selected[1..], items);
      if selected[0] < |items| {
        assert ShownSelection(selected, items) == [selected[0]] + rest;
        assert ([selected[0]] + rest)[1..] == rest;
      } else {
        assert ShownSelection(selected, items) == rest;
      }
    }
  }

  /** With two options, the selection `[0, 2]` is shown as `[0]`. */
  lemma ShownSelectionDropsStale(a: MVOption, b: MVOption)
    ensures ShownSelection([0, 2], [a, b]) == [0]
  {
    assert [0, 2][1..] == [2];
    assert [2][1..] == [];
  }

  // ----- fieldData -----

  /** The options whose `field` is `f`, keyed by their index, in list order. */
  function FieldOptions(items: seq<MVOption>, f: Json): seq<(nat, Json)>
    decreases |items|
  {
    if items == [] then []
    else
      var k := |items| - 1;
      FieldOptions(items[..k], f) + (if StrictEq(items[k].field, f) then [(k, items[k].value)] else [])
  }

  /** `fieldData(f)`. */
  method FieldData(items: seq<MVOption>, f: Json) returns (opts: seq<(nat, Json)>)
    ensures opts == FieldOptions(items, f)
  {
    opts := [];
    var index := 0;
    while index < |items|
      invariant index <= |items|
      invariant opts == FieldOptions(items[..index], f)
    {
      assert items[..index + 1][..index] == items[..index];
      if StrictEq(items[index].field, f) {
        opts := opts + [(index, items[index].value)];
      }
      index := index + 1;
    }
    assert items[..index] == items;
  }

  /** The options of `f` are exactly those whose field is strictly equal to `f`, each
      with its own value, in ascending index order. */
  lemma {:induction false} FieldOptionsExact(items: seq<MVOption>, f: Json)
    ensures forall k: nat, v ::
      (k, v) in FieldOptions(items, f) <==> k < |items| && StrictEq(items[k].field, f) && v == items[k].value
    ensures forall i, j :: 0 <= i < j < |FieldOptions(items, f)| ==>
      FieldOptions(items, f)[i].0 < FieldOptions(items, f)[j].0
    ensures forall i :: 0 <= i < |FieldOptions(items, f)| ==> FieldOptions(items, f)[i].0 < |items|
    decreases |items|
  {
    if items != [] {
      var n := |items| - 1;
      var pre := items[..n];
      FieldOptionsExact(pre, f);
      forall k: nat, v
        ensures (k, v) in FieldOptions(items, f) <==> k < |items| && StrictEq(items[k].field, f) && v == items[k].value
      {
        if k < n {
          assert items[k] == pre[k];
        }
      }
    }
  }

  // ----- handleFilterOption -----

  /** An entry of the drop-down: a field's group header, or the option with index
      `key`. */
  datatype OptionNode = GroupHeader | OptionEntry(key: nat)

  /** `handleFilterOption(name, option)`. The option value is lower-cased, which needs
      it to be a string. */
  function FilterOption(items: seq<MVOption>, name: string, option: OptionNode): (r: bool)
    requires option.OptionEntry? ==> option.key < |items| && items[option.key].value.JStr?
    ensures option.GroupHeader? ==> !r
  {
    match option
    case GroupHeader => false
    case OptionEntry(k) => Includes(AsciiLower(items[k].value.s), AsciiLower(name))
  }

  /** Lower-casing a slice is slicing the lower-cased string. */
  lemma LowerSlice(s: string, i: nat, j: nat)
    requires i <= j <= |s|
    ensures AsciiLower(s)[i..j] == AsciiLower(s[i..j])
  {
    var m := AsciiLower(s[i..j]);
    forall t | 0 <= t < j - i ensures AsciiLower(s)[i + t] == m[t] {
      assert s[i..j][t] == s[i + t];
    }
  }

  lemma LowerOfUpperChar(c: char)
    ensures LowerChar(UpperChar(c)) == LowerChar(c)
  {
  }

  /** Lower-casing forgets an upper-casing done before it. */
  lemma LowerOfUpper(name: string)
    ensures AsciiLower(AsciiUpper(name)) == AsciiLower(name)
  {
    var u := AsciiUpper(name);
    forall t | 0 <= t < |name| ensures AsciiLower(u)[t] == AsciiLower(name)[t] {
      LowerOfUpperChar(name[t]);
    }
  }

  /** An occurrence survives lower-casing both strings. */
  lemma LowerKeepsOccurrence(s: string, name: string, i: nat)
    requires OccursAt(s, name, i)
    ensures OccursAt(AsciiLower(s), AsciiLower(name), i)
  {
    LowerSlice(s, i, i + |name|);
  }

  /** Text that occurs in an option value, in any case, finds that option. */
  lemma SearchFindsSubstring(items: seq<MVOption>, name: string, k: nat)
    requires k < |items| && items[k].value.JStr?
    requires Includes(items[k].value.s, name)
    ensures FilterOption(items, name, OptionEntry(k))
    ensures FilterOption(items, AsciiUpper(name), OptionEntry(k))
  {
    var s := items[k].value.s;
    var i :| 0 <= i <= |s| && OccursAt(s, name, i);
    LowerKeepsOccurrence(s, name, i);
    LowerOfUpper(name);
  }

  /** An empty search matches every option. */
  lemma EmptySearchMatches(items: seq<MVOption>, k: nat)
    requires k < |items| && items[k].value.JStr?
    ensures FilterOption(items, "", OptionEntry(k))
  {
    assert OccursAt(AsciiLower(items[k].value.s), AsciiLower(""), 0);
  }

  // ----- onMVChange -----

  /** `onMVChange(e)`: the new selection is forwarded with the full option list to
      the component's `multiValueFilterClickHandler`. */
  method OnMVChange(loader: Component.ComponentLoader, e: seq<nat>, items: seq<MVOption>)
    requires forall i :: 0 <= i < |e| ==> e[i] < |items| && !IsPrototypeKey(ToStr(items[e[i]].field))
    modifies loader
    ensures loader.mvSelected == e && loader.mvFields == Component.SelectionGroups(e, items)
    ensures loader.hiddenLayers == old(loader.hiddenLayers) && loader.rangeFilter == old(loader.rangeFilter)
  {
    loader.MultiValueFilterClickHandler(e, items);
  }
}
