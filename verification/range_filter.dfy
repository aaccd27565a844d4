/** The range filter widget: the `[start, end]` window a day-count choice selects,
    and the default choice applied while no range is chosen. `Date.now()` is the
    parameter `now`, in milliseconds. */
module RangeFilter {

  import opened Outcomes
  import opened JsValue
  import opened Filters
  import Component

  /** Milliseconds in a day. */
  const MsDay := 86400000

  /** The arguments `clickHandler` passes to `onChange`. */
  datatype Window = Window(start: Json, end: Json, value: Json)

  /** `now - msDay * e`: a number, `null` (as 0) or a boolean (as 0 or 1) is a day
      count; anything else makes the start `NaN`. */
  function StartFor(now: int, e: Json): Json
  {
    match e
    case JNum(n) => JNum(now - MsDay * n)
    case JNull => JNum(now)
    case JBool(b) => JNum(now - MsDay * (if b then 1 else 0))
    case _ => JNaN
  }

  /** `clickHandler(e)`: `-1` selects everything since the epoch, a day count `n`
      the last `n` days; the end is always now and the choice is passed on as it
      came. */
  function ClickHandler(now: int, e: Json): (w: Window)
    ensures w.end == JNum(now) && w.value == e
    ensures e == JNum(-1) ==> w.start == JNum(0)
    ensures e.JNum? && e.n != -1 ==> w.start.JNum? && now - w.start.n == MsDay * e.n
  {
    if StrictEq(e, JNum(-1)) then Window(JNum(0), JNum(now), e)
    else Window(StartFor(now, e), JNum(now), e)
  }

  /** The number of whole days a window covers. */
  function DaysCovered(w: Window): int
    requires w.start.JNum? && w.end.JNum?
  {
    (w.end.n - w.start.n) / MsDay
  }

  /** A day count other than `-1` is recovered from its window; a non-negative one
      gives a window that does not end before it starts, and `0` an empty one. */
  lemma ChoiceRoundTrip(now: int, n: int)
    requires n != -1
    ensures ClickHandler(now, JNum(n)).start.JNum?
    ensures DaysCovered(ClickHandler(now, JNum(n))) == n
    ensures n >= 0 ==> ClickHandler(now, JNum(n)).start.n <= now
    ensures n == 0 ==> ClickHandler(now, JNum(n)).start == ClickHandler(now, JNum(n)).end
  {
    var w := ClickHandler(now, JNum(n));
    assert w.end.n - w.start.n == MsDay * n;
  }

  /** Choosing `-1` when `now` is past the epoch covers more than any day count that
      reaches back no further. */
  lemma AllTimeCoversEveryChoice(now: int, n: nat)
    requires 0 <= MsDay * n <= now
    ensures ClickHandler(now, JNum(-1)).start.n <= ClickHandler(now, JNum(n)).start.n
  {
  }

  /** The window applied on render: the default choice while `range` is falsy,
      nothing once a range is chosen. */
  function InitialWindow(now: int, range: Json, defaultValue: Json): (r: Option<Window>)
    ensures r.Some? <==> !Truthy(range)
    ensures r.Some? ==> r.value.value == defaultValue && r.value.end == JNum(now)
  {
    if !Truthy(range) then Some(ClickHandler(now, defaultValue)) else None
  }

  /** A chosen day count of `0` is falsy, so it is replaced by the default again. */
  lemma ZeroDaysReapplyDefault(now: int, defaultValue: Json)
    ensures InitialWindow(now, JNum(0), defaultValue) == Some(ClickHandler(now, defaultValue))
  {
  }

  /** `RangeFilter` rendered: when no range is chosen yet, the component receives the
      window of the default choice; otherwise nothing changes. */
  method Render(loader: Component.ComponentLoader, now: int, defaultValue: Json)
    modifies loader
    ensures !Truthy(old(loader.rangeFilter.range)) ==>
      var w := ClickHandler(now, defaultValue);
      loader.rangeFilter == RangeState(loader.rangeFilterField, defaultValue, w.start, w.end)
    ensures Truthy(old(loader.rangeFilter.range)) ==> loader.rangeFilter == old(loader.rangeFilter)
    ensures loader.hiddenLayers == old(loader.hiddenLayers)
    ensures loader.mvSelected == old(loader.mvSelected) && loader.mvFields == old(loader.mvFields)
  {
    var initial := InitialWindow(now, loader.rangeFilter.range, defaultValue);
    if initial.Some? {
      var w := initial.value;
      loader.RangeFilterClickHandler(w.start, w.end, w.value);
    }
  }

  /** A choice in the drop-down: its window goes to the component. */
  method Choose(loader: Component.ComponentLoader, now: int, e: Json)
    modifies loader
    ensures loader.rangeFilter == RangeState(loader.rangeFilterField, e, ClickHandler(now, e).start, JNum(now))
    ensures loader.hiddenLayers == old(loader.hiddenLayers)
    ensures loader.mvSelected == old(loader.mvSelected) && loader.mvFields == old(loader.mvFields)
  {
    var w := ClickHandler(now, e);
    loader.RangeFilterClickHandler(w.start, w.end, w.value);
  }
}
