/**
 * The pan-zoom state of a timeline view: an index into a table of zoom
 * levels (milliseconds per major tick), conversion between pixels and
 * milliseconds at the current level, the "fit" search that picks the
 * level showing a whole activity, and the width needed to show a time.
 *
 * Arithmetic is on `real`; the scroll position is set asynchronously in
 * the view, so each requested scroll position is logged instead.
 */
module TimelineZoomController {
  import opened Base

  const DefaultLevels: seq<real> := [1000.0]
  const DefaultTickWidth: real := 200.0
  /** Extra room `width` leaves after a timestamp, as a fraction of it. */
  const Padding: real := 0.25

  /** Milliseconds shown by `pixels` at a level of `level` ms per tick of `tickWidth` pixels. */
  function MillisAt(pixels: real, tickWidth: real, level: real): real
    requires tickWidth > 0.0
  {
    (pixels / tickWidth) * level
  }

  /** Pixels needed for `millis` at a level of `level` ms per tick of `tickWidth` pixels. */
  function PixelsAt(millis: real, tickWidth: real, level: real): real
    requires level > 0.0
  {
    tickWidth * millis / level
  }

  /** At a fixed level the two conversions undo each other. */
  lemma ConversionsAreInverse(x: real, tickWidth: real, level: real)
    requires tickWidth > 0.0 && level > 0.0
    ensures MillisAt(PixelsAt(x, tickWidth, level), tickWidth, level) == x
    ensures PixelsAt(MillisAt(x, tickWidth, level), tickWidth, level) == x
  {
    var p := tickWidth * x / level;
    assert p * level == tickWidth * x;
    assert (p / tickWidth) * level == (p * level) / tickWidth;
    var m := (x / tickWidth) * level;
    assert tickWidth * m == x * level;
  }

  /** `min(max(level, 0), count - 1)`. */
  function Clamp(level: int, count: nat): (r: int)
    requires count > 0
    ensures 0 <= r < count
    ensures 0 <= level < count ==> r == level
    ensures level < 0 ==> r == 0
    ensures level >= count ==> r == count - 1
  {
    if level < 0 then 0 else if level > count - 1 then count - 1 else level
  }

  /** The level at index `i` shows at least `duration` milliseconds across `scrollWidth` pixels. */
  predicate Covers(levels: seq<real>, tickWidth: real, i: int, scrollWidth: real, duration: real)
    requires tickWidth > 0.0 && 0 <= i < |levels|
  {
    MillisAt(scrollWidth, tickWidth, levels[i]) >= duration
  }

  /**
   * The index the fit search settles on when it starts at `from`: the
   * first index from there that covers the duration, or the last index.
   */
  function FitFrom(levels: seq<real>, tickWidth: real, scrollWidth: real, duration: real, from: nat): (r: int)
    requires tickWidth > 0.0 && from < |levels|
    ensures from <= r < |levels|
    ensures forall j :: from <= j < r ==> !Covers(levels, tickWidth, j, scrollWidth, duration)
    ensures r < |levels| - 1 ==> Covers(levels, tickWidth, r, scrollWidth, duration)
    decreases |levels| - from
  {
    if Covers(levels, tickWidth, from, scrollWidth, duration) || from == |levels| - 1 then from
    else FitFrom(levels, tickWidth, scrollWidth, duration, from + 1)
  }

  /** `Math.ceil` on reals. */
  function Ceil(x: real): (r: int)
    ensures x <= r as real < x + 1.0
  {
    -((-x).Floor)
  }

  class TimelineZoomController {
    const zoomLevels: seq<real>
    const tickWidth: real
    var zoomIndex: int
    /** Scroll positions requested of the view, in order. */
    var scrollRequests: seq<real>

    ghost predicate Valid()
      reads this
    {
      && |zoomLevels| > 0
      && (forall i :: 0 <= i < |zoomLevels| ==> zoomLevels[i] > 0.0)
      && tickWidth > 0.0
      && 0 <= zoomIndex < |zoomLevels|
    }

    /**
     * `levels` and `width` are the configured ones, None when absent; a
     * width of 0 is falsy and so also falls back to the default.
     */
    constructor (levels: Option<seq<real>>, width: Option<real>)
      requires levels.Some? ==> |levels.value| > 0 && forall i :: 0 <= i < |levels.value| ==> levels.value[i] > 0.0
      requires width.Some? ==> width.value >= 0.0
      ensures Valid() && scrollRequests == []
      ensures zoomLevels == levels.GetOr(DefaultLevels)
      ensures tickWidth == if width.Some? && width.value != 0.0 then width.value else DefaultTickWidth
      ensures zoomIndex == |zoomLevels| / 2
      ensures levels.None? ==> zoomLevels == [1000.0] && zoomIndex == 0
    {
      zoomLevels := levels.GetOr(DefaultLevels);
      tickWidth := if width.Some? && width.value != 0.0 then width.value else DefaultTickWidth;
      zoomIndex := |levels.GetOr(DefaultLevels)| / 2;
      scrollRequests := [];
    }

    function Level(): real
      requires Valid()
      reads this
    {
      zoomLevels[zoomIndex]
    }

    function ToMillis(pixels: real): (r: real)
      requires Valid()
      reads this
      ensures pixels >= 0.0 ==> r >= 0.0
    {
      MillisAt(pixels, tickWidth, Level())
    }

    function ToPixels(millis: real): (r: real)
      requires Valid()
      reads this
      ensures millis >= 0.0 ==> r >= 0.0
    {
      PixelsAt(millis, tickWidth, Level())
    }

    /** Move to index `level`, kept in range; None (NaN) leaves the index alone. */
    method SetZoomLevel(level: Option<int>)
      requires Valid()
      modifies this
      ensures Valid() && scrollRequests == old(scrollRequests)
      ensures level.None? ==> zoomIndex == old(zoomIndex)
      ensures level.Some? ==> zoomIndex == Clamp(level.value, |zoomLevels|)
    {
      if level.Some? {
        var clamped := if level.value < 0 then 0 else level.value;
        zoomIndex := if clamped < |zoomLevels| - 1 then clamped else |zoomLevels| - 1;
      }
    }

    /**
     * `zoom(amount)`: with a number, move the index by `amount` steps
     * (clamped) and request the scroll position that keeps the time at
     * the centre of the view where it was; always answer the current
     * level.
     */
    method Zoom(amount: Option<int>, scrollX: real, scrollWidth: real) returns (level: real)
      requires Valid()
      modifies this
      ensures Valid()
      ensures amount.None? ==> zoomIndex == old(zoomIndex) && scrollRequests == old(scrollRequests)
      ensures amount.Some? ==> zoomIndex == Clamp(old(zoomIndex) + amount.value, |zoomLevels|)
      ensures amount.Some? ==>
        && |scrollRequests| == |old(scrollRequests)| + 1
        && scrollRequests[..|old(scrollRequests)|] == old(scrollRequests)
        && ToMillis(scrollRequests[|old(scrollRequests)|] + scrollWidth / 2.0)
           == MillisAt(scrollX + scrollWidth / 2.0, tickWidth, old(Level()))
      ensures level == zoomLevels[zoomIndex]
    {
      if amount.Some? {
        var center := ToMillis(scrollX + scrollWidth / 2.0);
        SetZoomLevel(Some(zoomIndex + amount.value));
        var x := ToPixels(center) - scrollWidth / 2.0;
        ConversionsAreInverse(center, tickWidth, Level());
        scrollRequests := scrollRequests + [x];
      }
      level := zoomLevels[zoomIndex];
    }

    /**
     * `initializeZoomFromTimespan`: walk up from index 0 until the view
     * covers the activity's duration or the last level is reached, then
     * request scrolling to the activity's start.
     */
    method Fit(start: real, duration: real, scrollWidth: real)
      requires Valid()
      modifies this
      ensures Valid()
      ensures zoomIndex == FitFrom(zoomLevels, tickWidth, scrollWidth, duration, 0)
      ensures scrollRequests == old(scrollRequests) + [ToPixels(start)]
    {
      zoomIndex := 0;
      while ToMillis(scrollWidth) < duration && zoomIndex < |zoomLevels| - 1
        invariant Valid() && scrollRequests == old(scrollRequests)
        invariant FitFrom(zoomLevels, tickWidth, scrollWidth, duration, zoomIndex)
          == FitFrom(zoomLevels, tickWidth, scrollWidth, duration, 0)
        decreases |zoomLevels| - zoomIndex
      {
        zoomIndex := zoomIndex + 1;
      }
      scrollRequests := scrollRequests + [ToPixels(start)];
    }

    /** Pixels needed to show `timestamp` with padding: at least the view's own width. */
    function Width(timestamp: real, scrollWidth: real): (r: real)
      requires Valid()
      reads this
      ensures r >= scrollWidth && r >= ToPixels(timestamp * (1.0 + Padding))
      ensures r == scrollWidth || r == Ceil(ToPixels(timestamp * (1.0 + Padding))) as real
      ensures r < ToPixels(timestamp * (1.0 + Padding)) + 1.0 || r == scrollWidth
    {
      var pixels := Ceil(ToPixels(timestamp * (1.0 + Padding))) as real;
      if scrollWidth < pixels then pixels else scrollWidth
    }
  }
}
