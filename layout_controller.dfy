/**
 * The display-layout view controller: frames for the objects of a
 * layout's composition are placed on a grid.  Each frame has a raw
 * position and size in grid cells (`rawPositions`), taken from the
 * view's saved configuration or generated by default, and a pixel style
 * computed from it (`positions`).  Drops, drags, grid changes and
 * composition reloads update both.
 *
 * Pixel styles are integer offsets rather than CSS strings.  The drag
 * arithmetic (`LayoutDrag`) is a collaborator: the adjusted raw position
 * it computes is a parameter of `ContinueDrag`.
 */
module LayoutController {
  import opened Base

  /** A pair of grid or pixel quantities: horizontal, vertical. */
  datatype Pair = Pair(x: int, y: int)

  /** A frame in grid cells: its top-left cell and its size. */
  datatype Raw = Raw(position: Pair, dimensions: Pair)

  /** A frame in pixels. */
  datatype Style = Style(left: int, top: int, width: int, height: int)

  const DefaultDimensions: Pair := Pair(12, 8)
  const DefaultGridSize: Pair := Pair(32, 32)
  const MinimumFrameSize: Pair := Pair(320, 180)
  const DroppedMessage := "Dropped a frame."
  const MovedMessage := "Moved frame."

  predicate Positive(p: Pair) {
    p.x > 0 && p.y > 0
  }

  function Max(a: int, b: int): int {
    if a < b then b else a
  }

  /** `Math.ceil(a / b)`: the fewest multiples of `b` that reach `a`. */
  function CeilDiv(a: int, b: int): (r: int)
    requires b > 0
    ensures r * b >= a && (r - 1) * b < a
  {
    var q := (-a) / b;
    var m := (-a) % b;
    assert -a == b * q + m && 0 <= m < b;
    assert -q * b == a + m;
    -q
  }

  /**
   * The size of a new frame: per axis, the default number of cells, or
   * more when that many cells would be smaller than the minimum frame
   * size in pixels; never more cells than needed for either.
   */
  function DefaultSize(grid: Pair): (r: Pair)
    requires Positive(grid)
    ensures r.x >= DefaultDimensions.x && r.x * grid.x >= MinimumFrameSize.x
    ensures r.y >= DefaultDimensions.y && r.y * grid.y >= MinimumFrameSize.y
    ensures r.x == DefaultDimensions.x || (r.x - 1) * grid.x < MinimumFrameSize.x
    ensures r.y == DefaultDimensions.y || (r.y - 1) * grid.y < MinimumFrameSize.y
  {
    Pair(Max(CeilDiv(MinimumFrameSize.x, grid.x), DefaultDimensions.x),
         Max(CeilDiv(MinimumFrameSize.y, grid.y), DefaultDimensions.y))
  }

  /** On the default 32 by 32 grid a new frame is 12 by 8 cells. */
  lemma DefaultGridSize12By8()
    ensures DefaultSize(DefaultGridSize) == Pair(12, 8)
  {
  }

  /** The default frame for the `index`-th object: at cell (index, index), of the default size. */
  function DefaultPosition(index: int, grid: Pair): (r: Raw)
    requires Positive(grid)
    ensures r.position.x == index && r.position.y == index
    ensures r.dimensions == DefaultSize(grid)
  {
    Raw(Pair(index, index), DefaultSize(grid))
  }

  /** Distinct indices give frames at distinct cells. */
  lemma DefaultPositionsAreUnique(i: int, j: int, grid: Pair)
    requires Positive(grid) && i != j
    ensures DefaultPosition(i, grid).position != DefaultPosition(j, grid).position
  {
  }

  /** A raw frame in pixels: every component scaled by the grid size of its axis. */
  function Convert(raw: Raw, grid: Pair): (r: Style)
    ensures r.left == grid.x * raw.position.x && r.top == grid.y * raw.position.y
    ensures r.width == grid.x * raw.dimensions.x && r.height == grid.y * raw.dimensions.y
  {
    Style(grid.x * raw.position.x, grid.y * raw.position.y,
          grid.x * raw.dimensions.x, grid.y * raw.dimensions.y)
  }

  /** The frame a drop at pixel (x, y) stores: the cell holding that pixel, with the default size. */
  function DropFrame(x: int, y: int, grid: Pair): Raw
    requires Positive(grid)
  {
    Raw(Pair(x / grid.x, y / grid.y), DefaultSize(grid))
  }

  /** The dropped frame's top-left corner is the grid point at or just before the drop point. */
  lemma DropSnapsToGrid(x: int, y: int, grid: Pair)
    requires Positive(grid)
    ensures var s := Convert(DropFrame(x, y, grid), grid);
      && s.left <= x < s.left + grid.x
      && s.top <= y < s.top + grid.y
  {
  }

  /** The ids of `s` in order of first occurrence, each once (the key order of an object filled from `s`). */
  function Distinct(s: seq<string>): (r: seq<string>)
    ensures forall k :: k in r <==> k in s
    ensures forall i, j :: 0 <= i < j < |r| ==> r[i] != r[j]
  {
    if s == [] then []
    else
      var d := Distinct(s[..|s| - 1]);
      assert forall k :: k in s <==> k in s[..|s| - 1] || k == s[|s| - 1];
      if s[|s| - 1] in d then d else d + [s[|s| - 1]]
  }

  /** A list without repeats is its own key order. */
  lemma {:induction false} DistinctOfDistinct(s: seq<string>)
    requires forall i, j :: 0 <= i < j < |s| ==> s[i] != s[j]
    ensures Distinct(s) == s
  {
    if s != [] {
      var init := s[..|s| - 1];
      DistinctOfDistinct(init);
      assert s[|s| - 1] !in init;
      assert s == init + [s[|s| - 1]];
    }
  }

  /** The frame `layoutPanels(ids)` gives `id`: its saved frame, else the default one at its first index in `ids`. */
  function FrameFor(panels: map<string, Raw>, ids: seq<string>, id: string, grid: Pair): Raw
    requires Positive(grid)
  {
    if id in panels then panels[id] else DefaultPosition(IndexOf(ids, id), grid)
  }

  /** The raw frames `layoutPanels(ids)` ends with: one per listed id. */
  function LaidOut(panels: map<string, Raw>, ids: seq<string>, grid: Pair): (r: map<string, Raw>)
    requires Positive(grid)
    ensures r.Keys == set id | id in ids
    ensures forall id :: id in r ==> r[id] == FrameFor(panels, ids, id, grid)
  {
    map id | id in ids :: FrameFor(panels, ids, id, grid)
  }

  /**
   * Each listed id keeps its saved frame when it has one; an id without
   * one gets the default frame at the index where it first occurs.
   */
  lemma LaidOutFrames(panels: map<string, Raw>, ids: seq<string>, grid: Pair)
    requires Positive(grid)
    ensures forall id :: id in ids && id in panels ==> LaidOut(panels, ids, grid)[id] == panels[id]
    ensures forall i :: 0 <= i < |ids| && ids[i] !in panels && ids[i] !in ids[..i] ==>
      LaidOut(panels, ids, grid)[ids[i]] == DefaultPosition(i, grid)
  {
  }

  /** An element not in the prefix before it is found at its own position. */
  lemma FirstIndex(s: seq<string>, i: int)
    requires 0 <= i < |s| && s[i] !in s[..i]
    ensures IndexOf(s, s[i]) == i
  {
  }

  /**
   * The frames a controller shows: raw frames by id, pixel frames by id,
   * and the ids of the pixel frames in the order they were added (the key
   * order of the `positions` object).
   */
  datatype Frames = Frames(raw: map<string, Raw>, shown: map<string, Style>, order: seq<string>)

  /**
   * Every shown frame has a raw frame and is that raw frame in pixels;
   * `order` lists the shown ids, each once.
   */
  ghost predicate Coherent(f: Frames, grid: Pair) {
    && f.shown.Keys <= f.raw.Keys
    && (forall k :: k in f.shown ==> f.shown[k] == Convert(f.raw[k], grid))
    && (forall k :: k in f.order <==> k in f.shown)
    && (forall i, j :: 0 <= i < j < |f.order| ==> f.order[i] != f.order[j])
  }

  /**
   * `populatePosition(id, index)`: keep `id`'s raw frame or give it the
   * default frame at `index`, then show it in pixels.
   */
  function Populate(f: Frames, id: string, index: int, grid: Pair): (r: Frames)
    requires Positive(grid)
    ensures id in r.raw && id in r.shown && r.shown[id] == Convert(r.raw[id], grid)
    ensures id in f.raw ==> r.raw == f.raw
    ensures id !in f.raw ==> r.raw == f.raw[id := DefaultPosition(index, grid)]
    ensures r.shown.Keys == f.shown.Keys + {id}
    ensures forall k :: k in f.shown && k != id ==> r.shown[k] == f.shown[k]
  {
    var raw := if id in f.raw then f.raw[id] else DefaultPosition(index, grid);
    Frames(f.raw[id := raw], f.shown[id := Convert(raw, grid)],
           if id in f.shown then f.order else f.order + [id])
  }

  /** Populating an id whose raw frame is the only one out of date leaves the frames coherent again. */
  lemma PopulateRestoresCoherence(f: Frames, id: string, index: int, grid: Pair)
    requires Positive(grid)
    requires f.shown.Keys <= f.raw.Keys
    requires forall k :: k in f.shown && k != id ==> f.shown[k] == Convert(f.raw[k], grid)
    requires forall k :: k in f.order <==> k in f.shown
    requires forall i, j :: 0 <= i < j < |f.order| ==> f.order[i] != f.order[j]
    ensures Coherent(Populate(f, id, index, grid), grid)
  {
  }

  /** `ids.forEach(populatePosition)`: populate each id with its index in the list. */
  function PopulateAll(f: Frames, ids: seq<string>, grid: Pair): Frames
    requires Positive(grid)
  {
    if ids == [] then f
    else Populate(PopulateAll(f, ids[..|ids| - 1], grid), ids[|ids| - 1], |ids| - 1, grid)
  }

  /** The frames `layoutPanels(ids)` starts from: the saved frames of the listed ids, nothing shown. */
  function Start(saved: map<string, Raw>, ids: seq<string>): Frames {
    Frames(map id | id in ids && id in saved :: saved[id], map[], [])
  }

  /** Populating a list shows exactly what was shown before plus the listed ids. */
  lemma {:induction false} PopulateAllShows(f: Frames, ids: seq<string>, grid: Pair)
    requires Positive(grid)
    ensures forall k :: k in PopulateAll(f, ids, grid).shown <==> k in f.shown || k in ids
  {
    if ids != [] {
      var init := ids[..|ids| - 1];
      PopulateAllShows(f, init, grid);
      assert ids == init + [ids[|ids| - 1]];
    }
  }

  /** Populating keeps frames coherent. */
  lemma {:induction false} PopulateAllCoherent(f: Frames, ids: seq<string>, grid: Pair)
    requires Positive(grid) && Coherent(f, grid)
    ensures Coherent(PopulateAll(f, ids, grid), grid)
  {
    if ids != [] {
      var init := ids[..|ids| - 1];
      PopulateAllCoherent(f, init, grid);
      PopulateRestoresCoherence(PopulateAll(f, init, grid), ids[|ids| - 1], |ids| - 1, grid);
    }
  }

  /** From nothing shown, the shown ids end up in order of first occurrence. */
  lemma {:induction false} PopulateAllOrder(f: Frames, ids: seq<string>, grid: Pair)
    requires Positive(grid) && f.shown == map[] && f.order == []
    ensures PopulateAll(f, ids, grid).order == Distinct(ids)
  {
    if ids != [] {
      var init := ids[..|ids| - 1];
      PopulateAllOrder(f, init, grid);
      PopulateAllShows(f, init, grid);
    }
  }

  /**
   * After populating the first `j` ids of `ids` from `Start(saved, ids)`,
   * the raw frames are those of the listed ids with a saved frame and
   * those of the first `j`.
   */
  lemma {:induction false} PopulatePrefixKeys(saved: map<string, Raw>, ids: seq<string>, grid: Pair, j: int)
    requires Positive(grid) && 0 <= j <= |ids|
    ensures forall k :: k in PopulateAll(Start(saved, ids), ids[..j], grid).raw <==> (k in ids && k in saved) || k in ids[..j]
  {
    if j > 0 {
      PopulatePrefixKeys(saved, ids, grid, j - 1);
      assert ids[..j][..j - 1] == ids[..j - 1];
      assert forall k :: k in ids[..j] <==> k in ids[..j - 1] || k == ids[j - 1];
    }
  }

  /** ... and each of them is the frame `FrameFor` gives it. */
  lemma {:induction false} PopulatePrefixFrames(saved: map<string, Raw>, ids: seq<string>, grid: Pair, j: int)
    requires Positive(grid) && 0 <= j <= |ids|
    ensures var f := PopulateAll(Start(saved, ids), ids[..j], grid);
      forall k :: k in f.raw ==> f.raw[k] == FrameFor(saved, ids, k, grid)
  {
    if j > 0 {
      PopulatePrefixFrames(saved, ids, grid, j - 1);
      var g := PopulateAll(Start(saved, ids), ids[..j - 1], grid);
      var x := ids[j - 1];
      assert ids[..j][..j - 1] == ids[..j - 1];
      assert PopulateAll(Start(saved, ids), ids[..j], grid) == Populate(g, x, j - 1, grid);
      if x !in g.raw {
        PopulatePrefixKeys(saved, ids, grid, j - 1);
        assert x !in saved && x !in ids[..j - 1];
        FirstIndex(ids, j - 1);
      }
      PopulateFramesStep(saved, ids, grid, g, x, j - 1);
    }
  }

  /** One populate step keeps every raw frame the one `FrameFor` gives it, when the new default is that frame too. */
  lemma PopulateFramesStep(saved: map<string, Raw>, ids: seq<string>, grid: Pair, g: Frames, x: string, index: int)
    requires Positive(grid)
    requires forall k :: k in g.raw ==> g.raw[k] == FrameFor(saved, ids, k, grid)
    requires x !in g.raw ==> FrameFor(saved, ids, x, grid) == DefaultPosition(index, grid)
    ensures var f := Populate(g, x, index, grid);
      forall k :: k in f.raw ==> f.raw[k] == FrameFor(saved, ids, k, grid)
  {
  }

  /** `layoutPanels(ids)` shows exactly the listed ids, each with its `LaidOut` frame, in first-occurrence order. */
  lemma LayoutResult(saved: map<string, Raw>, ids: seq<string>, grid: Pair)
    requires Positive(grid)
    ensures var f := PopulateAll(Start(saved, ids), ids, grid);
      && f.raw == LaidOut(saved, ids, grid)
      && f.shown.Keys == f.raw.Keys
      && f.order == Distinct(ids)
      && Coherent(f, grid)
  {
    var f := PopulateAll(Start(saved, ids), ids, grid);
    PopulatePrefixKeys(saved, ids, grid, |ids|);
    PopulatePrefixFrames(saved, ids, grid, |ids|);
    assert ids[..|ids|] == ids;
    var target := LaidOut(saved, ids, grid);
    assert forall k :: k in f.raw <==> k in ids;
    assert f.raw.Keys == target.Keys;
    assert f.raw == target;
    PopulateAllShows(Start(saved, ids), ids, grid);
    PopulateAllCoherent(Start(saved, ids), ids, grid);
    PopulateAllOrder(Start(saved, ids), ids, grid);
  }

  /** The controller's fields other than the frames and the grid size. */
  datatype Untouched = Untouched(
    modelGrid: Option<Pair>, panels: Option<map<string, Raw>>, commits: seq<string>,
    dragging: bool, activeDragId: string, callbackCount: int, composition: seq<string>)

  class LayoutController {
    /** Frames in grid cells, by object id. */
    var rawPositions: map<string, Raw>
    /** Frames in pixels, by object id. */
    var positions: map<string, Style>
    /** The keys of `positions` in insertion order. */
    var order: seq<string>
    var gridSize: Pair
    /** The layout model's `layoutGrid`, None when unset. */
    var modelGrid: Option<Pair>
    /** The view configuration's `panels`, None when it (or the configuration) is absent. */
    var panels: Option<map<string, Raw>>
    /** The scope offers `commit`; `commits` logs the messages passed to it. */
    const canCommit: bool
    var commits: seq<string>
    var dragging: bool
    var activeDragId: string
    var callbackCount: int
    /** The composition last applied, as ids. */
    var composition: seq<string>

    function State(): Frames
      reads this
    {
      Frames(rawPositions, positions, order)
    }

    function Others(): Untouched
      reads this
    {
      Untouched(modelGrid, panels, commits, dragging, activeDragId, callbackCount, composition)
    }

    /** What every method keeps: positive grids and coherent frames. */
    ghost predicate Consistent()
      reads this
    {
      && Positive(gridSize)
      && (modelGrid.Some? ==> Positive(modelGrid.value))
      && Coherent(State(), gridSize)
    }

    /** Consistent, and every raw frame is shown. */
    ghost predicate Valid()
      reads this
    {
      Consistent() && positions.Keys == rawPositions.Keys
    }

    constructor (modelGrid: Option<Pair>, panels: Option<map<string, Raw>>, canCommit: bool)
      requires modelGrid.Some? ==> Positive(modelGrid.value)
      ensures Valid()
      ensures rawPositions == map[] && positions == map[] && order == []
      ensures gridSize == DefaultGridSize && this.modelGrid == modelGrid && this.panels == panels
      ensures this.canCommit == canCommit && commits == []
      ensures !dragging && callbackCount == 0 && composition == []
    {
      rawPositions, positions, order := map[], map[], [];
      gridSize := DefaultGridSize;
      this.modelGrid := modelGrid;
      this.panels := panels;
      this.canCommit := canCommit;
      commits := [];
      dragging, activeDragId := false, "undefined";
      callbackCount, composition := 0, [];
    }

    /** The pixel frame of `id`, if it is shown. */
    function GetFrameStyle(id: string): (r: Option<Style>)
      requires Consistent()
      reads this
      ensures r.Some? <==> id in positions
      ensures r.Some? ==> r.value == Convert(rawPositions[id], gridSize)
    {
      if id in positions then Some(positions[id]) else None
    }

    /** `populatePosition(id, index)`; an absent index counts as 0. */
    method PopulatePosition(id: string, index: Option<int>)
      requires Positive(gridSize)
      modifies this
      ensures gridSize == old(gridSize) && Others() == old(Others())
      ensures State() == Populate(old(State()), id, index.GetOr(0), gridSize)
    {
      if id !in rawPositions {
        rawPositions := rawPositions[id := DefaultPosition(index.GetOr(0), gridSize)];
      }
      if id !in positions {
        order := order + [id];
      }
      positions := positions[id := Convert(rawPositions[id], gridSize)];
    }

    /**
     * Take the saved frames of `ids`, clear the shown frames, read the
     * grid from the model, and populate every id with its list index.
     */
    method LayoutPanels(ids: seq<string>)
      requires modelGrid.Some? ==> Positive(modelGrid.value)
      modifies this
      ensures Valid()
      ensures gridSize == old(modelGrid).GetOr(DefaultGridSize)
      ensures rawPositions == LaidOut(old(panels).GetOr(map[]), ids, gridSize)
      ensures order == Distinct(ids)
      ensures Others() == old(Others())
    {
      var saved := panels.GetOr(map[]);
      rawPositions := map id | id in ids && id in saved :: saved[id];
      positions, order := map[], [];
      gridSize := modelGrid.GetOr(DefaultGridSize);
      for i := 0 to |ids|
        invariant Positive(gridSize) && gridSize == old(modelGrid).GetOr(DefaultGridSize)
        invariant State() == PopulateAll(Start(saved, ids), ids[..i], gridSize)
        invariant Others() == old(Others())
      {
        assert ids[..i + 1][..i] == ids[..i];
        PopulatePosition(ids[i], Some(i));
      }
      assert ids[..|ids|] == ids;
      LayoutResult(saved, ids, gridSize);
    }

    /** Give `id` the raw frame `frame` and show it (`rawPositions[id] = frame; populatePosition(id)`). */
    method ShowFrame(id: string, frame: Raw)
      requires Consistent()
      modifies this
      ensures Consistent() && gridSize == old(gridSize) && Others() == old(Others())
      ensures rawPositions == old(rawPositions)[id := frame]
      ensures positions == old(positions)[id := Convert(frame, gridSize)]
      ensures order == if id in old(positions) then old(order) else old(order) + [id]
    {
      rawPositions := rawPositions[id := frame];
      PopulateRestoresCoherence(State(), id, 0, gridSize);
      PopulatePosition(id, None);
    }

    /**
     * `handleDrop`: unless the event was already handled, store the frame
     * of the cell under the drop point in the configuration (creating it
     * if needed), commit, show the frame and mark the event handled.
     */
    method HandleDrop(defaultPrevented: bool, id: string, x: int, y: int) returns (prevented: bool)
      requires Consistent()
      modifies this
      ensures Consistent() && gridSize == old(gridSize)
      ensures prevented
      ensures defaultPrevented ==> State() == old(State()) && Others() == old(Others())
      ensures !defaultPrevented ==>
        && panels == Some(old(panels).GetOr(map[])[id := DropFrame(x, y, gridSize)])
        && rawPositions == old(rawPositions)[id := DropFrame(x, y, gridSize)]
        && positions == old(positions)[id := Convert(DropFrame(x, y, gridSize), gridSize)]
        && order == (if id in old(positions) then old(order) else old(order) + [id])
        && commits == old(commits) + (if canCommit then [DroppedMessage] else [])
      ensures modelGrid == old(modelGrid) && dragging == old(dragging) && activeDragId == old(activeDragId)
      ensures callbackCount == old(callbackCount) && composition == old(composition)
    {
      if defaultPrevented {
        return true;
      }
      var frame := Raw(Pair(x / gridSize.x, y / gridSize.y), DefaultSize(gridSize));
      panels := Some(panels.GetOr(map[])[id := frame]);
      if canCommit {
        commits := commits + [DroppedMessage];
      }
      ShowFrame(id, frame);
      prevented := true;
    }

    /**
     * The grid watch: the model's `layoutGrid` has become `layoutGrid`;
     * adopt it (or the default) and lay the shown frames out again only
     * when a component actually changed.
     */
    method UpdateGridSize(layoutGrid: Option<Pair>)
      requires Consistent()
      requires layoutGrid.Some? ==> Positive(layoutGrid.value)
      modifies this
      ensures Consistent()
      ensures modelGrid == layoutGrid
      ensures gridSize == layoutGrid.GetOr(DefaultGridSize)
      ensures gridSize == old(gridSize) ==> State() == old(State())
      ensures gridSize != old(gridSize) ==>
        && rawPositions == LaidOut(old(panels).GetOr(map[]), old(order), gridSize)
        && order == old(order)
      ensures Others() == old(Others()).(modelGrid := layoutGrid)
    {
      var oldSize := gridSize;
      modelGrid := layoutGrid;
      var newSize := layoutGrid.GetOr(DefaultGridSize);
      gridSize := newSize;
      if newSize.x != oldSize.x || newSize.y != oldSize.y {
        ghost var keys := order;
        LayoutPanels(order);
        DistinctOfDistinct(keys);
      }
    }

    /** Begin dragging the frame of `id` (the drag arithmetic itself is not modelled). */
    method StartDrag(id: string)
      modifies this
      ensures dragging && activeDragId == id
      ensures State() == old(State()) && gridSize == old(gridSize)
      ensures modelGrid == old(modelGrid) && panels == old(panels) && commits == old(commits)
      ensures callbackCount == old(callbackCount) && composition == old(composition)
    {
      dragging, activeDragId := true, id;
    }

    /**
     * With a drag active, replace the dragged frame by `adjusted` (what
     * the drag computes for the pointer's offset) and show it; with none,
     * change nothing.
     */
    method ContinueDrag(adjusted: Raw)
      requires Consistent()
      modifies this
      ensures Consistent() && gridSize == old(gridSize) && Others() == old(Others())
      ensures !old(dragging) ==> State() == old(State())
      ensures old(dragging) ==>
        && rawPositions == old(rawPositions)[activeDragId := adjusted]
        && positions == old(positions)[activeDragId := Convert(adjusted, gridSize)]
        && order == if activeDragId in old(positions) then old(order) else old(order) + [activeDragId]
    {
      if dragging {
        ShowFrame(activeDragId, adjusted);
      }
    }

    /**
     * `endDragInScope`: save the dragged frame into the configuration
     * (creating it if needed) and commit.  A dragged id without a raw
     * frame stores `undefined`, which later reads treat as no entry.
     */
    method EndDrag()
      modifies this
      ensures activeDragId in old(rawPositions) ==>
        panels == Some(old(panels).GetOr(map[])[activeDragId := old(rawPositions)[activeDragId]])
      ensures activeDragId !in old(rawPositions) ==>
        panels == Some(old(panels).GetOr(map[]) - {activeDragId})
      ensures commits == old(commits) + (if canCommit then [MovedMessage] else [])
      ensures State() == old(State()) && gridSize == old(gridSize) && modelGrid == old(modelGrid)
      ensures dragging == old(dragging) && activeDragId == old(activeDragId)
      ensures callbackCount == old(callbackCount) && composition == old(composition)
    {
      var saved := panels.GetOr(map[]);
      if activeDragId in rawPositions {
        panels := Some(saved[activeDragId := rawPositions[activeDragId]]);
      } else {
        panels := Some(saved - {activeDragId});
      }
      if canCommit {
        commits := commits + [MovedMessage];
      }
    }

    /** `refreshComposition`: number this request; its answer is applied only if no later request was made. */
    method RequestComposition() returns (ticket: int)
      modifies this
      ensures callbackCount == old(callbackCount) + 1 && ticket == callbackCount
      ensures State() == old(State()) && gridSize == old(gridSize)
      ensures modelGrid == old(modelGrid) && panels == old(panels) && commits == old(commits)
      ensures dragging == old(dragging) && activeDragId == old(activeDragId) && composition == old(composition)
    {
      callbackCount := callbackCount + 1;
      ticket := callbackCount;
    }

    /** The composition `ids` arrives for request `ticket`: lay it out if that is the latest request, else drop it. */
    method ReceiveComposition(ticket: int, ids: seq<string>)
      requires Consistent()
      modifies this
      ensures Consistent()
      ensures ticket != old(callbackCount) ==>
        State() == old(State()) && gridSize == old(gridSize) && composition == old(composition)
      ensures ticket == old(callbackCount) ==>
        && composition == ids
        && Valid()
        && gridSize == old(modelGrid).GetOr(DefaultGridSize)
        && rawPositions == LaidOut(old(panels).GetOr(map[]), ids, gridSize)
        && order == Distinct(ids)
      ensures modelGrid == old(modelGrid) && panels == old(panels) && commits == old(commits)
      ensures dragging == old(dragging) && activeDragId == old(activeDragId) && callbackCount == old(callbackCount)
    {
      if ticket == callbackCount {
        composition := ids;
        LayoutPanels(ids);
      }
    }
  }
}
