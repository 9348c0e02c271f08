// The geometry of one workspace: crates/layout-engine.
//
// `Recompute` says what the layout is, with exact (unbounded) widths where the source saturates;
// `RecomputeWorkspace` computes it with the source's loops and 32-bit cursors.
module Layout {
  import opened Wrappers
  import opened MachineInt
  import opened Domain

  datatype LayoutError =
    | WorkspaceMissing(workspaceId: WorkspaceId)
    | MonitorMissing
    | ColumnMissing
    | WindowMissing(windowId: WindowId)

  datatype Geometry = Geometry(windowId: WindowId, rect: Rect, layer: WindowLayer)

  datatype Projection = Projection(
    workspaceId: WorkspaceId,
    viewport: Rect,
    scrollOffset: i32,
    contentWidth: u32,
    focusedWindowId: Option<WindowId>,
    geometries: seq<Geometry>)

  type Tiling = Result<seq<Geometry>, LayoutError>

  // ---- rectangles ----------------------------------------------------------------------------

  function InsetRect(rect: Rect, insets: EdgeInsets): (r: Rect)
    ensures 1 <= r.width && 1 <= r.height
  {
    var left := Min(insets.left, SatU32(rect.width - 1));
    var right := Min(insets.right, SatU32(rect.width - left - 1));
    var top := Min(insets.top, SatU32(rect.height - 1));
    var bottom := Min(insets.bottom, SatU32(rect.height - top - 1));
    Rect(SatI32(rect.x + ClipToI32(left)),
         SatI32(rect.y + ClipToI32(top)),
         Max(SatU32(rect.width - left - right), 1),
         Max(SatU32(rect.height - top - bottom), 1))
  }

  function TiledViewport(workArea: Rect, config: ConfigProjection): Rect {
    InsetRect(workArea, config.outerPadding)
  }

  function DefaultFloatingRect(workArea: Rect, desired: Size, config: ConfigProjection): Rect {
    var m := config.floatingMargin;
    var available := InsetRect(workArea, EdgeInsets(m, m, m, m));
    Rect(available.x, available.y,
         Min(Max(desired.width, 1), available.width),
         Min(Max(desired.height, 1), available.height))
  }

  // ---- the strip -----------------------------------------------------------------------------

  function ResolveWidth(column: Column, viewportWidth: u32): (w: u32)
    ensures 1 <= w
  {
    if column.isMaximized || column.mode == MaximizedColumn then Max(viewportWidth, 1)
    else column.widthSemantics.Resolve(viewportWidth)
  }

  /** The columns of a strip with the two numbers their horizontal layout depends on. */
  datatype Strip = Strip(columns: map<ColumnId, Column>, ids: seq<ColumnId>, viewportWidth: u32)
  {
    function Width(i: nat): (w: u32)
      requires i < |ids|
    {
      if ids[i] in columns then ResolveWidth(columns[ids[i]], viewportWidth) else 0
    }

    /** Exact distance from the left edge of the strip to the left edge of column i. */
    function Offset(i: nat, gap: nat): nat
      requires i <= |ids|
    {
      if i == 0 then 0 else Offset(i - 1, gap) + Width(i - 1) + gap
    }

    /** Exact width of the first n columns with the gaps between them. */
    function Span(n: nat, gap: nat): nat
      requires n <= |ids|
    {
      if n == 0 then 0 else Offset(n - 1, gap) + Width(n - 1)
    }

    ghost predicate Complete() {
      forall id :: id in ids ==> id in columns
    }
  }

  function StripOriginX(viewportX: i32, viewportWidth: u32, contentWidth: u32, ids: seq<ColumnId>,
                        focusedColumnId: Option<ColumnId>, scrollOffset: i32): i32
  {
    if contentWidth >= viewportWidth || ids == [] then
      SatI32(viewportX - scrollOffset)
    else
      var slack := ClipToI32(viewportWidth - contentWidth);
      if |ids| == 1 then SatI32(viewportX + slack / 2)
      else if focusedColumnId == Some(ids[|ids| - 1]) then SatI32(viewportX + slack)
      else SatI32(viewportX - scrollOffset)
  }

  // ---- one column ----------------------------------------------------------------------------

  function GapTotal(itemCount: nat, gap: u32): u32 {
    var count := if itemCount == 0 then 0 else itemCount - 1;
    if count > U32_MAX then U32_MAX else Min(count * gap, U32_MAX)
  }

  function DesiredHeight(window: WindowNode): u32 { Max(window.desiredSize.height, 1) }

  /** Exact sum of the desired heights of the first n windows that exist. */
  function DesiredSum(windows: map<WindowId, WindowNode>, ids: seq<WindowId>, n: nat): nat
    requires n <= |ids|
  {
    if n == 0 then 0
    else DesiredSum(windows, ids, n - 1) +
         if ids[n - 1] in windows then DesiredHeight(windows[ids[n - 1]]) else 0
  }

  /** What the windows stacked in one column share. */
  datatype Stacking = Stacking(x: i32, width: u32, tiledHeight: u32, desiredTotal: u32, gap: u32)

  function Share(frame: Stacking, window: WindowNode): u32
    requires 0 < frame.desiredTotal
  {
    WrapU32(frame.tiledHeight * DesiredHeight(window) / frame.desiredTotal)
  }

  function StackHeight(frame: Stacking, window: WindowNode, isLast: bool, remaining: u32): (h: u32)
    requires 0 < frame.desiredTotal
    ensures 1 <= h
  {
    if isLast then Max(remaining, 1) else Max(Share(frame, window), 1)
  }

  function NextY(y: i32, height: u32, isLast: bool, gap: u32): i32 {
    var below := WrapI32(y + WrapI32(height));
    if isLast then below else WrapI32(below + ClipToI32(gap))
  }

  /** The windows of a column from index i on, one below the other. */
  function Stack(windows: map<WindowId, WindowNode>, ids: seq<WindowId>, i: nat,
                 frame: Stacking, y: i32, remaining: u32): Tiling
    requires i <= |ids| && 0 < frame.desiredTotal
    decreases |ids| - i
  {
    if i == |ids| then Ok([])
    else if ids[i] !in windows then Err(WindowMissing(ids[i]))
    else
      var window := windows[ids[i]];
      var isLast := i == |ids| - 1;
      var height := StackHeight(frame, window, isLast, remaining);
      var rest :- Stack(windows, ids, i + 1, frame, NextY(y, height, isLast, frame.gap), SatU32(remaining - height));
      Ok([Geometry(ids[i], Rect(frame.x, y, frame.width, height), window.layer)] + rest)
  }

  function StackingFor(windows: map<WindowId, WindowNode>, ids: seq<WindowId>, x: i32, width: u32,
                       viewportHeight: u32, gap: u32): (frame: Stacking)
    ensures 0 < frame.desiredTotal
  {
    Stacking(x, width,
             Max(SatU32(viewportHeight - GapTotal(|ids|, gap)), 1),
             Max(WrapU32(DesiredSum(windows, ids, |ids|)), 1),
             gap)
  }

  function ColumnTiles(windows: map<WindowId, WindowNode>, column: Column, x: i32, width: u32,
                       viewport: Rect, gap: u32): Tiling
  {
    var ids := column.orderedWindowIds;
    if column.mode == Tabbed then
      match OrElse(column.tabSelection, First(ids))
      case None => Ok([])
      case Some(id) =>
        if id !in windows then Err(WindowMissing(id))
        else Ok([Geometry(id, Rect(x, viewport.y, width, viewport.height), windows[id].layer)])
    else
      var frame := StackingFor(windows, ids, x, width, viewport.height, gap);
      Stack(windows, ids, 0, frame, viewport.y, frame.tiledHeight)
  }

  // ---- the workspace -------------------------------------------------------------------------

  function NextX(x: i32, width: u32, gap: u32): i32 {
    WrapI32(WrapI32(x + WrapI32(width)) + ClipToI32(gap))
  }

  /** The columns of the strip from index i on, the first of them starting at x. */
  function StripTiles(strip: Strip, windows: map<WindowId, WindowNode>, i: nat, x: i32,
                      viewport: Rect, config: ConfigProjection): Tiling
    requires i <= |strip.ids|
    decreases |strip.ids| - i
  {
    if i == |strip.ids| then Ok([])
    else if strip.ids[i] !in strip.columns then Err(ColumnMissing)
    else
      var column := strip.columns[strip.ids[i]];
      var width := ResolveWidth(column, strip.viewportWidth);
      var own :- ColumnTiles(windows, column, x, width, viewport, config.windowGap);
      var rest :- StripTiles(strip, windows, i + 1, NextX(x, width, config.columnGap), viewport, config);
      Ok(own + rest)
  }

  function FloatingRect(window: WindowNode, workArea: Rect, config: ConfigProjection): Rect {
    if window.layer == Fullscreen || window.isFullscreen then workArea
    else if window.lastKnownRect.width > 0 && window.lastKnownRect.height > 0 then window.lastKnownRect
    else DefaultFloatingRect(workArea, window.desiredSize, config)
  }

  function FloatingTiles(windows: map<WindowId, WindowNode>, ids: seq<WindowId>, i: nat, workArea: Rect,
                         config: ConfigProjection): Tiling
    requires i <= |ids|
    decreases |ids| - i
  {
    if i == |ids| then Ok([])
    else if ids[i] !in windows then Err(WindowMissing(ids[i]))
    else
      var window := windows[ids[i]];
      var rest :- FloatingTiles(windows, ids, i + 1, workArea, config);
      Ok([Geometry(ids[i], FloatingRect(window, workArea, config), window.layer)] + rest)
  }

  function FocusedWindowIn(s: State, workspaceId: WorkspaceId): Option<WindowId> {
    match s.focus.windowId
    case None => None
    case Some(id) =>
      if id in s.windows && s.windows[id].workspaceId == workspaceId then Some(id) else None
  }

  function ViewportOf(s: State, workspaceId: WorkspaceId): Rect
    requires workspaceId in s.workspaces && s.workspaces[workspaceId].monitorId in s.monitors
  {
    TiledViewport(s.monitors[s.workspaces[workspaceId].monitorId].workArea, s.config)
  }

  function StripOf(s: State, workspaceId: WorkspaceId): Strip
    requires workspaceId in s.workspaces && s.workspaces[workspaceId].monitorId in s.monitors
  {
    Strip(s.columns, s.workspaces[workspaceId].strip.orderedColumnIds, ViewportOf(s, workspaceId).width)
  }

  function ContentWidth(s: State, workspaceId: WorkspaceId): nat
    requires workspaceId in s.workspaces && s.workspaces[workspaceId].monitorId in s.monitors
  {
    var strip := StripOf(s, workspaceId);
    strip.Span(|strip.ids|, s.config.columnGap)
  }

  function OriginX(s: State, workspaceId: WorkspaceId): i32
    requires workspaceId in s.workspaces && s.workspaces[workspaceId].monitorId in s.monitors
  {
    var viewport := ViewportOf(s, workspaceId);
    var strip := s.workspaces[workspaceId].strip;
    StripOriginX(viewport.x, viewport.width, SatU32(ContentWidth(s, workspaceId)),
                 strip.orderedColumnIds, s.focus.columnId, strip.scrollOffset)
  }

  /** What the layout of a workspace is. */
  function Recompute(s: State, workspaceId: WorkspaceId): Result<Projection, LayoutError> {
    if workspaceId !in s.workspaces then Err(WorkspaceMissing(workspaceId))
    else if s.workspaces[workspaceId].monitorId !in s.monitors then Err(MonitorMissing)
    else if exists id :: id in s.workspaces[workspaceId].strip.orderedColumnIds && id !in s.columns then Err(ColumnMissing)
    else
      var workspace := s.workspaces[workspaceId];
      var viewport := ViewportOf(s, workspaceId);
      var tiles :- StripTiles(StripOf(s, workspaceId), s.windows, 0, OriginX(s, workspaceId), viewport, s.config);
      var floating :- FloatingTiles(s.windows, workspace.floatingLayer.orderedWindowIds, 0,
                                    s.monitors[workspace.monitorId].workArea, s.config);
      Ok(Projection(workspaceId, viewport, workspace.strip.scrollOffset, SatU32(ContentWidth(s, workspaceId)),
                    FocusedWindowIn(s, workspaceId), tiles + floating))
  }

  // ---- the loops of the source ---------------------------------------------------------------

  /** `tiles` followed by the rest of a tiling, or the error the rest ends in. */
  ghost function Prepend(tiles: seq<Geometry>, rest: Tiling): Tiling {
    match rest
    case Ok(more) => Ok(tiles + more)
    case Err(e) => Err(e)
  }

  lemma PrependUnits(tiles: seq<Geometry>, rest: Tiling)
    ensures Prepend([], rest) == rest
    ensures Prepend(tiles, Ok([])) == Ok(tiles)
  {
    assert rest.Ok? ==> [] + rest.value == rest.value;
    assert tiles + [] == tiles;
  }

  method MeasureStrip(strip: Strip, gap: u32) returns (r: Result<u32, LayoutError>)
    ensures r.Ok? <==> strip.Complete()
    ensures r.Ok? ==> r.value == SatU32(strip.Span(|strip.ids|, gap))
    ensures r.Err? ==> r.error == ColumnMissing
  {
    var total: u32 := 0;
    for i := 0 to |strip.ids|
      invariant total == SatU32(strip.Span(i, gap))
      invariant forall k :: 0 <= k < i ==> strip.ids[k] in strip.columns
    {
      if strip.ids[i] !in strip.columns {
        return Err(ColumnMissing);
      }
      var column := strip.columns[strip.ids[i]];
      total := SatU32(SatU32(total + ResolveWidth(column, strip.viewportWidth)) + if i == 0 then 0 else gap);
    }
    return Ok(total);
  }

  method StackWindows(windows: map<WindowId, WindowNode>, ids: seq<WindowId>, frame: Stacking, top: i32)
    returns (r: Tiling)
    requires 0 < frame.desiredTotal
    ensures r == Stack(windows, ids, 0, frame, top, frame.tiledHeight)
  {
    var tiles: seq<Geometry> := [];
    var yCursor := top;
    var remaining: u32 := frame.tiledHeight;
    PrependUnits([], Stack(windows, ids, 0, frame, top, remaining));
    for i := 0 to |ids|
      invariant Stack(windows, ids, 0, frame, top, frame.tiledHeight)
             == Prepend(tiles, Stack(windows, ids, i, frame, yCursor, remaining))
    {
      if ids[i] !in windows {
        return Err(WindowMissing(ids[i]));
      }
      var window := windows[ids[i]];
      var isLast := i == |ids| - 1;
      var height := StackHeight(frame, window, isLast, remaining);
      ghost var rest := Stack(windows, ids, i + 1, frame, NextY(yCursor, height, isLast, frame.gap), SatU32(remaining - height));
      ghost var tile := Geometry(ids[i], Rect(frame.x, yCursor, frame.width, height), window.layer);
      assert rest.Ok? ==> tiles + ([tile] + rest.value) == (tiles + [tile]) + rest.value;
      tiles := tiles + [Geometry(ids[i], Rect(frame.x, yCursor, frame.width, height), window.layer)];
      yCursor := NextY(yCursor, height, isLast, frame.gap);
      remaining := SatU32(remaining - height);
    }
    PrependUnits(tiles, Ok([]));
    return Ok(tiles);
  }

  method TileColumn(windows: map<WindowId, WindowNode>, column: Column, x: i32, width: u32, viewport: Rect, gap: u32)
    returns (r: Tiling)
    ensures r == ColumnTiles(windows, column, x, width, viewport, gap)
  {
    if column.mode == Tabbed {
      return ColumnTiles(windows, column, x, width, viewport, gap);
    }
    var total := 0;
    for i := 0 to |column.orderedWindowIds|
      invariant total == DesiredSum(windows, column.orderedWindowIds, i)
    {
      if column.orderedWindowIds[i] in windows {
        total := total + DesiredHeight(windows[column.orderedWindowIds[i]]);
      }
    }
    var tiledHeight := Max(SatU32(viewport.height - GapTotal(|column.orderedWindowIds|, gap)), 1);
    r := StackWindows(windows, column.orderedWindowIds,
                      Stacking(x, width, tiledHeight, Max(WrapU32(total), 1), gap), viewport.y);
  }

  method TileFloating(windows: map<WindowId, WindowNode>, ids: seq<WindowId>, workArea: Rect, config: ConfigProjection)
    returns (r: Tiling)
    ensures r == FloatingTiles(windows, ids, 0, workArea, config)
  {
    var tiles: seq<Geometry> := [];
    PrependUnits([], FloatingTiles(windows, ids, 0, workArea, config));
    for i := 0 to |ids|
      invariant FloatingTiles(windows, ids, 0, workArea, config)
             == Prepend(tiles, FloatingTiles(windows, ids, i, workArea, config))
    {
      if ids[i] !in windows {
        return Err(WindowMissing(ids[i]));
      }
      var window := windows[ids[i]];
      var tile := Geometry(ids[i], FloatingRect(window, workArea, config), window.layer);
      ghost var rest := FloatingTiles(windows, ids, i + 1, workArea, config);
      assert rest.Ok? ==> tiles + ([tile] + rest.value) == (tiles + [tile]) + rest.value;
      tiles := tiles + [tile];
    }
    PrependUnits(tiles, Ok([]));
    return Ok(tiles);
  }

  method TileStrip(strip: Strip, windows: map<WindowId, WindowNode>, origin: i32, viewport: Rect, config: ConfigProjection)
    returns (r: Tiling)
    ensures r == StripTiles(strip, windows, 0, origin, viewport, config)
  {
    hide ColumnTiles, ResolveWidth, WrapI32;
    var tiles: seq<Geometry> := [];
    var xCursor := origin;
    PrependUnits([], StripTiles(strip, windows, 0, origin, viewport, config));
    for i := 0 to |strip.ids|
      invariant StripTiles(strip, windows, 0, origin, viewport, config)
             == Prepend(tiles, StripTiles(strip, windows, i, xCursor, viewport, config))
    {
      if strip.ids[i] !in strip.columns {
        return Err(ColumnMissing);
      }
      var column := strip.columns[strip.ids[i]];
      var width := ResolveWidth(column, strip.viewportWidth);
      var own := TileColumn(windows, column, xCursor, width, viewport, config.windowGap);
      if own.Err? {
        return own;
      }
      ghost var rest := StripTiles(strip, windows, i + 1, NextX(xCursor, width, config.columnGap), viewport, config);
      assert rest.Ok? ==> tiles + (own.value + rest.value) == (tiles + own.value) + rest.value;
      tiles := tiles + own.value;
      xCursor := NextX(xCursor, width, config.columnGap);
    }
    PrependUnits(tiles, Ok([]));
    return Ok(tiles);
  }

  method RecomputeWorkspace(s: State, workspaceId: WorkspaceId) returns (r: Result<Projection, LayoutError>)
    ensures r == Recompute(s, workspaceId)
  {
    if workspaceId !in s.workspaces {
      return Err(WorkspaceMissing(workspaceId));
    }
    var workspace := s.workspaces[workspaceId];
    if workspace.monitorId !in s.monitors {
      return Err(MonitorMissing);
    }
    var monitor := s.monitors[workspace.monitorId];
    var viewport := TiledViewport(monitor.workArea, s.config);
    var strip := Strip(s.columns, workspace.strip.orderedColumnIds, viewport.width);
    var contentWidth :- MeasureStrip(strip, s.config.columnGap);
    var origin := StripOriginX(viewport.x, viewport.width, contentWidth, strip.ids,
                               s.focus.columnId, workspace.strip.scrollOffset);
    var tiles :- TileStrip(strip, s.windows, origin, viewport, s.config);
    var floating :- TileFloating(s.windows, workspace.floatingLayer.orderedWindowIds, monitor.workArea, s.config);
    return Ok(Projection(workspaceId, viewport, workspace.strip.scrollOffset, contentWidth,
                         FocusedWindowIn(s, workspaceId), tiles + floating));
  }
}
