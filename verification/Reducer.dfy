// What the reducer computes: crates/wm-core/src/state_store.rs as functions from state to state.
module Reducer {
  import opened Wrappers
  import opened MachineInt
  import opened Domain
  import opened Layout
  import opened Model
  import opened Events
  import opened Text

  // ---- lookups ---------------------------------------------------------------------------------

  function FocusedColumnIn(s: State, w: WorkspaceId): Option<ColumnId> {
    if s.focus.columnId.Some? && w in s.workspaces && s.focus.columnId.value in s.workspaces[w].strip.orderedColumnIds
    then s.focus.columnId else None
  }

  predicate IsFullscreenWindow(window: WindowNode) {
    window.layer == Fullscreen || window.isFullscreen
  }

  predicate FullscreenFocusIn(s: State, w: WorkspaceId) {
    && FocusedWindowIn(s, w).Some?
    && FocusedWindowIn(s, w).value in s.windows
    && IsFullscreenWindow(s.windows[FocusedWindowIn(s, w).value])
  }

  /** Where a focused fullscreen window of this workspace would be restored. */
  function RestoreTargetIn(s: State, w: WorkspaceId): Option<RestoreTarget> {
    if !FullscreenFocusIn(s, w) then None
    else
      match s.windows[FocusedWindowIn(s, w).value].restoreTarget
      case None => None
      case Some(target) => if target.workspaceId == w then Some(target) else None
  }

  function DiscoveryAnchor(s: State, w: WorkspaceId): Option<ColumnId> {
    if FocusedColumnIn(s, w).Some? then FocusedColumnIn(s, w)
    else
      match RestoreTargetIn(s, w)
      case None => None
      case Some(target) =>
        if target.columnId.Some? && w in s.workspaces && target.columnId.value in s.workspaces[w].strip.orderedColumnIds
        then target.columnId else None
  }

  function FullscreenRestoreIndex(s: State, w: WorkspaceId): Option<nat> {
    match RestoreTargetIn(s, w)
    case None => None
    case Some(target) => target.columnIndex
  }

  function IndexOf<T(==)>(x: T, s: seq<T>): (r: Option<nat>)
    ensures r.None? <==> x !in s
    ensures r.Some? ==> r.value < |s| && s[r.value] == x && x !in s[..r.value]
  {
    if s == [] then None
    else if s[0] == x then Some(0)
    else
      match IndexOf(x, s[1..])
      case None => None
      case Some(i) => assert s[..i + 1] == [s[0]] + s[1..][..i]; Some(i + 1)
  }

  // ---- placing a new window --------------------------------------------------------------------

  function InsertAt<T>(s: seq<T>, i: nat, x: T): seq<T>
    requires i <= |s|
  {
    s[..i] + [x] + s[i..]
  }

  function InsertIndex(ids: seq<ColumnId>, request: NewColumnRequest): (i: nat)
    ensures i <= |ids|
  {
    var default := if request.beforeAnchor then 0 else |ids|;
    if request.insertIndexOverride.Some? then Min(request.insertIndexOverride.value, |ids|)
    else if request.anchorColumnId.None? then default
    else
      match IndexOf(request.anchorColumnId.value, ids)
      case None => default
      case Some(i) => if request.beforeAnchor then i else i + 1
  }

  /** The offset that keeps the picture in place when a column of this width comes in before the focus. */
  function CompensatedOffset(offset: i32, request: NewColumnRequest, viewportWidth: u32, gap: u32): i32 {
    if request.preserveFocusPosition && request.beforeAnchor && request.anchorColumnId.Some? then
      SatI32(SatI32(offset + ClipToI32(request.width.Resolve(viewportWidth))) + ClipToI32(gap))
    else offset
  }

  function WithWorkspace(s: State, w: WorkspaceId, workspace: Workspace): State {
    s.(workspaces := s.workspaces[w := workspace])
  }

  function InsertNewColumn(s: State, w: WorkspaceId, x: WindowId, request: NewColumnRequest): Step<ColumnId> {
    var c := s.runtime.nextColumnId;
    var s1 := s.(runtime := s.runtime.(nextColumnId := c + 1),
                 columns := s.columns[c := NewColumn(c, request.mode, request.width, [x])]);
    if w !in s1.workspaces then Fail(s1, UnknownWorkspace(w))
    else if s1.workspaces[w].monitorId !in s1.monitors then Fail(s1, UnknownMonitor(s1.workspaces[w].monitorId))
    else
      var workspace := s1.workspaces[w];
      var ids := workspace.strip.orderedColumnIds;
      Done(WithWorkspace(s1, w, workspace.(strip := workspace.strip.(
             orderedColumnIds := InsertAt(ids, InsertIndex(ids, request), c),
             scrollOffset := CompensatedOffset(workspace.strip.scrollOffset, request,
                                               ViewportOf(s1, w).width, s1.config.columnGap)))),
           c)
  }

  function PushToFloatingLayer(s: State, w: WorkspaceId, x: WindowId): Step<()> {
    if w !in s.workspaces then Fail(s, UnknownWorkspace(w))
    else
      var workspace := s.workspaces[w];
      var ids := workspace.floatingLayer.orderedWindowIds;
      var ids' := if x in ids then ids else ids + [x];
      Done(WithWorkspace(s, w, workspace.(floatingLayer := workspace.floatingLayer.(
             orderedWindowIds := ids',
             zHints := workspace.floatingLayer.zHints[x := |ids'|]))),
           ())
  }

  function Appended(column: Column, x: WindowId): Column {
    column.(orderedWindowIds := column.orderedWindowIds + [x],
            activeWindowId := OrElse(column.activeWindowId, Some(x)),
            tabSelection := if column.mode == Tabbed then Some(x) else column.tabSelection)
  }

  /** The request a tiled placement makes, unless it appends to an existing column. */
  function RequestFor(s: State, w: WorkspaceId, placement: WindowPlacement, preserve: bool): NewColumnRequest {
    var anchor := DiscoveryAnchor(s, w);
    var override := if anchor.None? then FullscreenRestoreIndex(s, w) else None;
    match placement
    case AppendToFocusedColumn => NewColumnRequest(None, None, false, Normal, DEFAULT_WIDTH, false)
    case NewColumnAfterFocus(mode, width) => NewColumnRequest(anchor, override, false, mode, width, false)
    case NewColumnBeforeFocus(mode, width) => NewColumnRequest(anchor, override, true, mode, width, preserve)
    case AppendToWorkspaceEnd(mode, width) => NewColumnRequest(None, None, false, mode, width, false)
  }

  predicate AppendsToColumn(s: State, w: WorkspaceId, d: Discovery) {
    d.managed && d.layer == Tiled && d.placement == AppendToFocusedColumn && FocusedColumnIn(s, w).Some?
  }

  function PlaceTiled(s: State, w: WorkspaceId, d: Discovery, x: WindowId, preserve: bool): Step<ColumnId> {
    if d.placement == AppendToFocusedColumn && FocusedColumnIn(s, w).Some? then
      var c := FocusedColumnIn(s, w).value;
      if c !in s.columns then Fail(s, UnknownColumn(c))
      else Done(s.(columns := s.columns[c := Appended(s.columns[c], x)]), c)
    else InsertNewColumn(s, w, x, RequestFor(s, w, d.placement, preserve))
  }

  function Place(s: State, w: WorkspaceId, d: Discovery, x: WindowId, preserve: bool): Step<Option<ColumnId>> {
    if !d.managed then Done(s, None)
    else if d.layer != Tiled then
      var (s1, _) :- PushToFloatingLayer(s, w, x);
      Done(s1, None)
    else
      var (s1, c) :- PlaceTiled(s, w, d, x, preserve);
      Done(s1, Some(c))
  }

  // ---- focus -----------------------------------------------------------------------------------

  /** Make w the active workspace of monitor m, in both places that record it. */
  function Activate(s: State, m: MonitorId, w: WorkspaceId): State {
    var s1 := s.(focus := s.focus.(activeByMonitor := s.focus.activeByMonitor[m := w]));
    match SetIdForMonitor(s1, m)
    case None => s1
    case Some(t) =>
      if t in s1.workspaceSets
      then s1.(workspaceSets := s1.workspaceSets[t := s1.workspaceSets[t].(activeWorkspaceId := w)])
      else s1
  }

  function Shown(column: Column, x: WindowId): Column {
    column.(activeWindowId := Some(x),
            tabSelection := if column.mode == Tabbed then Some(x) else column.tabSelection)
  }

  function SetFocus(s: State, m: MonitorId, w: WorkspaceId, x: WindowId, column: Option<ColumnId>, origin: FocusOrigin): State {
    var s1 := Activate(s.(focus := s.focus.(monitorId := Some(m), windowId := Some(x), columnId := column, origin := origin)), m, w);
    var s2 := if column.Some? && column.value in s1.columns
              then s1.(columns := s1.columns[column.value := Shown(s1.columns[column.value], x)]) else s1;
    if w in s2.workspaces
    then WithWorkspace(s2, w, s2.workspaces[w].(rememberedWindowId := Some(x), rememberedColumnId := column))
    else s2
  }

  // ---- scrolling -------------------------------------------------------------------------------

  function WorkspaceViewport(s: State, w: WorkspaceId): (r: Result<Rect, CoreError>)
    ensures r.Ok? <==> w in s.workspaces && s.workspaces[w].monitorId in s.monitors
  {
    if w !in s.workspaces then Err(UnknownWorkspace(w))
    else if s.workspaces[w].monitorId !in s.monitors then Err(UnknownMonitor(s.workspaces[w].monitorId))
    else Ok(ViewportOf(s, w))
  }

  function FirstMissing(columns: Columns, ids: seq<ColumnId>): (r: Option<ColumnId>)
    ensures r.None? <==> forall c :: c in ids ==> c in columns
  {
    if ids == [] then None
    else if ids[0] !in columns then Some(ids[0])
    else FirstMissing(columns, ids[1..])
  }

  /** workspace_content_width: the exact width, cut off at i32::MAX. */
  function WorkspaceContentWidth(s: State, w: WorkspaceId): (r: Result<i32, CoreError>)
    ensures r.Ok? ==> 0 <= r.value
  {
    var _ :- WorkspaceViewport(s, w);
    match FirstMissing(s.columns, s.workspaces[w].strip.orderedColumnIds)
    case Some(c) => Err(UnknownColumn(c))
    case None => Ok(Min(ContentWidth(s, w), I32_MAX))
  }

  function MaxScrollOffset(s: State, w: WorkspaceId): (r: Result<i32, CoreError>)
    ensures r.Ok? ==> 0 <= r.value && w in s.workspaces
  {
    var viewport :- WorkspaceViewport(s, w);
    var content :- WorkspaceContentWidth(s, w);
    Ok(Max(content - ClipToI32(viewport.width), 0))
  }

  function WithOffset(s: State, w: WorkspaceId, offset: i32): State
    requires w in s.workspaces
  {
    WithWorkspace(s, w, s.workspaces[w].(strip := s.workspaces[w].strip.(scrollOffset := offset)))
  }

  function ApplyScrollDelta(s: State, w: WorkspaceId, delta: i32): Step<()> {
    match MaxScrollOffset(s, w)
    case Err(e) => Fail(s, e)
    case Ok(max) => Done(WithOffset(s, w, Clamp(SatI32(s.workspaces[w].strip.scrollOffset + delta), 0, max)), ())
  }

  function ClampScrollOffset(s: State, w: WorkspaceId): Step<()> {
    match MaxScrollOffset(s, w)
    case Err(e) => Fail(s, e)
    case Ok(max) => Done(WithOffset(s, w, Clamp(s.workspaces[w].strip.scrollOffset, 0, max)), ())
  }

  datatype Bounds = Bounds(left: i32, right: i32)

  predicate BelongsTo(windows: map<WindowId, WindowNode>, geometry: Geometry, c: ColumnId) {
    geometry.windowId in windows && windows[geometry.windowId].columnId == Some(c)
  }

  /** The horizontal extent of a column's geometries from index i on, joined to what was found so far. */
  function TargetBounds(windows: map<WindowId, WindowNode>, geometries: seq<Geometry>, i: nat, c: ColumnId, found: Option<Bounds>): Option<Bounds>
    requires i <= |geometries|
    decreases |geometries| - i
  {
    if i == |geometries| then found
    else if !BelongsTo(windows, geometries[i], c) then TargetBounds(windows, geometries, i + 1, c, found)
    else
      var left := geometries[i].rect.x;
      var right := SatI32(left + ClipToI32(geometries[i].rect.width));
      var joined := match found
                    case None => Bounds(left, right)
                    case Some(b) => Bounds(Min(b.left, left), Max(b.right, right));
      TargetBounds(windows, geometries, i + 1, c, Some(joined))
  }

  /** Where the reveal wants the strip, before the last clamp. */
  function DesiredOffset(offset: i32, bounds: Bounds, viewport: Rect, isSingle: bool, max: i32): i32
    requires 0 <= max
  {
    var viewportWidth := ClipToI32(viewport.width);
    var viewportRight := SatI32(viewport.x + viewportWidth);
    var columnWidth := SatI32(bounds.right - bounds.left);
    if columnWidth < viewportWidth && isSingle then
      Clamp(SatI32(SatI32(bounds.left + TruncHalf(columnWidth)) - viewportWidth / 2), 0, max)
    else if bounds.left < viewport.x then SatI32(offset + SatI32(bounds.left - viewport.x))
    else if bounds.right > viewportRight then SatI32(offset + SatI32(bounds.right - viewportRight))
    else offset
  }

  /** Division by two as Rust rounds it: towards zero. */
  function TruncHalf(n: i32): i32 { if n >= 0 then n / 2 else (n + 1) / 2 }

  function Reveal(s: State, w: WorkspaceId, c: ColumnId): Step<()> {
    match Recompute(s, w)
    case Err(e) => Fail(s, LayoutFailed(e))
    case Ok(projection) =>
      match TargetBounds(s.windows, projection.geometries, 0, c, None)
      case None => Done(s, ())
      case Some(bounds) =>
        match MaxScrollOffset(s, w)
        case Err(e) => Fail(s, e)
        case Ok(max) =>
          var strip := s.workspaces[w].strip;
          var desired := Clamp(DesiredOffset(strip.scrollOffset, bounds, projection.viewport,
                                             |strip.orderedColumnIds| == 1, max), 0, max);
          ApplyScrollDelta(s, w, SatI32(desired - strip.scrollOffset))
  }

  function RevealIfTiled(s: State, w: WorkspaceId, column: Option<ColumnId>): Step<()> {
    match column
    case None => Done(s, ())
    case Some(c) => Reveal(s, w, c)
  }

  // ---- discovery -------------------------------------------------------------------------------

  function NewWindow(d: Discovery, x: WindowId, w: WorkspaceId, column: Option<ColumnId>): WindowNode {
    WindowNode(x, d.layer, w, column, d.managed, d.layer == Floating, d.layer == Fullscreen, None,
               d.lastKnownRect, d.desiredSize)
  }

  predicate PreservesFocus(s: State, w: WorkspaceId, d: Discovery) {
    d.focusBehavior == PreserveCurrentFocus && FocusedWindowIn(s, w).Some? && !FullscreenFocusIn(s, w)
  }

  /** The new window placed and recorded, before focus and normalisation. */
  function Discover(s: State, w: WorkspaceId, d: Discovery): Step<Option<ColumnId>> {
    var x := s.runtime.nextWindowId;
    var s1 := s.(runtime := s.runtime.(nextWindowId := x + 1));
    var (s2, column) :- Place(s1, w, d, x, PreservesFocus(s, w, d));
    Done(Activate(s2.(windows := s2.windows[x := NewWindow(d, x, w, column)]), d.monitorId, w), column)
  }

  function HandleWindowDiscovered(s: State, d: Discovery): Step<Option<WorkspaceId>> {
    if d.monitorId !in s.monitors then Fail(s, UnknownMonitor(d.monitorId))
    else
      match ActiveWorkspace(s, d.monitorId)
      case None => Fail(s, NoActiveWorkspace(d.monitorId))
      case Some(w) =>
        var x := s.runtime.nextWindowId;
        var (s1, column) :- Discover(s, w, d);
        if !d.managed then Done(EnsureTail(s1, d.monitorId), None)
        else if PreservesFocus(s, w, d) then Done(EnsureTail(s1, d.monitorId), Some(w))
        else
          var s2 := SetFocus(s1, d.monitorId, w, x, column, ReducerDefault);
          var (s3, _) :- ClampScrollOffset(EnsureTail(s2, d.monitorId), w);
          var (s4, _) :- RevealIfTiled(s3, w, column);
          Done(s4, Some(w))
  }

  // ---- destruction -----------------------------------------------------------------------------

  function Remove<T(==, !new)>(s: seq<T>, x: T): (r: seq<T>)
    ensures forall y :: y in r <==> y in s && y != x
    ensures x !in s ==> r == s
  {
    if s == [] then []
    else if s[0] == x then Remove(s[1..], x)
    else [s[0]] + Remove(s[1..], x)
  }

  function Detached(column: Column, x: WindowId): Column {
    var ids := Remove(column.orderedWindowIds, x);
    var tab := if column.tabSelection == Some(x) then First(ids) else column.tabSelection;
    column.(orderedWindowIds := ids,
            tabSelection := tab,
            activeWindowId := if column.activeWindowId == Some(x) then OrElse(tab, First(ids)) else column.activeWindowId)
  }

  function WithoutColumn(workspace: Workspace, c: ColumnId): Workspace {
    workspace.(strip := workspace.strip.(orderedColumnIds := Remove(workspace.strip.orderedColumnIds, c)))
  }

  function WithoutFloating(workspace: Workspace, x: WindowId): Workspace {
    workspace.(floatingLayer := workspace.floatingLayer.(
      orderedWindowIds := Remove(workspace.floatingLayer.orderedWindowIds, x),
      zHints := workspace.floatingLayer.zHints - {x}))
  }

  function DetachWindow(s: State, x: WindowId): Step<()> {
    if x !in s.windows then Fail(s, UnknownWindow(x))
    else
      var w := s.windows[x].workspaceId;
      match s.windows[x].columnId
      case Some(c) =>
        if c !in s.columns then Done(s, ())
        else
          var column := Detached(s.columns[c], x);
          if column.orderedWindowIds != [] then Done(s.(columns := s.columns[c := column]), ())
          else
            var s1 := s.(columns := s.columns - {c});
            if w !in s1.workspaces then Fail(s1, UnknownWorkspace(w))
            else Done(WithWorkspace(s1, w, WithoutColumn(s1.workspaces[w], c)), ())
      case None =>
        if w !in s.workspaces then Fail(s, UnknownWorkspace(w))
        else Done(WithWorkspace(s, w, WithoutFloating(s.workspaces[w], x)), ())
  }

  function Forgotten(workspace: Workspace, x: WindowId, column: Option<ColumnId>): Workspace {
    workspace.(
      rememberedWindowId := if workspace.rememberedWindowId == Some(x) then None else workspace.rememberedWindowId,
      rememberedColumnId :=
        if workspace.rememberedColumnId == column
           && !(column.Some? && column.value in workspace.strip.orderedColumnIds)
        then None else workspace.rememberedColumnId)
  }

  type FocusTarget = Option<(WindowId, Option<ColumnId>)>

  function ColumnTarget(s: State, c: ColumnId): FocusTarget {
    if c !in s.columns then None
    else
      match Representative(s.columns[c])
      case None => None
      case Some(x) => Some((x, Some(c)))
  }

  function FirstColumnTarget(s: State, ids: seq<ColumnId>, skip: Option<ColumnId>): FocusTarget {
    if ids == [] then None
    else if Some(ids[0]) != skip && ColumnTarget(s, ids[0]).Some? then ColumnTarget(s, ids[0])
    else FirstColumnTarget(s, ids[1..], skip)
  }

  function FloatingTarget(workspace: Workspace): FocusTarget {
    match First(workspace.floatingLayer.orderedWindowIds)
    case None => None
    case Some(x) => Some((x, None))
  }

  function NextFocus(s: State, workspace: Workspace, preferred: Option<ColumnId>): FocusTarget {
    OrElse(if preferred.Some? then ColumnTarget(s, preferred.value) else None,
           OrElse(FirstColumnTarget(s, workspace.strip.orderedColumnIds, preferred),
                  FloatingTarget(workspace)))
  }

  function RetargetFocus(s: State, w: WorkspaceId, preferred: Option<ColumnId>): Step<()> {
    if w !in s.workspaces then Fail(s, UnknownWorkspace(w))
    else
      var m := s.workspaces[w].monitorId;
      match NextFocus(s, s.workspaces[w], preferred)
      case Some((x, column)) => RevealIfTiled(SetFocus(s, m, w, x, column, ReducerDefault), w, column)
      case None =>
        Done(s.(focus := s.focus.(monitorId := Some(m), origin := ReducerDefault, windowId := None, columnId := None)), ())
  }

  /** The window and every trace of it in its workspace gone; focus is still to be moved. */
  function RemoveWindow(s: State, x: WindowId): Step<()> {
    var (s1, _) :- DetachWindow(s, x);
    var w := s.windows[x].workspaceId;
    var s2 := s1.(windows := s1.windows - {x});
    Done(if w in s2.workspaces then WithWorkspace(s2, w, Forgotten(s2.workspaces[w], x, s.windows[x].columnId)) else s2, ())
  }

  function HandleWindowDestroyed(s: State, x: WindowId): Step<Option<WorkspaceId>> {
    if x !in s.windows then Fail(s, UnknownWindow(x))
    else
      var w := s.windows[x].workspaceId;
      if w !in s.workspaces then Fail(s, UnknownWorkspace(w))
      else
        var m := s.workspaces[w].monitorId;
        var (s1, _) :- RemoveWindow(s, x);
        var (s2, _) :- if s1.focus.windowId == Some(x) then RetargetFocus(s1, w, s.windows[x].columnId) else Done(s1, ());
        var (s3, _) :- ClampScrollOffset(EnsureTail(s2, m), w);
        Done(s3, Some(w))
  }

  // ---- focus events ----------------------------------------------------------------------------

  function HandleFocusObserved(s: State, m: MonitorId, x: WindowId, origin: FocusOrigin): Step<Option<WorkspaceId>> {
    if m !in s.monitors then Fail(s, UnknownMonitor(m))
    else if x !in s.windows then Fail(s, UnknownWindow(x))
    else
      var w := s.windows[x].workspaceId;
      if w !in s.workspaces then Fail(s, UnknownWorkspace(w))
      else if s.workspaces[w].monitorId != m then
        Fail(s, InvalidEvent("focused window monitor does not match workspace monitor"))
      else
        var column := s.windows[x].columnId;
        var (s1, _) :- RevealIfTiled(SetFocus(s, m, w, x, column, origin), w, column);
        Done(s1, Some(w))
  }

  // Which workspace a command without a target acts on.

  predicate ManagesBinding(config: ConfigProjection, binding: Option<string>) {
    config.managedMonitorBindings == [] ||
    (binding.Some? && Trim(binding.value) != "" &&
     exists b :: b in config.managedMonitorBindings && EqIgnoreAsciiCase(b, Trim(binding.value)))
  }

  predicate IsManagedMonitor(s: State, m: MonitorId) {
    m in s.monitors && ManagesBinding(s.config, s.monitors[m].platformBinding)
  }

  function ManagedMonitors(s: State): (r: set<MonitorId>)
    ensures forall m :: m in r ==> m in s.monitors
  {
    set m | m in s.monitors && IsManagedMonitor(s, m)
  }

  /** Monitors are visited by x, then y, then id. */
  predicate NavigatesBefore(s: State, a: MonitorId, b: MonitorId)
    requires a in s.monitors && b in s.monitors
  {
    var ra, rb := s.monitors[a].workArea, s.monitors[b].workArea;
    ra.x < rb.x || (ra.x == rb.x && (ra.y < rb.y || (ra.y == rb.y && a < b)))
  }

  /** The first of the given monitors in navigation order. */
  ghost function FirstInOrder(s: State, ms: set<MonitorId>): (r: Option<MonitorId>)
    requires forall m :: m in ms ==> m in s.monitors
    ensures r.None? <==> ms == {}
    ensures r.Some? ==> r.value in ms && forall m :: m in ms && m != r.value ==> NavigatesBefore(s, r.value, m)
  {
    if ms == {} then None
    else
      var m :| m in ms;
      match FirstInOrder(s, ms - {m})
      case None => assert ms == {m}; Some(m)
      case Some(first) =>
        assert forall m' :: m' in ms && m' != m ==> m' in ms - {m};
        if NavigatesBefore(s, m, first) then Some(m) else Some(first)
  }

  function ActiveOf(s: State, m: Option<MonitorId>): Option<WorkspaceId> {
    if m.None? then None else ActiveWorkspace(s, m.value)
  }

  /** With managed monitors configured: the focused one if it is managed, else the first. */
  ghost function ManagedTarget(s: State): Option<WorkspaceId> {
    if s.config.managedMonitorBindings == [] then None
    else
      var focused := if s.focus.monitorId.Some? && IsManagedMonitor(s, s.focus.monitorId.value) then s.focus.monitorId else None;
      OrElse(ActiveOf(s, focused), ActiveOf(s, FirstInOrder(s, ManagedMonitors(s))))
  }

  ghost function AnyTarget(s: State): Result<WorkspaceId, CoreError> {
    if s.workspaceSets == map[] then Err(InvalidEvent("no active workspace is available for command handling"))
    else Ok(s.workspaceSets[LeastKey(s.workspaceSets.Keys)].activeWorkspaceId)
  }

  ghost function CommandWorkspace(s: State): Result<WorkspaceId, CoreError> {
    if s.focus.windowId.Some? && s.focus.windowId.value in s.windows && s.windows[s.focus.windowId.value].isManaged then
      Ok(s.windows[s.focus.windowId.value].workspaceId)
    else
      var target := OrElse(ManagedTarget(s), ActiveOf(s, s.focus.monitorId));
      if target.Some? then Ok(target.value) else AnyTarget(s)
  }

  ghost function LeastKey(ids: set<nat>): (least: nat)
    requires ids != {}
    ensures least in ids && forall id :: id in ids ==> least <= id
  {
    var id :| id in ids;
    if ids == {id} then id
    else
      var rest := LeastKey(ids - {id});
      assert forall other :: other in ids && other != id ==> other in ids - {id};
      if id < rest then id else rest
  }

  // ---- navigation ------------------------------------------------------------------------------

  function StripTargets(s: State, ids: seq<ColumnId>): Result<seq<(WindowId, Option<ColumnId>)>, CoreError> {
    if ids == [] then Ok([])
    else if ids[0] !in s.columns then Err(UnknownColumn(ids[0]))
    else
      var rest :- StripTargets(s, ids[1..]);
      Ok(match Representative(s.columns[ids[0]])
         case None => rest
         case Some(x) => [(x, Some(ids[0]))] + rest)
  }

  function FloatingTargets(ids: seq<WindowId>): seq<(WindowId, Option<ColumnId>)> {
    seq(|ids|, i requires 0 <= i < |ids| => (ids[i], None))
  }

  function NavigationSequence(s: State, w: WorkspaceId): Result<seq<(WindowId, Option<ColumnId>)>, CoreError> {
    if w !in s.workspaces then Err(UnknownWorkspace(w))
    else
      var targets :- StripTargets(s, s.workspaces[w].strip.orderedColumnIds);
      Ok(if targets == [] then FloatingTargets(s.workspaces[w].floatingLayer.orderedWindowIds) else targets)
  }

  function WindowIds(targets: seq<(WindowId, Option<ColumnId>)>): seq<WindowId> {
    seq(|targets|, i requires 0 <= i < |targets| => targets[i].0)
  }

  function NextIndex(targets: seq<(WindowId, Option<ColumnId>)>, focused: Option<WindowId>, forward: bool): (i: nat)
    requires targets != []
    ensures i < |targets|
  {
    match focused
    case None => if forward then 0 else |targets| - 1
    case Some(x) =>
      var current := match IndexOf(x, WindowIds(targets)) case None => 0 case Some(i) => i;
      if forward then Min(current + 1, |targets| - 1) else if current == 0 then 0 else current - 1
  }

  function FocusTo(s: State, w: WorkspaceId, x: WindowId, column: Option<ColumnId>): Step<()> {
    if w !in s.workspaces then Fail(s, UnknownWorkspace(w))
    else RevealIfTiled(SetFocus(s, s.workspaces[w].monitorId, w, x, column, UserCommand), w, column)
  }

  function StepTab(n: nat, i: nat, forward: bool): (j: nat)
    requires i < n
    ensures j < n
  {
    if forward then (i + 1) % n else if i == 0 then n - 1 else i - 1
  }

  predicate CyclesTabs(s: State, c: ColumnId) {
    c in s.columns && s.columns[c].mode == Tabbed && |s.columns[c].orderedWindowIds| >= 2
  }

  function CurrentTab(s: State, w: WorkspaceId, column: Column): (i: nat)
    ensures column.orderedWindowIds != [] ==> i < |column.orderedWindowIds|
  {
    match OrElse(column.tabSelection, OrElse(column.activeWindowId, OrElse(FocusedWindowIn(s, w), First(column.orderedWindowIds))))
    case None => 0
    case Some(x) => match IndexOf(x, column.orderedWindowIds) case None => 0 case Some(i) => i
  }

  /** Select the neighbouring tab and focus it. */
  function CycleTab(s: State, w: WorkspaceId, c: ColumnId, forward: bool): Step<()>
    requires CyclesTabs(s, c)
  {
    var column := s.columns[c];
    var ids := column.orderedWindowIds;
    var x := ids[StepTab(|ids|, CurrentTab(s, w, column), forward)];
    if w !in s.workspaces then Fail(s, UnknownWorkspace(w))
    else FocusTo(s.(columns := s.columns[c := column.(tabSelection := Some(x))]), w, x, Some(c))
  }

  function NavigateStrip(s: State, w: WorkspaceId, forward: bool): Step<()> {
    match NavigationSequence(s, w)
    case Err(e) => Fail(s, e)
    case Ok(targets) =>
      if targets == [] then Done(s, ())
      else
        var (x, column) := targets[NextIndex(targets, FocusedWindowIn(s, w), forward)];
        FocusTo(s, w, x, column)
  }

  function Navigate(s: State, w: WorkspaceId, forward: bool, scope: NavigationScope): Step<()> {
    if scope == ColumnTabs && FocusedColumnIn(s, w).Some? && FocusedColumnIn(s, w).value !in s.columns then
      Fail(s, UnknownColumn(FocusedColumnIn(s, w).value))
    else if scope == ColumnTabs && FocusedColumnIn(s, w).Some? && CyclesTabs(s, FocusedColumnIn(s, w).value) then
      CycleTab(s, w, FocusedColumnIn(s, w).value, forward)
    else NavigateStrip(s, w, forward)
  }

  function NavigateFrom(s: State, target: Result<WorkspaceId, CoreError>, forward: bool, scope: NavigationScope)
    : Step<Option<WorkspaceId>>
  {
    match target
    case Err(e) => Fail(s, e)
    case Ok(w) =>
      var (s1, _) :- Navigate(s, w, forward, scope);
      Done(s1, Some(w))
  }

  function ScrollDelta(s: State, right: bool, step: u32): i32 {
    var pixels := ClipToI32(if step == 0 then s.config.stripScrollStep else step);
    if right then pixels else -pixels
  }

  function ScrollStripOf(s: State, target: Result<WorkspaceId, CoreError>, right: bool, step: u32): Step<Option<WorkspaceId>> {
    match target
    case Err(e) => Fail(s, e)
    case Ok(w) =>
      var (s1, _) :- ApplyScrollDelta(s, w, ScrollDelta(s, right, step));
      Done(s1, Some(w))
  }

  // ---- dispatch --------------------------------------------------------------------------------

  ghost function ApplyEvent(s: State, event: Event): Step<Option<WorkspaceId>> {
    match event
    case WindowDiscovered(d) => HandleWindowDiscovered(s, d)
    case WindowDestroyed(x) => HandleWindowDestroyed(s, x)
    case WindowFocusObserved(m, x, origin) => HandleFocusObserved(s, m, x, origin)
    case CmdFocusNext(scope) => NavigateFrom(s, CommandWorkspace(s), true, scope)
    case CmdFocusPrev(scope) => NavigateFrom(s, CommandWorkspace(s), false, scope)
    case CmdScrollStripLeft(step) => ScrollStripOf(s, CommandWorkspace(s), false, step)
    case CmdScrollStripRight(step) => ScrollStripOf(s, CommandWorkspace(s), true, step)
    case ConfigReloadSucceeded(projection) => Done(s.(config := projection), None)
    case RulesUpdated(count) => Done(s.(config := s.config.(activeRuleCount := count)), None)
    case _ => Done(s, None)
  }

  /** Count the transition and lay out the workspace it affected. */
  function Commit(s: State, affected: Option<WorkspaceId>): Step<Transition> {
    var s1 := s.(runtime := s.runtime.(stateVersion := s.runtime.stateVersion + 1));
    match affected
    case None => Done(s1, Transition(s1.runtime.stateVersion, None, None))
    case Some(w) =>
      match Recompute(s1, w)
      case Err(e) => Fail(s1, LayoutFailed(e))
      case Ok(projection) => Done(s1, Transition(s1.runtime.stateVersion, Some(w), Some(projection)))
  }

  ghost function Dispatch(s: State, event: Event): Step<Transition> {
    var (s1, affected) :- ApplyEvent(s, event);
    Commit(s1, affected)
  }

  /** What reaches the window manager: events, and monitors as they are found. */
  datatype Input = Dispatched(event: Event) | MonitorAdded(workArea: Rect, isPrimary: bool)

  ghost function After(s: State, input: Input): State {
    match input
    case Dispatched(event) => Dispatch(s, event).state
    case MonitorAdded(workArea, isPrimary) => AddMonitor(s, workArea, isPrimary)
  }

  ghost function Run(s: State, inputs: seq<Input>): State
    decreases |inputs|
  {
    if inputs == [] then s else Run(After(s, inputs[0]), inputs[1..])
  }
}
