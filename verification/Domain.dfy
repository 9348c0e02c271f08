// The records of the window manager: crates/domain.
module Domain {
  import opened Wrappers
  import opened MachineInt

  // Identifiers are 64-bit counters in the source.
  type MonitorId = nat
  type WorkspaceSetId = nat
  type WorkspaceId = nat
  type ColumnId = nat
  type WindowId = nat

  datatype Size = Size(width: u32, height: u32)

  datatype Rect = Rect(x: i32, y: i32, width: u32, height: u32)

  datatype ColumnMode = Normal | Tabbed | MaximizedColumn | CustomWidth

  datatype WidthSemantics =
    | Fixed(width: u32)
    | MonitorFraction(numerator: u32, denominator: u32)
    | Full
  {
    function Resolve(monitorWidth: u32): (w: u32)
      ensures 1 <= w
    {
      match this
      case Fixed(width) => Max(width, 1)
      case MonitorFraction(numerator, denominator) =>
        if denominator == 0 then Max(monitorWidth, 1)
        else Max(WrapU32(monitorWidth * numerator / denominator), 1)
      case Full => Max(monitorWidth, 1)
    }
  }

  const DEFAULT_WIDTH := MonitorFraction(1, 2)

  datatype WindowLayer = Tiled | Floating | Fullscreen

  datatype FocusOrigin = ReducerDefault | UserCommand | PlatformObservation

  datatype Monitor = Monitor(
    id: MonitorId,
    platformBinding: Option<string>,
    workArea: Rect,
    workspaceSetId: WorkspaceSetId,
    isPrimary: bool)

  datatype WorkspaceSet = WorkspaceSet(
    id: WorkspaceSetId,
    monitorId: MonitorId,
    orderedWorkspaceIds: seq<WorkspaceId>,
    activeWorkspaceId: WorkspaceId,
    lastNonEmptyWorkspaceId: Option<WorkspaceId>)

  datatype ScrollingStrip = ScrollingStrip(
    orderedColumnIds: seq<ColumnId>,
    scrollOffset: i32,
    visibleRegion: Rect)

  datatype FloatingLayer = FloatingLayer(
    workspaceId: WorkspaceId,
    orderedWindowIds: seq<WindowId>,
    zHints: map<WindowId, nat>)

  datatype Workspace = Workspace(
    id: WorkspaceId,
    monitorId: MonitorId,
    verticalIndex: nat,
    rememberedWindowId: Option<WindowId>,
    rememberedColumnId: Option<ColumnId>,
    strip: ScrollingStrip,
    floatingLayer: FloatingLayer,
    name: Option<string>,
    isEmptyTail: bool)

  function EmptyWorkspace(id: WorkspaceId, monitorId: MonitorId, index: nat, visible: Rect): Workspace {
    Workspace(id, monitorId, index, None, None,
              ScrollingStrip([], 0, visible),
              FloatingLayer(id, [], map[]),
              None, true)
  }

  datatype Column = Column(
    id: ColumnId,
    mode: ColumnMode,
    orderedWindowIds: seq<WindowId>,
    activeWindowId: Option<WindowId>,
    widthSemantics: WidthSemantics,
    isMaximized: bool,
    tabSelection: Option<WindowId>)

  function First<T>(s: seq<T>): Option<T> { if s == [] then None else Some(s[0]) }

  function NewColumn(id: ColumnId, mode: ColumnMode, width: WidthSemantics, windowIds: seq<WindowId>): Column {
    Column(id, mode, windowIds, First(windowIds), width, false, First(windowIds))
  }

  /** The window a column shows and navigation lands on. */
  function Representative(column: Column): Option<WindowId> {
    if column.mode == Tabbed then
      OrElse(column.tabSelection, OrElse(column.activeWindowId, First(column.orderedWindowIds)))
    else
      OrElse(column.activeWindowId, First(column.orderedWindowIds))
  }

  datatype RestoreTarget = RestoreTarget(
    workspaceId: WorkspaceId,
    columnId: Option<ColumnId>,
    columnIndex: Option<nat>,
    layer: WindowLayer)

  datatype WindowNode = WindowNode(
    id: WindowId,
    layer: WindowLayer,
    workspaceId: WorkspaceId,
    columnId: Option<ColumnId>,
    isManaged: bool,
    isFloating: bool,
    isFullscreen: bool,
    restoreTarget: Option<RestoreTarget>,
    lastKnownRect: Rect,
    desiredSize: Size)

  datatype FocusState = FocusState(
    monitorId: Option<MonitorId>,
    activeByMonitor: map<MonitorId, WorkspaceId>,
    windowId: Option<WindowId>,
    columnId: Option<ColumnId>,
    origin: FocusOrigin)

  datatype EdgeInsets = EdgeInsets(left: u32, top: u32, right: u32, bottom: u32)

  datatype ConfigProjection = ConfigProjection(
    configVersion: nat,
    stripScrollStep: u32,
    defaultColumnMode: ColumnMode,
    defaultColumnWidth: WidthSemantics,
    outerPadding: EdgeInsets,
    columnGap: u32,
    windowGap: u32,
    floatingMargin: u32,
    managedMonitorBindings: seq<string>,
    activeRuleCount: nat)

  const DEFAULT_CONFIG := ConfigProjection(
    0, 240, Normal, DEFAULT_WIDTH, EdgeInsets(16, 16, 16, 16), 12, 12, 16, [], 0)

  datatype Runtime = Runtime(
    stateVersion: nat,
    nextMonitorId: nat,
    nextWorkspaceSetId: nat,
    nextWorkspaceId: nat,
    nextColumnId: nat,
    nextWindowId: nat)

  /** One value of the whole window-manager state. */
  datatype State = State(
    runtime: Runtime,
    monitors: map<MonitorId, Monitor>,
    workspaceSets: map<WorkspaceSetId, WorkspaceSet>,
    workspaces: map<WorkspaceId, Workspace>,
    windows: map<WindowId, WindowNode>,
    focus: FocusState,
    columns: map<ColumnId, Column>,
    config: ConfigProjection)

  const EMPTY_STATE := State(
    Runtime(0, 1, 1, 1, 1, 1), map[], map[], map[], map[],
    FocusState(None, map[], None, None, ReducerDefault), map[], DEFAULT_CONFIG)
}
