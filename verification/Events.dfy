// Events and errors of the reducer: crates/domain/src/events.rs, crates/wm-core/src/lib.rs.
module Events {
  import opened Wrappers
  import opened MachineInt
  import opened Domain
  import opened Layout

  datatype FocusBehavior = FollowNewWindow | PreserveCurrentFocus

  datatype WindowPlacement =
    | AppendToFocusedColumn
    | NewColumnAfterFocus(mode: ColumnMode, width: WidthSemantics)
    | NewColumnBeforeFocus(mode: ColumnMode, width: WidthSemantics)
    | AppendToWorkspaceEnd(mode: ColumnMode, width: WidthSemantics)

  datatype NavigationScope = WorkspaceStrip | ColumnTabs

  datatype Discovery = Discovery(
    monitorId: MonitorId,
    desiredSize: Size,
    lastKnownRect: Rect,
    placement: WindowPlacement,
    focusBehavior: FocusBehavior,
    layer: WindowLayer,
    managed: bool)

  datatype Event =
    | WindowDiscovered(discovery: Discovery)
    | WindowDestroyed(windowId: WindowId)
    | WindowFocusObserved(monitorId: MonitorId, windowId: WindowId, origin: FocusOrigin)
    | CmdFocusNext(scope: NavigationScope)
    | CmdFocusPrev(scope: NavigationScope)
    | CmdScrollStripLeft(step: u32)
    | CmdScrollStripRight(step: u32)
    | ConfigReloadSucceeded(projection: ConfigProjection)
    | RulesUpdated(activeRuleCount: nat)
    | ConfigReloadRequested
    | ConfigReloadFailed
    | ReconcileRequested
    | FullScanRequested

  datatype CoreError =
    | UnknownMonitor(monitorId: MonitorId)
    | UnknownWorkspace(workspaceId: WorkspaceId)
    | UnknownColumn(columnId: ColumnId)
    | UnknownWindow(windowId: WindowId)
    | NoActiveWorkspace(monitorId: MonitorId)
    | InvalidEvent(message: string)
    | LayoutFailed(error: LayoutError)

  datatype Transition = Transition(
    stateVersion: nat,
    affectedWorkspaceId: Option<WorkspaceId>,
    projection: Option<Projection>)

  datatype NewColumnRequest = NewColumnRequest(
    anchorColumnId: Option<ColumnId>,
    insertIndexOverride: Option<nat>,
    beforeAnchor: bool,
    mode: ColumnMode,
    width: WidthSemantics,
    preserveFocusPosition: bool)

  /** The state a handler leaves, also when it returns an error, with what it returns. */
  datatype Step<+T> = Step(state: State, result: Result<T, CoreError>) {
    predicate IsFailure() { result.Err? }

    function PropagateFailure<U>(): Step<U>
      requires result.Err?
    {
      Step(state, Err(result.error))
    }

    function Extract(): (State, T)
      requires result.Ok?
    {
      (state, result.value)
    }
  }

  function Done<T>(s: State, value: T): Step<T> { Step(s, Ok(value)) }

  function Fail<T>(s: State, error: CoreError): Step<T> { Step(s, Err(error)) }
}
