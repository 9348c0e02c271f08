// Monitors, workspace sets and their normalisation: crates/domain/src/model.rs.
module Model {
  import opened Wrappers
  import opened MachineInt
  import opened Domain

  type Workspaces = map<WorkspaceId, Workspace>
  type Columns = map<ColumnId, Column>

  function SetIdForMonitor(s: State, monitorId: MonitorId): Option<WorkspaceSetId> {
    if monitorId in s.monitors then Some(s.monitors[monitorId].workspaceSetId) else None
  }

  function ActiveWorkspace(s: State, monitorId: MonitorId): Option<WorkspaceId> {
    if monitorId in s.focus.activeByMonitor then Some(s.focus.activeByMonitor[monitorId])
    else
      match SetIdForMonitor(s, monitorId)
      case None => None
      case Some(setId) =>
        if setId in s.workspaceSets then Some(s.workspaceSets[setId].activeWorkspaceId) else None
  }

  predicate HasNoWindows(columns: Columns, workspace: Workspace) {
    && workspace.floatingLayer.orderedWindowIds == []
    && forall id :: id in workspace.strip.orderedColumnIds && id in columns ==> columns[id].orderedWindowIds == []
  }

  predicate IsEmpty(columns: Columns, workspaces: Workspaces, id: WorkspaceId) {
    id in workspaces ==> HasNoWindows(columns, workspaces[id])
  }

  // ---- normalisation, step by step -----------------------------------------------------------

  predicate IsCollapsible(columns: Columns, workspaces: Workspaces, id: WorkspaceId, active: WorkspaceId, tail: WorkspaceId) {
    && IsEmpty(columns, workspaces, id)
    && id != active
    && id != tail
    && id in workspaces
    && workspaces[id].name.None?
  }

  /** Drop the collapsible workspaces from index i on; the rest of the order and of the map stay. */
  function Collapse(columns: Columns, workspaces: Workspaces, ids: seq<WorkspaceId>, i: nat,
                    active: WorkspaceId, tail: WorkspaceId): (r: (seq<WorkspaceId>, Workspaces))
    requires i <= |ids|
    ensures i < |ids| && ids[|ids| - 1] == tail ==> r.0 != []
    decreases |ids| - i
  {
    if i == |ids| then ([], workspaces)
    else if IsCollapsible(columns, workspaces, ids[i], active, tail) then
      Collapse(columns, workspaces - {ids[i]}, ids, i + 1, active, tail)
    else
      var (rest, remaining) := Collapse(columns, workspaces, ids, i + 1, active, tail);
      ([ids[i]] + rest, remaining)
  }

  predicate HasDoubleEmptyTail(columns: Columns, workspaces: Workspaces, ids: seq<WorkspaceId>) {
    && |ids| > 1
    && IsEmpty(columns, workspaces, ids[|ids| - 1])
    && IsEmpty(columns, workspaces, ids[|ids| - 2])
  }

  /** Pop empty workspaces while the one before the tail is empty too. */
  function TrimTail(columns: Columns, workspaces: Workspaces, ids: seq<WorkspaceId>): (r: (seq<WorkspaceId>, Workspaces))
    ensures ids != [] ==> r.0 != []
    decreases |ids|
  {
    if HasDoubleEmptyTail(columns, workspaces, ids) then
      TrimTail(columns, workspaces - {ids[|ids| - 1]}, ids[..|ids| - 1])
    else (ids, workspaces)
  }

  function LastNonEmpty(columns: Columns, workspaces: Workspaces, ids: seq<WorkspaceId>): Option<WorkspaceId>
    decreases |ids|
  {
    if ids == [] then None
    else if !IsEmpty(columns, workspaces, ids[|ids| - 1]) then Some(ids[|ids| - 1])
    else LastNonEmpty(columns, workspaces, ids[..|ids| - 1])
  }

  function StampOne(columns: Columns, workspace: Workspace, id: WorkspaceId, index: nat, isLast: bool,
                    monitorId: MonitorId, region: Rect): Workspace
  {
    workspace.(monitorId := monitorId,
               verticalIndex := index,
               strip := workspace.strip.(visibleRegion := region),
               floatingLayer := workspace.floatingLayer.(workspaceId := id),
               isEmptyTail := isLast && HasNoWindows(columns, workspace))
  }

  /** Refresh the derived fields of the workspaces in `ids` from index i on. */
  function Stamp(columns: Columns, workspaces: Workspaces, ids: seq<WorkspaceId>, i: nat,
                 monitorId: MonitorId, region: Rect): Workspaces
    requires i <= |ids|
    decreases |ids| - i
  {
    if i == |ids| then workspaces
    else if ids[i] !in workspaces then Stamp(columns, workspaces, ids, i + 1, monitorId, region)
    else
      var isLast := ids[i] == ids[|ids| - 1];
      var stamped := StampOne(columns, workspaces[ids[i]], ids[i], i, isLast, monitorId, region);
      Stamp(columns, workspaces[ids[i] := stamped], ids, i + 1, monitorId, region)
  }

  /** The next fresh empty workspace at the end of `ids`. */
  function Grow(runtime: Runtime, workspaces: Workspaces, ids: seq<WorkspaceId>, monitorId: MonitorId, region: Rect): Order
  {
    var id := runtime.nextWorkspaceId;
    Order(runtime.(nextWorkspaceId := id + 1),
          ids + [id],
          workspaces[id := EmptyWorkspace(id, monitorId, |ids|, region)])
  }

  const NO_REGION := Rect(0, 0, 0, 0)

  function RegionOf(s: State, monitorId: MonitorId): Rect {
    if monitorId in s.monitors then s.monitors[monitorId].workArea else NO_REGION
  }

  /** The order of a workspace set while it is being normalised, with the maps that change beside it. */
  datatype Order = Order(runtime: Runtime, ids: seq<WorkspaceId>, workspaces: Workspaces)

  function Seeded(s: State, set0: WorkspaceSet): (r: Order)
    ensures r.ids != []
  {
    if set0.orderedWorkspaceIds == [] then Grow(s.runtime, s.workspaces, [], set0.monitorId, RegionOf(s, set0.monitorId))
    else Order(s.runtime, set0.orderedWorkspaceIds, s.workspaces)
  }

  /** Collapse, trim, grow: the new order of a set whose old order is not empty. */
  function Reordered(columns: Columns, order: Order, active: WorkspaceId, monitorId: MonitorId, region: Rect): (r: Order)
    requires order.ids != []
    ensures r.ids != []
  {
    var (kept, afterCollapse) := Collapse(columns, order.workspaces, order.ids, 0, active, order.ids[|order.ids| - 1]);
    var (trimmed, afterTrim) := TrimTail(columns, afterCollapse, kept);
    if IsEmpty(columns, afterTrim, trimmed[|trimmed| - 1]) then Order(order.runtime, trimmed, afterTrim)
    else Grow(order.runtime, afterTrim, trimmed, monitorId, region)
  }

  /** Write a new order back: derived workspace fields, the set's record and the focus record. */
  function WriteBack(s: State, setId: WorkspaceSetId, order: Order): State
    requires setId in s.workspaceSets && order.ids != []
  {
    var set0 := s.workspaceSets[setId];
    var active := if set0.activeWorkspaceId in order.ids then set0.activeWorkspaceId else order.ids[0];
    s.(runtime := order.runtime,
       workspaces := Stamp(s.columns, order.workspaces, order.ids, 0, set0.monitorId, RegionOf(s, set0.monitorId)),
       workspaceSets := s.workspaceSets[setId :=
         set0.(orderedWorkspaceIds := order.ids,
               activeWorkspaceId := active,
               lastNonEmptyWorkspaceId := LastNonEmpty(s.columns, order.workspaces, order.ids))],
       focus := s.focus.(activeByMonitor := s.focus.activeByMonitor[set0.monitorId := active]))
  }

  function Normalize(s: State, setId: WorkspaceSetId): State {
    if setId !in s.workspaceSets then s
    else
      var set0 := s.workspaceSets[setId];
      WriteBack(s, setId, Reordered(s.columns, Seeded(s, set0), set0.activeWorkspaceId,
                                    set0.monitorId, RegionOf(s, set0.monitorId)))
  }

  /** The last workspace of a monitor. */
  function TailOf(s: State, monitorId: MonitorId): Option<WorkspaceId> {
    match SetIdForMonitor(s, monitorId)
    case None => None
    case Some(t) =>
      if t in s.workspaceSets && s.workspaceSets[t].orderedWorkspaceIds != [] then
        Some(s.workspaceSets[t].orderedWorkspaceIds[|s.workspaceSets[t].orderedWorkspaceIds| - 1])
      else None
  }

  function EnsureTail(s: State, monitorId: MonitorId): State {
    match SetIdForMonitor(s, monitorId)
    case None => s
    case Some(setId) => Normalize(s, setId)
  }

  /** A new monitor with one empty workspace, before normalisation. */
  function WithMonitor(s: State, workArea: Rect, isPrimary: bool): State {
    var monitorId := s.runtime.nextMonitorId;
    var setId := s.runtime.nextWorkspaceSetId;
    var workspaceId := s.runtime.nextWorkspaceId;
    s.(runtime := s.runtime.(nextMonitorId := monitorId + 1,
                             nextWorkspaceSetId := setId + 1,
                             nextWorkspaceId := workspaceId + 1),
       monitors := s.monitors[monitorId := Monitor(monitorId, Some(MonitorBinding(monitorId)), workArea, setId, isPrimary)],
       workspaces := s.workspaces[workspaceId := EmptyWorkspace(workspaceId, monitorId, 0, workArea)],
       workspaceSets := s.workspaceSets[setId := WorkspaceSet(setId, monitorId, [workspaceId], workspaceId, None)],
       focus := s.focus.(activeByMonitor := s.focus.activeByMonitor[monitorId := workspaceId],
                         monitorId := OrElse(s.focus.monitorId, Some(monitorId))))
  }

  function AddMonitor(s: State, workArea: Rect, isPrimary: bool): State {
    Normalize(WithMonitor(s, workArea, isPrimary), s.runtime.nextWorkspaceSetId)
  }

  function Decimal(n: nat): string {
    (if n < 10 then "" else Decimal(n / 10)) + ["0123456789"[n % 10]]
  }

  function MonitorBinding(monitorId: MonitorId): string { "monitor-" + Decimal(monitorId) }

  // ---- the mutable state of the source -------------------------------------------------------

  class WmState {
    var runtime: Runtime
    var monitors: map<MonitorId, Monitor>
    var workspaceSets: map<WorkspaceSetId, WorkspaceSet>
    var workspaces: Workspaces
    var windows: map<WindowId, WindowNode>
    var focus: FocusState
    var columns: Columns
    var config: ConfigProjection

    function Value(): State
      reads this
    {
      State(runtime, monitors, workspaceSets, workspaces, windows, focus, columns, config)
    }

    constructor ()
      ensures Value() == EMPTY_STATE
    {
      runtime := EMPTY_STATE.runtime;
      monitors, workspaceSets, workspaces, windows := map[], map[], map[], map[];
      focus := EMPTY_STATE.focus;
      columns := map[];
      config := DEFAULT_CONFIG;
    }

    method AllocateWorkspaceId() returns (id: WorkspaceId)
      modifies this`runtime
      ensures id == old(runtime).nextWorkspaceId
      ensures runtime == old(runtime).(nextWorkspaceId := id + 1)
    {
      id := runtime.nextWorkspaceId;
      runtime := runtime.(nextWorkspaceId := id + 1);
    }

    method AllocateColumnId() returns (id: ColumnId)
      modifies this`runtime
      ensures id == old(runtime).nextColumnId
      ensures runtime == old(runtime).(nextColumnId := id + 1)
    {
      id := runtime.nextColumnId;
      runtime := runtime.(nextColumnId := id + 1);
    }

    method AllocateWindowId() returns (id: WindowId)
      modifies this`runtime
      ensures id == old(runtime).nextWindowId
      ensures runtime == old(runtime).(nextWindowId := id + 1)
    {
      id := runtime.nextWindowId;
      runtime := runtime.(nextWindowId := id + 1);
    }

    method CollapseEmpty(ids: seq<WorkspaceId>, active: WorkspaceId) returns (kept: seq<WorkspaceId>)
      requires ids != []
      modifies this`workspaces
      ensures (kept, workspaces) == Collapse(columns, old(workspaces), ids, 0, active, ids[|ids| - 1])
    {
      kept := [];
      var tail := ids[|ids| - 1];
      ghost var all := Collapse(columns, workspaces, ids, 0, active, tail);
      assert [] + all.0 == all.0;
      for i := 0 to |ids|
        modifies this`workspaces
        invariant Collapse(columns, old(workspaces), ids, 0, active, tail)
               == (kept + Collapse(columns, workspaces, ids, i, active, tail).0,
                   Collapse(columns, workspaces, ids, i, active, tail).1)
      {
        if IsCollapsible(columns, workspaces, ids[i], active, tail) {
          workspaces := workspaces - {ids[i]};
        } else {
          ghost var rest := Collapse(columns, workspaces, ids, i + 1, active, tail).0;
          assert kept + ([ids[i]] + rest) == (kept + [ids[i]]) + rest;
          kept := kept + [ids[i]];
        }
      }
      assert kept + [] == kept;
    }

    method TrimEmptyTail(ids: seq<WorkspaceId>) returns (trimmed: seq<WorkspaceId>)
      modifies this`workspaces
      ensures (trimmed, workspaces) == TrimTail(columns, old(workspaces), ids)
    {
      trimmed := ids;
      while HasDoubleEmptyTail(columns, workspaces, trimmed)
        modifies this`workspaces
        invariant TrimTail(columns, old(workspaces), ids) == TrimTail(columns, workspaces, trimmed)
        decreases |trimmed|
      {
        workspaces := workspaces - {trimmed[|trimmed| - 1]};
        trimmed := trimmed[..|trimmed| - 1];
      }
    }

    method StampWorkspaces(ids: seq<WorkspaceId>, monitorId: MonitorId, region: Rect)
      modifies this`workspaces
      ensures workspaces == Stamp(columns, old(workspaces), ids, 0, monitorId, region)
    {
      for i := 0 to |ids|
        modifies this`workspaces
        invariant Stamp(columns, old(workspaces), ids, 0, monitorId, region)
               == Stamp(columns, workspaces, ids, i, monitorId, region)
      {
        if ids[i] in workspaces {
          var isLast := ids[i] == ids[|ids| - 1];
          var stamped := StampOne(columns, workspaces[ids[i]], ids[i], i, isLast, monitorId, region);
          workspaces := workspaces[ids[i] := stamped];
        }
      }
    }

    method GrowTail(ids: seq<WorkspaceId>, monitorId: MonitorId, region: Rect) returns (grown: seq<WorkspaceId>)
      modifies this`runtime, this`workspaces
      ensures Order(runtime, grown, workspaces) == Grow(old(runtime), old(workspaces), ids, monitorId, region)
    {
      var id := AllocateWorkspaceId();
      workspaces := workspaces[id := EmptyWorkspace(id, monitorId, |ids|, region)];
      grown := ids + [id];
    }

    method ReorderSet(ids0: seq<WorkspaceId>, active: WorkspaceId, monitorId: MonitorId, region: Rect)
      returns (ids: seq<WorkspaceId>)
      requires ids0 != []
      modifies this`runtime, this`workspaces
      ensures ids != []
      ensures Order(runtime, ids, workspaces)
           == Reordered(columns, Order(old(runtime), ids0, old(workspaces)), active, monitorId, region)
    {
      ids := CollapseEmpty(ids0, active);
      ids := TrimEmptyTail(ids);
      if !IsEmpty(columns, workspaces, ids[|ids| - 1]) {
        ids := GrowTail(ids, monitorId, region);
      }
    }

    method NormalizeWorkspaceSet(setId: WorkspaceSetId)
      modifies this
      ensures Value() == Normalize(old(Value()), setId)
    {
      if setId !in workspaceSets {
        return;
      }
      var set0 := workspaceSets[setId];
      var region := RegionOf(Value(), set0.monitorId);
      var ids := set0.orderedWorkspaceIds;
      if ids == [] {
        ids := GrowTail(ids, set0.monitorId, region);
      }
      assert Order(runtime, ids, workspaces) == Seeded(old(Value()), set0);
      ids := ReorderSet(ids, set0.activeWorkspaceId, set0.monitorId, region);
      var lastNonEmpty := LastNonEmpty(columns, workspaces, ids);
      StampWorkspaces(ids, set0.monitorId, region);
      var active := if set0.activeWorkspaceId in ids then set0.activeWorkspaceId else ids[0];
      workspaceSets := workspaceSets[setId := set0.(orderedWorkspaceIds := ids,
                                                    activeWorkspaceId := active,
                                                    lastNonEmptyWorkspaceId := lastNonEmpty)];
      focus := focus.(activeByMonitor := focus.activeByMonitor[set0.monitorId := active]);
    }

    method EnsureTailWorkspace(monitorId: MonitorId) returns (tail: Option<WorkspaceId>)
      modifies this
      ensures Value() == EnsureTail(old(Value()), monitorId)
      ensures tail == TailOf(Value(), monitorId)
    {
      if monitorId !in monitors {
        return None;
      }
      var setId := monitors[monitorId].workspaceSetId;
      NormalizeWorkspaceSet(setId);
      if setId !in workspaceSets || workspaceSets[setId].orderedWorkspaceIds == [] {
        return None;
      }
      var ids := workspaceSets[setId].orderedWorkspaceIds;
      tail := Some(ids[|ids| - 1]);
    }

    method AddMonitorRecord(workArea: Rect, isPrimary: bool) returns (monitorId: MonitorId)
      modifies this
      ensures monitorId == old(runtime).nextMonitorId
      ensures Value() == AddMonitor(old(Value()), workArea, isPrimary)
    {
      monitorId := runtime.nextMonitorId;
      var setId := runtime.nextWorkspaceSetId;
      runtime := runtime.(nextMonitorId := monitorId + 1, nextWorkspaceSetId := setId + 1);
      var workspaceId := AllocateWorkspaceId();
      monitors := monitors[monitorId := Monitor(monitorId, Some(MonitorBinding(monitorId)), workArea, setId, isPrimary)];
      workspaces := workspaces[workspaceId := EmptyWorkspace(workspaceId, monitorId, 0, workArea)];
      workspaceSets := workspaceSets[setId := WorkspaceSet(setId, monitorId, [workspaceId], workspaceId, None)];
      focus := focus.(activeByMonitor := focus.activeByMonitor[monitorId := workspaceId]);
      if focus.monitorId.None? {
        focus := focus.(monitorId := Some(monitorId));
      }
      assert Value() == WithMonitor(old(Value()), workArea, isPrimary);
      NormalizeWorkspaceSet(setId);
    }
  }
}
