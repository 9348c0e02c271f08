// The mutable reducer of the source: StateStore updates its WmState in place, event by event.
// Every method is proved against the function of the same name in Reducer.
module Store {
  import opened Wrappers
  import opened MachineInt
  import opened Domain
  import opened Layout
  import opened Model
  import opened Events
  import R = Reducer

  class StateStore {
    const state: WmState

    constructor ()
      ensures fresh(state) && state.Value() == EMPTY_STATE
    {
      state := new WmState();
    }

    // ---- placing a window ----------------------------------------------------------------------

    method InsertNewColumn(w: WorkspaceId, x: WindowId, request: NewColumnRequest) returns (r: Result<ColumnId, CoreError>)
      modifies state
      ensures Step(state.Value(), r) == R.InsertNewColumn(old(state.Value()), w, x, request)
    {
      var c := state.AllocateColumnId();
      state.columns := state.columns[c := NewColumn(c, request.mode, request.width, [x])];
      var viewport :- R.WorkspaceViewport(state.Value(), w);
      var workspace := state.workspaces[w];
      var ids := workspace.strip.orderedColumnIds;
      workspace := workspace.(strip := workspace.strip.(orderedColumnIds := R.InsertAt(ids, R.InsertIndex(ids, request), c)));
      if request.preserveFocusPosition && request.beforeAnchor && request.anchorColumnId.Some? {
        var width := ClipToI32(request.width.Resolve(viewport.width));
        var offset := SatI32(SatI32(workspace.strip.scrollOffset + width) + ClipToI32(state.config.columnGap));
        workspace := workspace.(strip := workspace.strip.(scrollOffset := offset));
      }
      state.workspaces := state.workspaces[w := workspace];
      return Ok(c);
    }

    method PushWindowToFloatingLayer(w: WorkspaceId, x: WindowId) returns (r: Result<(), CoreError>)
      modifies state
      ensures Step(state.Value(), r) == R.PushToFloatingLayer(old(state.Value()), w, x)
    {
      if w !in state.workspaces {
        return Err(UnknownWorkspace(w));
      }
      var layer := state.workspaces[w].floatingLayer;
      if x !in layer.orderedWindowIds {
        layer := layer.(orderedWindowIds := layer.orderedWindowIds + [x]);
      }
      layer := layer.(zHints := layer.zHints[x := |layer.orderedWindowIds|]);
      state.workspaces := state.workspaces[w := state.workspaces[w].(floatingLayer := layer)];
      return Ok(());
    }

    method PlaceTiled(w: WorkspaceId, d: Discovery, x: WindowId, preserve: bool) returns (r: Result<ColumnId, CoreError>)
      modifies state
      ensures Step(state.Value(), r) == R.PlaceTiled(old(state.Value()), w, d, x, preserve)
    {
      var focused := R.FocusedColumnIn(state.Value(), w);
      if d.placement == AppendToFocusedColumn && focused.Some? {
        if focused.value !in state.columns {
          return Err(UnknownColumn(focused.value));
        }
        var column := state.columns[focused.value];
        column := column.(orderedWindowIds := column.orderedWindowIds + [x]);
        if column.activeWindowId.None? {
          column := column.(activeWindowId := Some(x));
        }
        if column.mode == Tabbed {
          column := column.(tabSelection := Some(x));
        }
        state.columns := state.columns[focused.value := column];
        return Ok(focused.value);
      }
      r := InsertNewColumn(w, x, R.RequestFor(state.Value(), w, d.placement, preserve));
    }

    method Place(w: WorkspaceId, d: Discovery, x: WindowId, preserve: bool) returns (r: Result<Option<ColumnId>, CoreError>)
      modifies state
      ensures Step(state.Value(), r) == R.Place(old(state.Value()), w, d, x, preserve)
    {
      if !d.managed {
        return Ok(None);
      }
      if d.layer != Tiled {
        var _ :- PushWindowToFloatingLayer(w, x);
        return Ok(None);
      }
      var c :- PlaceTiled(w, d, x, preserve);
      return Ok(Some(c));
    }

    // ---- focus ---------------------------------------------------------------------------------

    method Activate(m: MonitorId, w: WorkspaceId)
      modifies state
      ensures state.Value() == R.Activate(old(state.Value()), m, w)
    {
      state.focus := state.focus.(activeByMonitor := state.focus.activeByMonitor[m := w]);
      if m in state.monitors {
        var t := state.monitors[m].workspaceSetId;
        if t in state.workspaceSets {
          state.workspaceSets := state.workspaceSets[t := state.workspaceSets[t].(activeWorkspaceId := w)];
        }
      }
    }

    method SetFocusToWindow(m: MonitorId, w: WorkspaceId, x: WindowId, column: Option<ColumnId>, origin: FocusOrigin)
      modifies state
      ensures state.Value() == R.SetFocus(old(state.Value()), m, w, x, column, origin)
    {
      state.focus := state.focus.(monitorId := Some(m), windowId := Some(x), columnId := column, origin := origin);
      Activate(m, w);
      if column.Some? && column.value in state.columns {
        var shown := state.columns[column.value].(activeWindowId := Some(x));
        if shown.mode == Tabbed {
          shown := shown.(tabSelection := Some(x));
        }
        state.columns := state.columns[column.value := shown];
      }
      if w in state.workspaces {
        state.workspaces := state.workspaces[w := state.workspaces[w].(rememberedWindowId := Some(x), rememberedColumnId := column)];
      }
    }

    // ---- scrolling -----------------------------------------------------------------------------

    /** Sums the widths in 32-bit saturating steps; the result is the exact width cut off at i32::MAX. */
    method WorkspaceContentWidth(w: WorkspaceId) returns (r: Result<i32, CoreError>)
      ensures r == R.WorkspaceContentWidth(state.Value(), w)
    {
      var viewport :- R.WorkspaceViewport(state.Value(), w);
      var ids := state.workspaces[w].strip.orderedColumnIds;
      ghost var strip := StripOf(state.Value(), w);
      var total: i32 := 0;
      for i := 0 to |ids|
        invariant total == Min(strip.Span(i, state.config.columnGap), I32_MAX)
        invariant forall k :: 0 <= k < i ==> ids[k] in state.columns
      {
        if ids[i] !in state.columns {
          FirstMissingAt(state.columns, ids, i);
          return Err(UnknownColumn(ids[i]));
        }
        total := SatI32(total + ClipToI32(ResolveWidth(state.columns[ids[i]], viewport.width)));
        if i > 0 {
          total := SatI32(total + ClipToI32(state.config.columnGap));
        }
      }
      return Ok(total);
    }

    method MaxScrollOffset(w: WorkspaceId) returns (r: Result<i32, CoreError>)
      ensures r == R.MaxScrollOffset(state.Value(), w)
    {
      var viewport :- R.WorkspaceViewport(state.Value(), w);
      var content :- WorkspaceContentWidth(w);
      return Ok(Max(content - ClipToI32(viewport.width), 0));
    }

    method ApplyScrollDelta(w: WorkspaceId, delta: i32) returns (r: Result<(), CoreError>)
      modifies state
      ensures Step(state.Value(), r) == R.ApplyScrollDelta(old(state.Value()), w, delta)
    {
      var max :- MaxScrollOffset(w);
      var strip := state.workspaces[w].strip;
      strip := strip.(scrollOffset := Clamp(SatI32(strip.scrollOffset + delta), 0, max));
      state.workspaces := state.workspaces[w := state.workspaces[w].(strip := strip)];
      return Ok(());
    }

    method ClampScrollOffset(w: WorkspaceId) returns (r: Result<(), CoreError>)
      modifies state
      ensures Step(state.Value(), r) == R.ClampScrollOffset(old(state.Value()), w)
    {
      var max :- MaxScrollOffset(w);
      var strip := state.workspaces[w].strip;
      strip := strip.(scrollOffset := Clamp(strip.scrollOffset, 0, max));
      state.workspaces := state.workspaces[w := state.workspaces[w].(strip := strip)];
      return Ok(());
    }

    /** The horizontal extent of a column's geometries. */
    method FindBounds(geometries: seq<Geometry>, c: ColumnId) returns (bounds: Option<R.Bounds>)
      ensures bounds == R.TargetBounds(state.windows, geometries, 0, c, None)
    {
      bounds := None;
      for i := 0 to |geometries|
        invariant R.TargetBounds(state.windows, geometries, 0, c, None) == R.TargetBounds(state.windows, geometries, i, c, bounds)
      {
        if !R.BelongsTo(state.windows, geometries[i], c) {
          continue;
        }
        var left := geometries[i].rect.x;
        var right := SatI32(left as int + ClipToI32(geometries[i].rect.width));
        if bounds.None? {
          bounds := Some(R.Bounds(left, right));
        } else {
          bounds := Some(R.Bounds(Min(bounds.value.left, left), Max(bounds.value.right, right)));
        }
      }
    }

    method RevealColumn(w: WorkspaceId, c: ColumnId) returns (r: Result<(), CoreError>)
      modifies state
      ensures Step(state.Value(), r) == R.Reveal(old(state.Value()), w, c)
    {
      var layout := RecomputeWorkspace(state.Value(), w);
      if layout.Err? {
        return Err(LayoutFailed(layout.error));
      }
      var bounds := FindBounds(layout.value.geometries, c);
      if bounds.None? {
        return Ok(());
      }
      var max :- MaxScrollOffset(w);
      var strip := state.workspaces[w].strip;
      var desired := R.DesiredOffset(strip.scrollOffset, bounds.value, layout.value.viewport,
                                     |strip.orderedColumnIds| == 1, max);
      r := ApplyScrollDelta(w, SatI32(Clamp(desired, 0, max) - strip.scrollOffset));
    }

    method RevealIfTiled(w: WorkspaceId, column: Option<ColumnId>) returns (r: Result<(), CoreError>)
      modifies state
      ensures Step(state.Value(), r) == R.RevealIfTiled(old(state.Value()), w, column)
    {
      if column.None? {
        return Ok(());
      }
      r := RevealColumn(w, column.value);
    }

    // ---- discovery -----------------------------------------------------------------------------

    method Discover(w: WorkspaceId, d: Discovery) returns (r: Result<Option<ColumnId>, CoreError>)
      modifies state
      ensures Step(state.Value(), r) == R.Discover(old(state.Value()), w, d)
    {
      var preserve := R.PreservesFocus(state.Value(), w, d);
      var x := state.AllocateWindowId();
      var column :- Place(w, d, x, preserve);
      state.windows := state.windows[x := R.NewWindow(d, x, w, column)];
      Activate(d.monitorId, w);
      return Ok(column);
    }

    method HandleWindowDiscovered(d: Discovery) returns (r: Result<Option<WorkspaceId>, CoreError>)
      modifies state
      ensures Step(state.Value(), r) == R.HandleWindowDiscovered(old(state.Value()), d)
    {
      if d.monitorId !in state.monitors {
        return Err(UnknownMonitor(d.monitorId));
      }
      var active := ActiveWorkspace(state.Value(), d.monitorId);
      if active.None? {
        return Err(NoActiveWorkspace(d.monitorId));
      }
      var w := active.value;
      var preserve := R.PreservesFocus(state.Value(), w, d);
      var x := state.runtime.nextWindowId;
      var column :- Discover(w, d);
      if !d.managed {
        var _ := state.EnsureTailWorkspace(d.monitorId);
        return Ok(None);
      }
      if preserve {
        var _ := state.EnsureTailWorkspace(d.monitorId);
        return Ok(Some(w));
      }
      SetFocusToWindow(d.monitorId, w, x, column, ReducerDefault);
      var _ := state.EnsureTailWorkspace(d.monitorId);
      var _ :- ClampScrollOffset(w);
      var _ :- RevealIfTiled(w, column);
      return Ok(Some(w));
    }

    // ---- destruction ---------------------------------------------------------------------------

    method DetachWindow(x: WindowId) returns (r: Result<(), CoreError>)
      modifies state
      ensures Step(state.Value(), r) == R.DetachWindow(old(state.Value()), x)
    {
      if x !in state.windows {
        return Err(UnknownWindow(x));
      }
      var w := state.windows[x].workspaceId;
      if state.windows[x].columnId.Some? {
        var c := state.windows[x].columnId.value;
        if c !in state.columns {
          return Ok(());
        }
        var column := state.columns[c];
        column := column.(orderedWindowIds := R.Remove(column.orderedWindowIds, x));
        if column.tabSelection == Some(x) {
          column := column.(tabSelection := First(column.orderedWindowIds));
        }
        if column.activeWindowId == Some(x) {
          column := column.(activeWindowId := OrElse(column.tabSelection, First(column.orderedWindowIds)));
        }
        if column.orderedWindowIds != [] {
          state.columns := state.columns[c := column];
          return Ok(());
        }
        state.columns := state.columns - {c};
        if w !in state.workspaces {
          return Err(UnknownWorkspace(w));
        }
        state.workspaces := state.workspaces[w := R.WithoutColumn(state.workspaces[w], c)];
        return Ok(());
      }
      if w !in state.workspaces {
        return Err(UnknownWorkspace(w));
      }
      state.workspaces := state.workspaces[w := R.WithoutFloating(state.workspaces[w], x)];
      return Ok(());
    }

    method RemoveWindow(x: WindowId) returns (r: Result<(), CoreError>)
      requires x in state.windows
      modifies state
      ensures Step(state.Value(), r) == R.RemoveWindow(old(state.Value()), x)
    {
      var w, column := state.windows[x].workspaceId, state.windows[x].columnId;
      var _ :- DetachWindow(x);
      state.windows := state.windows - {x};
      if w in state.workspaces {
        state.workspaces := state.workspaces[w := R.Forgotten(state.workspaces[w], x, column)];
      }
      return Ok(());
    }

    /** The preferred column, else the first other column with a window, else the first floating window. */
    method FindNextFocus(w: WorkspaceId, preferred: Option<ColumnId>) returns (target: R.FocusTarget)
      requires w in state.workspaces
      ensures target == R.NextFocus(state.Value(), state.workspaces[w], preferred)
    {
      if preferred.Some? {
        target := R.ColumnTarget(state.Value(), preferred.value);
        if target.Some? {
          return;
        }
      }
      var ids := state.workspaces[w].strip.orderedColumnIds;
      for i := 0 to |ids|
        invariant R.FirstColumnTarget(state.Value(), ids, preferred) == R.FirstColumnTarget(state.Value(), ids[i..], preferred)
      {
        assert ids[i..][1..] == ids[i + 1..];
        if Some(ids[i]) == preferred {
          continue;
        }
        target := R.ColumnTarget(state.Value(), ids[i]);
        if target.Some? {
          return;
        }
      }
      target := None;
      var floating := state.workspaces[w].floatingLayer.orderedWindowIds;
      if floating != [] {
        target := Some((floating[0], None));
      }
    }

    method RetargetFocus(w: WorkspaceId, preferred: Option<ColumnId>) returns (r: Result<(), CoreError>)
      modifies state
      ensures Step(state.Value(), r) == R.RetargetFocus(old(state.Value()), w, preferred)
    {
      if w !in state.workspaces {
        return Err(UnknownWorkspace(w));
      }
      var m := state.workspaces[w].monitorId;
      var target := FindNextFocus(w, preferred);
      if target.None? {
        state.focus := state.focus.(monitorId := Some(m), origin := ReducerDefault, windowId := None, columnId := None);
        return Ok(());
      }
      SetFocusToWindow(m, w, target.value.0, target.value.1, ReducerDefault);
      r := RevealIfTiled(w, target.value.1);
    }

    method HandleWindowDestroyed(x: WindowId) returns (r: Result<Option<WorkspaceId>, CoreError>)
      modifies state
      ensures Step(state.Value(), r) == R.HandleWindowDestroyed(old(state.Value()), x)
    {
      if x !in state.windows {
        return Err(UnknownWindow(x));
      }
      var w, column := state.windows[x].workspaceId, state.windows[x].columnId;
      if w !in state.workspaces {
        return Err(UnknownWorkspace(w));
      }
      var m := state.workspaces[w].monitorId;
      var _ :- RemoveWindow(x);
      if state.focus.windowId == Some(x) {
        var _ :- RetargetFocus(w, column);
      }
      var _ := state.EnsureTailWorkspace(m);
      var _ :- ClampScrollOffset(w);
      return Ok(Some(w));
    }

    // ---- focus events --------------------------------------------------------------------------

    method HandleFocusObserved(m: MonitorId, x: WindowId, origin: FocusOrigin) returns (r: Result<Option<WorkspaceId>, CoreError>)
      modifies state
      ensures Step(state.Value(), r) == R.HandleFocusObserved(old(state.Value()), m, x, origin)
    {
      if m !in state.monitors {
        return Err(UnknownMonitor(m));
      }
      if x !in state.windows {
        return Err(UnknownWindow(x));
      }
      var w, column := state.windows[x].workspaceId, state.windows[x].columnId;
      if w !in state.workspaces {
        return Err(UnknownWorkspace(w));
      }
      if state.workspaces[w].monitorId != m {
        return Err(InvalidEvent("focused window monitor does not match workspace monitor"));
      }
      SetFocusToWindow(m, w, x, column, origin);
      var _ :- RevealIfTiled(w, column);
      return Ok(Some(w));
    }

    method FirstManagedMonitor(ms: set<MonitorId>) returns (r: Option<MonitorId>)
      requires forall m :: m in ms ==> m in state.monitors
      ensures r == R.FirstInOrder(state.Value(), ms)
    {
      r := None;
      var rest := ms;
      ghost var seen: set<MonitorId> := {};
      while rest != {}
        invariant seen + rest == ms
        invariant r.None? <==> seen == {}
        invariant r.Some? ==> r.value in seen
        invariant r.Some? ==> forall m :: m in seen && m != r.value ==> R.NavigatesBefore(state.Value(), r.value, m)
        decreases rest
      {
        var m :| m in rest;
        if r.None? || R.NavigatesBefore(state.Value(), m, r.value) {
          r := Some(m);
        }
        rest, seen := rest - {m}, seen + {m};
      }
      FirstIsUnique(state.Value(), ms, r);
    }

    method LeastKey(ids: set<nat>) returns (least: nat)
      requires ids != {}
      ensures least == R.LeastKey(ids)
    {
      least :| least in ids;
      var rest := ids;
      ghost var seen: set<nat> := {};
      while rest != {}
        invariant seen + rest == ids && least in ids
        invariant forall id :: id in seen ==> least <= id
        decreases rest
      {
        var id :| id in rest;
        if id < least {
          least := id;
        }
        rest, seen := rest - {id}, seen + {id};
      }
      assert seen == ids;
    }

    method ManagedTarget() returns (r: Option<WorkspaceId>)
      ensures r == R.ManagedTarget(state.Value())
    {
      if state.config.managedMonitorBindings == [] {
        return None;
      }
      var m := state.focus.monitorId;
      if m.Some? && R.IsManagedMonitor(state.Value(), m.value) {
        r := ActiveWorkspace(state.Value(), m.value);
        if r.Some? {
          return;
        }
      }
      var first := FirstManagedMonitor(R.ManagedMonitors(state.Value()));
      r := R.ActiveOf(state.Value(), first);
    }

    method ActiveWorkspaceForCommands() returns (r: Result<WorkspaceId, CoreError>)
      ensures r == R.CommandWorkspace(state.Value())
    {
      var focused := state.focus.windowId;
      if focused.Some? && focused.value in state.windows && state.windows[focused.value].isManaged {
        return Ok(state.windows[focused.value].workspaceId);
      }
      var target := ManagedTarget();
      if target.None? {
        target := R.ActiveOf(state.Value(), state.focus.monitorId);
      }
      if target.Some? {
        return Ok(target.value);
      }
      if state.workspaceSets == map[] {
        return Err(InvalidEvent("no active workspace is available for command handling"));
      }
      assert state.workspaceSets.Keys != {};
      var t := LeastKey(state.workspaceSets.Keys);
      return Ok(state.workspaceSets[t].activeWorkspaceId);
    }

    method NavigationSequence(w: WorkspaceId) returns (r: Result<seq<(WindowId, Option<ColumnId>)>, CoreError>)
      ensures r == R.NavigationSequence(state.Value(), w)
    {
      if w !in state.workspaces {
        return Err(UnknownWorkspace(w));
      }
      var ids := state.workspaces[w].strip.orderedColumnIds;
      var targets: seq<(WindowId, Option<ColumnId>)> := [];
      assert ids[0..] == ids;
      FollowedFromStart(R.StripTargets(state.Value(), ids));
      for i := 0 to |ids|
        invariant R.StripTargets(state.Value(), ids) == Followed(targets, R.StripTargets(state.Value(), ids[i..]))
      {
        assert ids[i..][0] == ids[i] && ids[i..][1..] == ids[i + 1..];
        if ids[i] !in state.columns {
          return Err(UnknownColumn(ids[i]));
        }
        var x := Representative(state.columns[ids[i]]);
        if x.Some? {
          FollowedByOne(targets, (x.value, Some(ids[i])), R.StripTargets(state.Value(), ids[i + 1..]));
          targets := targets + [(x.value, Some(ids[i]))];
        }
      }
      assert targets + [] == targets;
      if targets == [] {
        targets := R.FloatingTargets(state.workspaces[w].floatingLayer.orderedWindowIds);
      }
      return Ok(targets);
    }

    method FocusTo(w: WorkspaceId, x: WindowId, column: Option<ColumnId>) returns (r: Result<(), CoreError>)
      modifies state
      ensures Step(state.Value(), r) == R.FocusTo(old(state.Value()), w, x, column)
    {
      if w !in state.workspaces {
        return Err(UnknownWorkspace(w));
      }
      SetFocusToWindow(state.workspaces[w].monitorId, w, x, column, UserCommand);
      r := RevealIfTiled(w, column);
    }

    method CycleTab(w: WorkspaceId, c: ColumnId, forward: bool) returns (r: Result<(), CoreError>)
      requires R.CyclesTabs(state.Value(), c)
      modifies state
      ensures Step(state.Value(), r) == R.CycleTab(old(state.Value()), w, c, forward)
    {
      var column := state.columns[c];
      var ids := column.orderedWindowIds;
      var x := ids[R.StepTab(|ids|, R.CurrentTab(state.Value(), w, column), forward)];
      if w !in state.workspaces {
        return Err(UnknownWorkspace(w));
      }
      state.columns := state.columns[c := column.(tabSelection := Some(x))];
      r := FocusTo(w, x, Some(c));
    }

    method Navigate(w: WorkspaceId, forward: bool, scope: NavigationScope) returns (r: Result<(), CoreError>)
      modifies state
      ensures Step(state.Value(), r) == R.Navigate(old(state.Value()), w, forward, scope)
    {
      var focused := R.FocusedColumnIn(state.Value(), w);
      if scope == ColumnTabs && focused.Some? {
        if focused.value !in state.columns {
          return Err(UnknownColumn(focused.value));
        }
        if R.CyclesTabs(state.Value(), focused.value) {
          r := CycleTab(w, focused.value, forward);
          return;
        }
      }
      var targets :- NavigationSequence(w);
      if targets == [] {
        return Ok(());
      }
      var (x, column) := targets[R.NextIndex(targets, FocusedWindowIn(state.Value(), w), forward)];
      r := FocusTo(w, x, column);
    }

    method HandleFocusNavigation(forward: bool, scope: NavigationScope) returns (r: Result<Option<WorkspaceId>, CoreError>)
      modifies state
      ensures Step(state.Value(), r)
           == R.NavigateFrom(old(state.Value()), R.CommandWorkspace(old(state.Value())), forward, scope)
    {
      var w :- ActiveWorkspaceForCommands();
      var _ :- Navigate(w, forward, scope);
      return Ok(Some(w));
    }

    method HandleStripScroll(right: bool, step: u32) returns (r: Result<Option<WorkspaceId>, CoreError>)
      modifies state
      ensures Step(state.Value(), r)
           == R.ScrollStripOf(old(state.Value()), R.CommandWorkspace(old(state.Value())), right, step)
    {
      var w :- ActiveWorkspaceForCommands();
      var _ :- ApplyScrollDelta(w, R.ScrollDelta(state.Value(), right, step));
      return Ok(Some(w));
    }

    // ---- dispatch ------------------------------------------------------------------------------

    method ApplyEvent(event: Event) returns (r: Result<Option<WorkspaceId>, CoreError>)
      modifies state
      ensures Step(state.Value(), r) == R.ApplyEvent(old(state.Value()), event)
    {
      match event {
        case WindowDiscovered(d) => r := HandleWindowDiscovered(d);
        case WindowDestroyed(x) => r := HandleWindowDestroyed(x);
        case WindowFocusObserved(m, x, origin) => r := HandleFocusObserved(m, x, origin);
        case CmdFocusNext(scope) => r := HandleFocusNavigation(true, scope);
        case CmdFocusPrev(scope) => r := HandleFocusNavigation(false, scope);
        case CmdScrollStripLeft(step) => r := HandleStripScroll(false, step);
        case CmdScrollStripRight(step) => r := HandleStripScroll(true, step);
        case ConfigReloadSucceeded(projection) =>
          state.config := projection;
          r := Ok(None);
        case RulesUpdated(count) =>
          state.config := state.config.(activeRuleCount := count);
          r := Ok(None);
        case _ => r := Ok(None);
      }
    }

    method Commit(affected: Option<WorkspaceId>) returns (r: Result<Transition, CoreError>)
      modifies state
      ensures Step(state.Value(), r) == R.Commit(old(state.Value()), affected)
    {
      state.runtime := state.runtime.(stateVersion := state.runtime.stateVersion + 1);
      var version := state.runtime.stateVersion;
      if affected.None? {
        return Ok(Transition(version, None, None));
      }
      var layout := RecomputeWorkspace(state.Value(), affected.value);
      if layout.Err? {
        return Err(LayoutFailed(layout.error));
      }
      return Ok(Transition(version, affected, Some(layout.value)));
    }

    method Dispatch(event: Event) returns (r: Result<Transition, CoreError>)
      modifies state
      ensures Step(state.Value(), r) == R.Dispatch(old(state.Value()), event)
    {
      var affected :- ApplyEvent(event);
      r := Commit(affected);
    }
  }

  lemma FirstIsUnique(s: State, ms: set<MonitorId>, r: Option<MonitorId>)
    requires forall m :: m in ms ==> m in s.monitors
    requires r.None? <==> ms == {}
    requires r.Some? ==> r.value in ms && forall m :: m in ms && m != r.value ==> R.NavigatesBefore(s, r.value, m)
    ensures r == R.FirstInOrder(s, ms)
  {
    var first := R.FirstInOrder(s, ms);
  }

  lemma {:induction false} FirstMissingAt(columns: Columns, ids: seq<ColumnId>, i: nat)
    requires i < |ids| && ids[i] !in columns && forall k :: 0 <= k < i ==> ids[k] in columns
    ensures R.FirstMissing(columns, ids) == Some(ids[i])
  {
    if i > 0 {
      FirstMissingAt(columns, ids[1..], i - 1);
    }
  }

  ghost function Followed<T, E>(done: seq<T>, rest: Result<seq<T>, E>): Result<seq<T>, E> {
    match rest
    case Ok(more) => Ok(done + more)
    case Err(e) => Err(e)
  }

  lemma FollowedFromStart<T, E>(rest: Result<seq<T>, E>)
    ensures Followed([], rest) == rest
  {
    assert rest.Ok? ==> [] + rest.value == rest.value;
  }

  lemma FollowedByOne<T, E>(done: seq<T>, next: T, rest: Result<seq<T>, E>)
    ensures rest.Ok? ==> Followed(done, Ok([next] + rest.value)) == Followed(done + [next], rest)
  {
    assert rest.Ok? ==> done + ([next] + rest.value) == (done + [next]) + rest.value;
  }
}
