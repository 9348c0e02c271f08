// The invariants hold over every run of the reducer, error returns included.
module RunInvariants {
  import opened Wrappers
  import opened MachineInt
  import opened Domain
  import opened Layout
  import opened Model
  import opened Invariants
  import opened Normalization
  import opened Events
  import opened Reducer
  import opened StepInvariants
  import opened PlacementProofs
  import opened RemovalProofs

  // ---- discovery -------------------------------------------------------------------------------

  lemma DiscoveredKeepsFocus(s: State, s1: State, w: WorkspaceId, d: Discovery, column: Option<ColumnId>)
    requires Inv(s) && Discovered(s, s1, w, d, column)
    ensures Inv(s1)
  {
  }

  lemma EnsureTailKeeps(s: State, m: MonitorId)
    requires Inv(s)
    ensures Inv(EnsureTail(s, m))
    ensures FocusShown(s) <==> FocusShown(EnsureTail(s, m))
  {
    if m in s.monitors {
      NormalizeKeepsInvariants(s, s.monitors[m].workspaceSetId);
    }
  }

  /** Normalising, clamping and revealing after a focus change keep the invariants at every exit. */
  lemma SettleKeeps(s: State, m: MonitorId, w: WorkspaceId, column: Option<ColumnId>)
    requires Inv(s)
    ensures var clamped := ClampScrollOffset(EnsureTail(s, m), w);
            && Inv(clamped.state)
            && (FocusShown(s) <==> FocusShown(clamped.state))
            && (var revealed := RevealIfTiled(clamped.state, w, column).state;
                Inv(revealed) && (FocusShown(s) <==> FocusShown(revealed)))
  {
    EnsureTailKeeps(s, m);
    var s1 := EnsureTail(s, m);
    ScrollersOnlyScroll(s1, w, column, 0);
    var s2 := ClampScrollOffset(s1, w).state;
    ScrollKeepsInvariants(s1, s2, w);
    ScrollersOnlyScroll(s2, w, column, 0);
    ScrollKeepsInvariants(s2, RevealIfTiled(s2, w, column).state, w);
  }

  /** The one step that can leave the focused window hidden: a tab appended behind the focus. */
  ghost predicate HidesFocus(s: State, d: Discovery) {
    && d.monitorId in s.monitors
    && ActiveWorkspace(s, d.monitorId).Some?
    && var w := ActiveWorkspace(s, d.monitorId).value;
    && PreservesFocus(s, w, d)
    && AppendsToColumn(s, w, d)
    && FocusedColumnIn(s, w).value in s.columns
    && s.columns[FocusedColumnIn(s, w).value].mode == Tabbed
  }

  /** Which columns a discovery changes. */
  ghost predicate OnlyAppends(s: State, w: WorkspaceId, d: Discovery, columns1: Columns) {
    forall c :: c in s.columns ==>
      c in columns1 && columns1[c] == if AppendsToColumn(s, w, d) && FocusedColumnIn(s, w) == Some(c)
                                      then Appended(s.columns[c], s.runtime.nextWindowId) else s.columns[c]
  }

  lemma AppendingShows(s: State, s1: State, w: WorkspaceId, d: Discovery)
    requires Inv(s) && FocusShown(s) && s1.focus == s.focus && s.runtime.nextWindowId !in s.windows
    requires OnlyAppends(s, w, d, s1.columns)
    requires d.monitorId in s.monitors && ActiveWorkspace(s, d.monitorId) == Some(w)
    ensures PreservesFocus(s, w, d) ==> (FocusShown(s1) <==> !HidesFocus(s, d))
    ensures !d.managed ==> FocusShown(s1)
  {
    if s.focus.columnId.Some? {
      var y := s.focus.windowId.value;
      assert WindowOk(s.columns, s.workspaces, y, s.windows[y]);
      assert ColumnOk(s.windows, s.workspaces, s.focus.columnId.value, s.columns[s.focus.columnId.value]);
    }
  }

  lemma DiscoverShows(s: State, w: WorkspaceId, d: Discovery)
    requires Inv(s) && FocusShown(s)
    requires d.monitorId in s.monitors && ActiveWorkspace(s, d.monitorId) == Some(w) && Discover(s, w, d).result.Ok?
    requires Discovered(s, Discover(s, w, d).state, w, d, Discover(s, w, d).result.value)
    ensures PreservesFocus(s, w, d) ==> (FocusShown(Discover(s, w, d).state) <==> !HidesFocus(s, d))
    ensures !d.managed ==> FocusShown(Discover(s, w, d).state)
  {
    ActiveExists(s, d.monitorId, w);
    PlacedColumns(s, w, d);
    AppendingShows(s, Discover(s, w, d).state, w, d);
  }

  lemma InsertOnlyAdds(s: State, w: WorkspaceId, x: WindowId, request: NewColumnRequest)
    ensures InsertNewColumn(s, w, x, request).state.columns
         == s.columns[s.runtime.nextColumnId := NewColumn(s.runtime.nextColumnId, request.mode, request.width, [x])]
  {
  }

  /** A map that differs from the old columns at most by an appended tab or by a fresh column. */
  ghost predicate AppendedOrAdded(s: State, w: WorkspaceId, d: Discovery, x: WindowId, columns1: Columns) {
    if AppendsToColumn(s, w, d) then
      FocusedColumnIn(s, w).value in s.columns &&
      columns1 == s.columns[FocusedColumnIn(s, w).value := Appended(s.columns[FocusedColumnIn(s, w).value], x)]
    else forall c :: c in s.columns && c != s.runtime.nextColumnId ==> c in columns1 && columns1[c] == s.columns[c]
  }

  lemma PlaceColumns(s: State, w: WorkspaceId, d: Discovery, x: WindowId, preserve: bool)
    requires Place(s, w, d, x, preserve).result.Ok?
    ensures AppendedOrAdded(s, w, d, x, Place(s, w, d, x, preserve).state.columns)
  {
    if d.managed && d.layer == Tiled && !AppendsToColumn(s, w, d) {
      InsertOnlyAdds(s, w, x, RequestFor(s, w, d.placement, preserve));
    }
  }

  lemma PlacedColumns(s: State, w: WorkspaceId, d: Discovery)
    requires WellFormed(s) && w in s.workspaces
    ensures OnlyAppends(s, w, d, Discover(s, w, d).state.columns)
  {
    var x := s.runtime.nextWindowId;
    var s0 := s.(runtime := s.runtime.(nextWindowId := x + 1));
    var placed := Place(s0, w, d, x, PreservesFocus(s, w, d));
    PlaceWorks(s0, w, d, x, PreservesFocus(s, w, d));
    DiscoverPlaces(s, w, d);
    PlaceColumns(s0, w, d, x, PreservesFocus(s, w, d));
    SoOnlyAppends(s, s0, w, d, placed.state.columns);
  }

  lemma DiscoverPlaces(s: State, w: WorkspaceId, d: Discovery)
    ensures var x := s.runtime.nextWindowId;
            var placed := Place(s.(runtime := s.runtime.(nextWindowId := x + 1)), w, d, x, PreservesFocus(s, w, d));
            placed.result.Ok? ==> Discover(s, w, d).state.columns == placed.state.columns
  {
    DiscoverParts(s, w, d);
  }

  lemma SoOnlyAppends(s: State, s0: State, w: WorkspaceId, d: Discovery, columns1: Columns)
    requires Fresh(s) && s0 == s.(runtime := s.runtime.(nextWindowId := s.runtime.nextWindowId + 1))
    requires AppendedOrAdded(s0, w, d, s.runtime.nextWindowId, columns1)
    ensures OnlyAppends(s, w, d, columns1)
  {
  }

  lemma DiscoveryExits(s: State, d: Discovery, w: WorkspaceId)
    requires d.monitorId in s.monitors && ActiveWorkspace(s, d.monitorId) == Some(w) && Discover(s, w, d).result.Ok?
    ensures var s1 := Discover(s, w, d).state;
            var column := Discover(s, w, d).result.value;
            var clamped := ClampScrollOffset(EnsureTail(SetFocus(s1, d.monitorId, w, s.runtime.nextWindowId, column, ReducerDefault), d.monitorId), w).state;
            var final := HandleWindowDiscovered(s, d).state;
            if !d.managed || PreservesFocus(s, w, d) then final == EnsureTail(s1, d.monitorId)
            else final == clamped || final == RevealIfTiled(clamped, w, column).state
  {
  }

  lemma FollowingKeeps(s: State, s1: State, d: Discovery, w: WorkspaceId, column: Option<ColumnId>)
    requires Inv(s) && Discovered(s, s1, w, d, column) && w in s.workspaces && s.workspaces[w].monitorId == d.monitorId
    ensures var clamped := ClampScrollOffset(EnsureTail(SetFocus(s1, d.monitorId, w, s.runtime.nextWindowId, column, ReducerDefault), d.monitorId), w).state;
            && Inv(clamped) && FocusShown(clamped)
            && Inv(RevealIfTiled(clamped, w, column).state) && FocusShown(RevealIfTiled(clamped, w, column).state)
  {
    SetFocusEstablishes(s1, d.monitorId, w, s.runtime.nextWindowId, column, ReducerDefault);
    SettleKeeps(SetFocus(s1, d.monitorId, w, s.runtime.nextWindowId, column, ReducerDefault), d.monitorId, w, column);
  }

  lemma DiscoveredKeeps(s: State, d: Discovery)
    requires Inv(s)
    ensures Inv(HandleWindowDiscovered(s, d).state)
    ensures FocusShown(s) ==> (FocusShown(HandleWindowDiscovered(s, d).state) <==> !HidesFocus(s, d))
  {
    if d.monitorId in s.monitors && ActiveWorkspace(s, d.monitorId).Some? {
      var w := ActiveWorkspace(s, d.monitorId).value;
      DiscoverKeepsWellFormed(s, w, d);
      DiscoveryExits(s, d, w);
      DiscoveredKeepsFrom(s, d, w, Discover(s, w, d).state, Discover(s, w, d).result.value);
    }
  }

  lemma DiscoveredKeepsFrom(s: State, d: Discovery, w: WorkspaceId, s1: State, column: Option<ColumnId>)
    requires Inv(s) && d.monitorId in s.monitors && ActiveWorkspace(s, d.monitorId) == Some(w)
    requires Discover(s, w, d) == Done(s1, column) && Discovered(s, s1, w, d, column)
    ensures Inv(EnsureTail(s1, d.monitorId))
    ensures (!d.managed || PreservesFocus(s, w, d)) && FocusShown(s) ==>
              (FocusShown(EnsureTail(s1, d.monitorId)) <==> !HidesFocus(s, d))
    ensures var clamped := ClampScrollOffset(EnsureTail(SetFocus(s1, d.monitorId, w, s.runtime.nextWindowId, column, ReducerDefault), d.monitorId), w).state;
            && Inv(clamped) && FocusShown(clamped)
            && Inv(RevealIfTiled(clamped, w, column).state) && FocusShown(RevealIfTiled(clamped, w, column).state)
  {
    ActiveExists(s, d.monitorId, w);
    DiscoveredKeepsFocus(s, s1, w, d, column);
    if FocusShown(s) {
      DiscoverShows(s, w, d);
    }
    EnsureTailKeeps(s1, d.monitorId);
    FollowingKeeps(s, s1, d, w, column);
  }

  // ---- destruction -----------------------------------------------------------------------------

  lemma PreferredStaysInStrip(s: State, s1: State, x: WindowId, w: WorkspaceId, c: ColumnId)
    requires Membership(s) && Membership(s1) && x in s.windows && w == s.windows[x].workspaceId && w in s.workspaces
    requires Removed(s, s1, x) && s.windows[x].columnId == Some(c) && c in s1.columns
    ensures c in s1.workspaces[w].strip.orderedColumnIds
  {
    var column := s1.columns[c];
    assert ColumnOk(s1.windows, s1.workspaces, c, column);
    var y := column.orderedWindowIds[0];
    assert y in column.orderedWindowIds && TiledIn(s1.windows, s1.workspaces, c, y);
    assert WindowOk(s.columns, s.workspaces, x, s.windows[x]);
    assert ColumnOk(s.windows, s.workspaces, c, s.columns[c]);
    assert TiledIn(s.windows, s.workspaces, c, y) && TiledIn(s.windows, s.workspaces, c, x);
    assert WorkspaceOk(s.windows, s.columns, w, s.workspaces[w]) && StripColumnOk(s.windows, s.columns, w, c);
  }

  /** The state once the window is out and the focus has moved on. */
  ghost function Refocused(s: State, x: WindowId): Step<()>
    requires x in s.windows
  {
    var removed := RemoveWindow(s, x).state;
    if removed.focus.windowId == Some(x) then RetargetFocus(removed, s.windows[x].workspaceId, s.windows[x].columnId)
    else Done(removed, ())
  }

  lemma RefocusedKeeps(s: State, x: WindowId)
    requires Inv(s) && x in s.windows && s.windows[x].workspaceId in s.workspaces
    ensures Inv(Refocused(s, x).state)
    ensures FocusShown(s) ==> FocusShown(Refocused(s, x).state)
  {
    RemoveWindowKeeps(s, x);
    var s1 := RemoveWindow(s, x).state;
    if s.focus.windowId == Some(x) {
      if s.windows[x].columnId.Some? && s.windows[x].columnId.value in s1.columns {
        PreferredStaysInStrip(s, s1, x, s.windows[x].workspaceId, s.windows[x].columnId.value);
      }
      RetargetEstablishes(s1, s.windows[x].workspaceId, s.windows[x].columnId);
    } else {
      RemovalKeepsOtherFocus(s, s1, x);
    }
  }

  lemma DestroyedParts(s: State, x: WindowId)
    requires x in s.windows && s.windows[x].workspaceId in s.workspaces && RemoveWindow(s, x).result.Ok?
    ensures var refocused := Refocused(s, x);
            var w := s.windows[x].workspaceId;
            var clamped := ClampScrollOffset(EnsureTail(refocused.state, s.workspaces[w].monitorId), w);
            HandleWindowDestroyed(s, x) ==
              if refocused.result.Err? then Fail(refocused.state, refocused.result.error)
              else if clamped.result.Err? then Fail(clamped.state, clamped.result.error)
              else Done(clamped.state, Some(w))
  {
  }

  lemma DestroyedKeeps(s: State, x: WindowId)
    requires Inv(s)
    ensures Inv(HandleWindowDestroyed(s, x).state)
    ensures FocusShown(s) ==> FocusShown(HandleWindowDestroyed(s, x).state)
  {
    if x in s.windows && s.windows[x].workspaceId in s.workspaces {
      RemoveWindowKeeps(s, x);
      RefocusedKeeps(s, x);
      DestroyedParts(s, x);
      SettleKeeps(Refocused(s, x).state, s.workspaces[s.windows[x].workspaceId].monitorId, s.windows[x].workspaceId, None);
    }
  }

  // ---- focus -----------------------------------------------------------------------------------

  lemma FocusObservedKeeps(s: State, m: MonitorId, x: WindowId, origin: FocusOrigin)
    requires Inv(s)
    ensures Inv(HandleFocusObserved(s, m, x, origin).state)
    ensures FocusShown(s) ==> FocusShown(HandleFocusObserved(s, m, x, origin).state)
  {
    hide Topo, Members, SetFocus, Reveal;
    if m in s.monitors && x in s.windows && s.windows[x].workspaceId in s.workspaces
       && s.workspaces[s.windows[x].workspaceId].monitorId == m {
      FocusToTarget(s, m, s.windows[x].workspaceId, (x, s.windows[x].columnId), origin);
    }
  }

  /** Commands act on an existing workspace that is the active one of its monitor. */
  lemma CommandWorkspaceIsActive(s: State)
    requires Inv(s)
    ensures var w := CommandWorkspace(s);
            w.Ok? ==> w.value in s.workspaces && ActiveWorkspace(s, s.workspaces[w.value].monitorId) == w.ToOption()
    ensures CommandWorkspace(s).Err? <==> s.monitors == map[]
  {
    forall m | ActiveWorkspace(s, m).Some?
      ensures m in s.monitors && ActiveWorkspace(s, m).value in s.workspaces
              && s.workspaces[ActiveWorkspace(s, m).value].monitorId == m
    {
      assert MonitorOk(s.workspaceSets, s.focus.activeByMonitor, m, s.monitors[m]);
      var t := s.monitors[m].workspaceSetId;
      assert SetOk(s.monitors, s.workspaces, t, s.workspaceSets[t]);
    }
    if s.workspaceSets != map[] {
      assert s.workspaceSets.Keys != {};
      var t := LeastKey(s.workspaceSets.Keys);
      assert SetOk(s.monitors, s.workspaces, t, s.workspaceSets[t]);
      assert MonitorOk(s.workspaceSets, s.focus.activeByMonitor, s.workspaceSets[t].monitorId, s.monitors[s.workspaceSets[t].monitorId]);
    }
    if s.monitors != map[] {
      var m :| m in s.monitors;
      assert MonitorOk(s.workspaceSets, s.focus.activeByMonitor, m, s.monitors[m]);
    }
    if s.focus.windowId.Some? {
      assert WindowOk(s.columns, s.workspaces, s.focus.windowId.value, s.windows[s.focus.windowId.value]);
    }
  }

  lemma {:induction false} StripTargetsWork(s: State, w: WorkspaceId, ids: seq<ColumnId>)
    requires Membership(s) && w in s.workspaces
    requires forall c :: c in ids ==> c in s.workspaces[w].strip.orderedColumnIds
    ensures StripTargets(s, ids).Ok?
    ensures |StripTargets(s, ids).value| == |ids|
    ensures forall i :: 0 <= i < |ids| ==>
              Some(StripTargets(s, ids).value[i]) == ColumnTarget(s, ids[i]) && IsTarget(s, w, StripTargets(s, ids).value[i])
  {
    if ids != [] {
      ColumnTargetWorks(s, w, ids[0]);
      assert forall c :: c in ids[1..] ==> c in ids;
      StripTargetsWork(s, w, ids[1..]);
    }
  }

  /** Navigation visits windows of the workspace only. */
  lemma NavigationSequenceWorks(s: State, w: WorkspaceId)
    requires Membership(s) && w in s.workspaces
    ensures NavigationSequence(s, w).Ok?
    ensures forall i :: 0 <= i < |NavigationSequence(s, w).value| ==> IsTarget(s, w, NavigationSequence(s, w).value[i])
  {
    StripTargetsWork(s, w, s.workspaces[w].strip.orderedColumnIds);
    assert WorkspaceOk(s.windows, s.columns, w, s.workspaces[w]);
    var floating := s.workspaces[w].floatingLayer.orderedWindowIds;
    forall i | 0 <= i < |floating| ensures IsTarget(s, w, FloatingTargets(floating)[i]) {
      assert floating[i] in floating && FloatsIn(s.windows, w, floating[i]);
    }
  }

  lemma FocusToKeeps(s: State, w: WorkspaceId, target: (WindowId, Option<ColumnId>))
    requires WellFormed(s) && w in s.workspaces && IsTarget(s, w, target)
    ensures Inv(FocusTo(s, w, target.0, target.1).state) && FocusShown(FocusTo(s, w, target.0, target.1).state)
  {
    FocusToTarget(s, s.workspaces[w].monitorId, w, target, UserCommand);
  }

  lemma CycleTabKeeps(s: State, w: WorkspaceId, c: ColumnId, forward: bool)
    requires Inv(s) && CyclesTabs(s, c) && w in s.workspaces && c in s.workspaces[w].strip.orderedColumnIds
    ensures Inv(CycleTab(s, w, c, forward).state) && FocusShown(CycleTab(s, w, c, forward).state)
  {
    var column := s.columns[c];
    assert ColumnOk(s.windows, s.workspaces, c, column);
    assert WorkspaceOk(s.windows, s.columns, w, s.workspaces[w]) && StripColumnOk(s.windows, s.columns, w, c);
    var x := column.orderedWindowIds[StepTab(|column.orderedWindowIds|, CurrentTab(s, w, column), forward)];
    assert x in column.orderedWindowIds && TiledIn(s.windows, s.workspaces, c, x);
    var selected := column.(tabSelection := Some(x));
    ReplacedColumn(s, c, selected);
    FocusToKeeps(s.(columns := s.columns[c := selected]), w, (x, Some(c)));
  }

  lemma NavigateStripKeeps(s: State, w: WorkspaceId, forward: bool)
    requires Inv(s) && w in s.workspaces
    ensures Inv(NavigateStrip(s, w, forward).state)
    ensures FocusShown(s) ==> FocusShown(NavigateStrip(s, w, forward).state)
  {
    NavigationSequenceWorks(s, w);
    var targets := NavigationSequence(s, w).value;
    if targets != [] {
      FocusToKeeps(s, w, targets[NextIndex(targets, FocusedWindowIn(s, w), forward)]);
    }
  }

  lemma NavigationKeeps(s: State, target: Result<WorkspaceId, CoreError>, forward: bool, scope: NavigationScope)
    requires Inv(s) && (target.Ok? ==> target.value in s.workspaces)
    ensures Inv(NavigateFrom(s, target, forward, scope).state)
    ensures FocusShown(s) ==> FocusShown(NavigateFrom(s, target, forward, scope).state)
  {
    if target.Ok? {
      var w := target.value;
      NavigateStripKeeps(s, w, forward);
      if FocusedColumnIn(s, w).Some? && CyclesTabs(s, FocusedColumnIn(s, w).value) {
        CycleTabKeeps(s, w, FocusedColumnIn(s, w).value, forward);
      }
    }
  }

  // ---- runs ------------------------------------------------------------------------------------

  lemma AddMonitorKeeps(s: State, workArea: Rect, isPrimary: bool)
    requires Inv(s)
    ensures Inv(AddMonitor(s, workArea, isPrimary))
    ensures FocusShown(s) <==> FocusShown(AddMonitor(s, workArea, isPrimary))
  {
    WithMonitorKeeps(s, workArea, isPrimary);
    NormalizeKeepsInvariants(WithMonitor(s, workArea, isPrimary), s.runtime.nextWorkspaceSetId);
  }

  lemma MonitorArrives(monitors: Monitors, sets: WorkspaceSets, workspaces: Workspaces, active: map<MonitorId, WorkspaceId>,
                       monitor: Monitor, set0: WorkspaceSet, workspace: Workspace)
    requires Topo(monitors, sets, workspaces, active)
    requires monitor.id !in monitors && set0.id !in sets && workspace.id !in workspaces
    requires monitor.workspaceSetId == set0.id && set0.monitorId == monitor.id && workspace.monitorId == monitor.id
    requires set0.orderedWorkspaceIds == [workspace.id] && set0.activeWorkspaceId == workspace.id
    ensures Topo(monitors[monitor.id := monitor], sets[set0.id := set0], workspaces[workspace.id := workspace],
                 active[monitor.id := workspace.id])
  {
    var monitors1, sets1, workspaces1 := monitors[monitor.id := monitor], sets[set0.id := set0], workspaces[workspace.id := workspace];
    var active1 := active[monitor.id := workspace.id];
    forall m | m in monitors1 ensures MonitorOk(sets1, active1, m, monitors1[m]) {
      assert m != monitor.id ==> MonitorOk(sets, active, m, monitors[m]);
    }
    forall t | t in sets1 ensures SetOk(monitors1, workspaces1, t, sets1[t]) {
      assert t != set0.id ==> SetOk(monitors, workspaces, t, sets[t]);
    }
    forall w | w in workspaces1 ensures HomeOk(monitors1, sets1, w, workspaces1[w]) {
      assert w != workspace.id ==> HomeOk(monitors, sets, w, workspaces[w]);
    }
  }

  lemma WithMonitorKeeps(s: State, workArea: Rect, isPrimary: bool)
    requires Inv(s)
    ensures Inv(WithMonitor(s, workArea, isPrimary))
    ensures FocusShown(s) <==> FocusShown(WithMonitor(s, workArea, isPrimary))
  {
    var s1 := WithMonitor(s, workArea, isPrimary);
    var m, t, w := s.runtime.nextMonitorId, s.runtime.nextWorkspaceSetId, s.runtime.nextWorkspaceId;
    MonitorArrives(s.monitors, s.workspaceSets, s.workspaces, s.focus.activeByMonitor,
                   s1.monitors[m], s1.workspaceSets[t], s1.workspaces[w]);
    BareWorkspaceArrives(s.windows, s.columns, s.workspaces, w, s1.workspaces[w]);
  }

  lemma BareWorkspaceArrives(windows: Windows, columns: Columns, workspaces: Workspaces, w: WorkspaceId, workspace: Workspace)
    requires Members(windows, columns, workspaces) && w !in workspaces && IsBare(workspace)
    ensures Members(windows, columns, workspaces[w := workspace])
  {
    var workspaces1 := workspaces[w := workspace];
    forall w' | w' in workspaces1 ensures WorkspaceOk(windows, columns, w', workspaces1[w']) {
      assert w' != w ==> WorkspaceOk(windows, columns, w', workspaces[w']);
    }
    forall c | c in columns ensures ColumnOk(windows, workspaces1, c, columns[c]) {
      assert ColumnOk(windows, workspaces, c, columns[c]);
      forall x | x in columns[c].orderedWindowIds ensures TiledIn(windows, workspaces1, c, x) {
        assert TiledIn(windows, workspaces, c, x);
      }
    }
    forall x | x in windows ensures WindowOk(columns, workspaces1, x, windows[x]) {
      assert WindowOk(columns, workspaces, x, windows[x]);
    }
  }

  /** An event keeps the invariants, whatever it returns, and only one kind of discovery hides the focus. */
  lemma ApplyEventKeeps(s: State, event: Event)
    requires Inv(s)
    ensures Inv(ApplyEvent(s, event).state)
    ensures FocusShown(s) ==>
              (FocusShown(ApplyEvent(s, event).state) <==> !(event.WindowDiscovered? && HidesFocus(s, event.discovery)))
  {
    match event {
      case WindowDiscovered(d) => DiscoveredKeeps(s, d);
      case WindowDestroyed(x) => DestroyedKeeps(s, x);
      case WindowFocusObserved(m, x, origin) => FocusObservedKeeps(s, m, x, origin);
      case CmdFocusNext(scope) => CommandWorkspaceIsActive(s); NavigationKeeps(s, CommandWorkspace(s), true, scope);
      case CmdFocusPrev(scope) => CommandWorkspaceIsActive(s); NavigationKeeps(s, CommandWorkspace(s), false, scope);
      case CmdScrollStripLeft(step) => StripScrollKeeps(s, CommandWorkspace(s), false, step);
      case CmdScrollStripRight(step) => StripScrollKeeps(s, CommandWorkspace(s), true, step);
      case _ =>
    }
  }

  lemma StripScrollKeeps(s: State, target: Result<WorkspaceId, CoreError>, right: bool, step: u32)
    requires Inv(s)
    ensures Inv(ScrollStripOf(s, target, right, step).state)
    ensures FocusShown(s) <==> FocusShown(ScrollStripOf(s, target, right, step).state)
  {
    if target.Ok? {
      ScrollersOnlyScroll(s, target.value, None, ScrollDelta(s, right, step));
      ScrollKeepsInvariants(s, ApplyScrollDelta(s, target.value, ScrollDelta(s, right, step)).state, target.value);
    }
  }

  lemma DispatchState(s: State, event: Event)
    ensures var applied := ApplyEvent(s, event);
            Dispatch(s, event).state ==
              if applied.result.Err? then applied.state
              else applied.state.(runtime := applied.state.runtime.(stateVersion := applied.state.runtime.stateVersion + 1))
  {
    hide ApplyEvent, Recompute;
  }

  lemma AfterKeeps(s: State, input: Input)
    requires Inv(s)
    ensures Inv(After(s, input))
    ensures FocusShown(s) ==>
              (FocusShown(After(s, input)) <==>
                 !(input.Dispatched? && input.event.WindowDiscovered? && HidesFocus(s, input.event.discovery)))
  {
    match input {
      case Dispatched(event) =>
        ApplyEventKeeps(s, event);
        DispatchState(s, event);
      case MonitorAdded(workArea, isPrimary) =>
        AddMonitorKeeps(s, workArea, isPrimary);
    }
  }

  /** Membership, topology and focus hold after every run from a state where they hold. */
  lemma {:induction false} RunKeepsInvariants(s: State, inputs: seq<Input>)
    requires Inv(s)
    ensures Inv(Run(s, inputs))
    decreases |inputs|
  {
    if inputs != [] {
      AfterKeeps(s, inputs[0]);
      RunKeepsInvariants(After(s, inputs[0]), inputs[1..]);
    }
  }

  /** No input of the run hides the focus at the moment it arrives. */
  ghost predicate NeverHides(s: State, inputs: seq<Input>)
    decreases |inputs|
  {
    inputs == [] ||
    (!(inputs[0].Dispatched? && inputs[0].event.WindowDiscovered? && HidesFocus(s, inputs[0].event.discovery))
     && NeverHides(After(s, inputs[0]), inputs[1..]))
  }

  /** Without a tab appended behind the focus, the focused window is always the one its column shows. */
  lemma {:induction false} RunShowsFocus(s: State, inputs: seq<Input>)
    requires Inv(s) && FocusShown(s) && NeverHides(s, inputs)
    ensures FocusShown(Run(s, inputs))
    decreases |inputs|
  {
    if inputs != [] {
      AfterKeeps(s, inputs[0]);
      RunShowsFocus(After(s, inputs[0]), inputs[1..]);
    }
  }

  /** Everything reachable from the empty state satisfies the invariants. */
  lemma ReachableStatesAreSound(inputs: seq<Input>)
    ensures Inv(Run(EMPTY_STATE, inputs))
    ensures NeverHides(EMPTY_STATE, inputs) ==> FocusShown(Run(EMPTY_STATE, inputs))
  {
    RunKeepsInvariants(EMPTY_STATE, inputs);
    if NeverHides(EMPTY_STATE, inputs) {
      RunShowsFocus(EMPTY_STATE, inputs);
    }
  }
}
