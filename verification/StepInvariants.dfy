// Each building block of the reducer keeps the invariants.
module StepInvariants {
  import opened Wrappers
  import opened MachineInt
  import opened Domain
  import opened Layout
  import opened Model
  import opened Invariants
  import opened Normalization
  import opened Events
  import opened Reducer

  // ---- steps that move no window ---------------------------------------------------------------

  /** A column that holds the same windows and still shows one of them. */
  ghost predicate SameMembers(c0: Column, c1: Column) {
    && c1.orderedWindowIds == c0.orderedWindowIds
    && IsMember(c1, c1.activeWindowId)
    && IsMember(c1, c1.tabSelection)
  }

  ghost predicate SamePlaces(w0: Workspace, w1: Workspace) {
    && w1.id == w0.id
    && w1.monitorId == w0.monitorId
    && w1.name == w0.name
    && w1.strip.orderedColumnIds == w0.strip.orderedColumnIds
    && w1.floatingLayer.orderedWindowIds == w0.floatingLayer.orderedWindowIds
  }

  ghost predicate SameColumns(columns0: Columns, columns1: Columns) {
    columns1.Keys == columns0.Keys && forall c :: c in columns0 ==> SameMembers(columns0[c], columns1[c])
  }

  ghost predicate SameWorkspaces(workspaces0: Workspaces, workspaces1: Workspaces) {
    && workspaces1.Keys == workspaces0.Keys
    && forall w :: w in workspaces0 ==> SamePlaces(workspaces0[w], workspaces1[w])
  }

  lemma SameColumnsKeepMembers(windows: Windows, columns0: Columns, columns1: Columns, workspaces: Workspaces)
    requires Members(windows, columns0, workspaces) && SameColumns(columns0, columns1)
    ensures Members(windows, columns1, workspaces)
  {
    forall w | w in workspaces ensures WorkspaceOk(windows, columns1, w, workspaces[w]) {
      assert WorkspaceOk(windows, columns0, w, workspaces[w]);
      forall c | c in workspaces[w].strip.orderedColumnIds ensures StripColumnOk(windows, columns1, w, c) {
        assert StripColumnOk(windows, columns0, w, c) && SameMembers(columns0[c], columns1[c]);
      }
    }
    forall c | c in columns1 ensures ColumnOk(windows, workspaces, c, columns1[c]) {
      assert ColumnOk(windows, workspaces, c, columns0[c]) && SameMembers(columns0[c], columns1[c]);
    }
    forall x | x in windows ensures WindowOk(columns1, workspaces, x, windows[x]) {
      assert WindowOk(columns0, workspaces, x, windows[x]);
      assert windows[x].columnId.Some? && windows[x].columnId.value in columns0 ==>
               SameMembers(columns0[windows[x].columnId.value], columns1[windows[x].columnId.value]);
    }
  }

  lemma SameWorkspacesKeepMembers(windows: Windows, columns: Columns, workspaces0: Workspaces, workspaces1: Workspaces)
    requires Members(windows, columns, workspaces0) && SameWorkspaces(workspaces0, workspaces1)
    ensures Members(windows, columns, workspaces1)
  {
    forall w | w in workspaces1 ensures WorkspaceOk(windows, columns, w, workspaces1[w]) {
      assert WorkspaceOk(windows, columns, w, workspaces0[w]) && SamePlaces(workspaces0[w], workspaces1[w]);
    }
    forall c | c in columns ensures ColumnOk(windows, workspaces1, c, columns[c]) {
      assert ColumnOk(windows, workspaces0, c, columns[c]);
      forall x | x in columns[c].orderedWindowIds ensures TiledIn(windows, workspaces1, c, x) {
        assert TiledIn(windows, workspaces0, c, x);
        assert SamePlaces(workspaces0[windows[x].workspaceId], workspaces1[windows[x].workspaceId]);
      }
    }
    forall x | x in windows ensures WindowOk(columns, workspaces1, x, windows[x]) {
      assert WindowOk(columns, workspaces0, x, windows[x]);
      assert windows[x].workspaceId in workspaces0 ==>
               SamePlaces(workspaces0[windows[x].workspaceId], workspaces1[windows[x].workspaceId]);
    }
  }

  lemma SameWorkspacesKeepTopo(monitors: Monitors, sets: WorkspaceSets, workspaces0: Workspaces, workspaces1: Workspaces,
                               active: map<MonitorId, WorkspaceId>)
    requires Topo(monitors, sets, workspaces0, active) && SameWorkspaces(workspaces0, workspaces1)
    ensures Topo(monitors, sets, workspaces1, active)
  {
    forall t | t in sets ensures SetOk(monitors, workspaces1, t, sets[t]) {
      assert SetOk(monitors, workspaces0, t, sets[t]);
      forall w | w in sets[t].orderedWorkspaceIds
        ensures w in workspaces1 && workspaces1[w].monitorId == sets[t].monitorId
      {
        assert SamePlaces(workspaces0[w], workspaces1[w]);
      }
    }
    forall w | w in workspaces1 ensures HomeOk(monitors, sets, w, workspaces1[w]) {
      assert HomeOk(monitors, sets, w, workspaces0[w]) && SamePlaces(workspaces0[w], workspaces1[w]);
    }
  }

  /** One workspace replaced by one with the same places. */
  lemma ReplacedWorkspace(s: State, w: WorkspaceId, workspace: Workspace)
    requires WellFormed(s) && w in s.workspaces && SamePlaces(s.workspaces[w], workspace)
    ensures WellFormed(WithWorkspace(s, w, workspace))
    ensures FocusOk(s) ==> FocusOk(WithWorkspace(s, w, workspace))
    ensures FocusShown(s) <==> FocusShown(WithWorkspace(s, w, workspace))
  {
    var workspaces1 := s.workspaces[w := workspace];
    assert SameWorkspaces(s.workspaces, workspaces1);
    SameWorkspacesKeepMembers(s.windows, s.columns, s.workspaces, workspaces1);
    SameWorkspacesKeepTopo(s.monitors, s.workspaceSets, s.workspaces, workspaces1, s.focus.activeByMonitor);
  }

  // ---- scrolling -------------------------------------------------------------------------------

  ghost predicate OnlyScrolled(s0: State, s1: State, w: WorkspaceId) {
    s1 == s0 || (w in s0.workspaces && exists offset: i32 :: s1 == WithOffset(s0, w, offset))
  }

  /** Scrolling keeps the invariants and everything but one offset. */
  lemma ScrollKeepsInvariants(s0: State, s1: State, w: WorkspaceId)
    requires WellFormed(s0) && OnlyScrolled(s0, s1, w)
    ensures WellFormed(s1)
    ensures FocusOk(s0) ==> FocusOk(s1)
    ensures FocusShown(s0) <==> FocusShown(s1)
    ensures s1 == s0.(workspaces := s1.workspaces) && SameWorkspaces(s0.workspaces, s1.workspaces)
  {
    if s1 != s0 {
      var offset: i32 :| s1 == WithOffset(s0, w, offset);
      ReplacedWorkspace(s0, w, s1.workspaces[w]);
    }
  }

  lemma ScrollersOnlyScroll(s: State, w: WorkspaceId, column: Option<ColumnId>, delta: i32)
    ensures OnlyScrolled(s, ApplyScrollDelta(s, w, delta).state, w)
    ensures OnlyScrolled(s, ClampScrollOffset(s, w).state, w)
    ensures OnlyScrolled(s, RevealIfTiled(s, w, column).state, w)
  {
  }

  // ---- focusing --------------------------------------------------------------------------------

  lemma ActivatedTopo(monitors: Monitors, sets: WorkspaceSets, workspaces: Workspaces, active: map<MonitorId, WorkspaceId>,
                      m: MonitorId, w: WorkspaceId)
    requires Topo(monitors, sets, workspaces, active) && w in workspaces && workspaces[w].monitorId == m
    ensures m in monitors && monitors[m].workspaceSetId in sets
    ensures var t := monitors[m].workspaceSetId;
            Topo(monitors, sets[t := sets[t].(activeWorkspaceId := w)], workspaces, active[m := w])
  {
    assert HomeOk(monitors, sets, w, workspaces[w]);
    assert MonitorOk(sets, active, m, monitors[m]);
    var t := monitors[m].workspaceSetId;
    var sets1 := sets[t := sets[t].(activeWorkspaceId := w)];
    forall m' | m' in monitors ensures MonitorOk(sets1, active[m := w], m', monitors[m']) {
      assert MonitorOk(sets, active, m', monitors[m']);
    }
    forall t' | t' in sets1 ensures SetOk(monitors, workspaces, t', sets1[t']) {
      assert SetOk(monitors, workspaces, t', sets[t']);
    }
    forall w' | w' in workspaces ensures HomeOk(monitors, sets1, w', workspaces[w']) {
      assert HomeOk(monitors, sets, w', workspaces[w']);
    }
  }

  /** Activating the workspace that is already active changes nothing. */
  lemma ActivateActive(s: State, m: MonitorId, w: WorkspaceId)
    requires Topology(s) && m in s.monitors && ActiveWorkspace(s, m) == Some(w)
    ensures Activate(s, m, w) == s
    ensures w in s.workspaces && s.workspaces[w].monitorId == m
  {
    assert MonitorOk(s.workspaceSets, s.focus.activeByMonitor, m, s.monitors[m]);
    var t := s.monitors[m].workspaceSetId;
    assert SetOk(s.monitors, s.workspaces, t, s.workspaceSets[t]);
    assert s.focus.activeByMonitor[m := w] == s.focus.activeByMonitor;
    assert s.workspaceSets[t := s.workspaceSets[t].(activeWorkspaceId := w)] == s.workspaceSets;
  }

  lemma ActivateKeeps(s: State, m: MonitorId, w: WorkspaceId)
    requires WellFormed(s) && w in s.workspaces && s.workspaces[w].monitorId == m
    ensures WellFormed(Activate(s, m, w))
    ensures Activate(s, m, w) == s.(workspaceSets := Activate(s, m, w).workspaceSets,
                                    focus := s.focus.(activeByMonitor := s.focus.activeByMonitor[m := w]))
  {
    ActivatedTopo(s.monitors, s.workspaceSets, s.workspaces, s.focus.activeByMonitor, m, w);
  }

  /** A column that shows another of its windows keeps the membership links. */
  lemma ReplacedColumn(s: State, c: ColumnId, column: Column)
    requires WellFormed(s) && c in s.columns && SameMembers(s.columns[c], column)
    ensures WellFormed(s.(columns := s.columns[c := column]))
    ensures FocusOk(s) ==> FocusOk(s.(columns := s.columns[c := column]))
  {
    var columns1 := s.columns[c := column];
    forall c' | c' in s.columns ensures SameMembers(s.columns[c'], columns1[c']) {
      assert ColumnOk(s.windows, s.workspaces, c', s.columns[c']);
    }
    SameColumnsKeepMembers(s.windows, s.columns, columns1, s.workspaces);
  }

  /** What focusing x leaves alone. */
  ghost predicate OnlyFocused(s: State, s1: State, x: WindowId, column: Option<ColumnId>) {
    && s1.workspaceSets.Keys == s.workspaceSets.Keys
    && (forall t :: t in s.workspaceSets ==> s1.workspaceSets[t].orderedWorkspaceIds == s.workspaceSets[t].orderedWorkspaceIds)
    && s1.windows == s.windows && s1.monitors == s.monitors && s1.config == s.config && s1.runtime == s.runtime
    && s1.focus.windowId == Some(x) && s1.focus.columnId == column
    && SameWorkspaces(s.workspaces, s1.workspaces)
    && s1.columns.Keys == s.columns.Keys
    && (x in s.windows && s.windows[x].workspaceId in s.workspaces ==>
          s1.focus.activeByMonitor
            == s.focus.activeByMonitor[s.workspaces[s.windows[x].workspaceId].monitorId := s.windows[x].workspaceId])
  }

  lemma SetFocusOnlyFocuses(s: State, m: MonitorId, w: WorkspaceId, x: WindowId, column: Option<ColumnId>, origin: FocusOrigin)
    requires w in s.workspaces && s.workspaces[w].monitorId == m
    requires x in s.windows && s.windows[x].workspaceId == w
    ensures OnlyFocused(s, SetFocus(s, m, w, x, column, origin), x, column)
  {
    var s0 := s.(focus := s.focus.(monitorId := Some(m), windowId := Some(x), columnId := column, origin := origin));
    ActivateFrame(s0, m, w);
    hide Activate, Shown;
  }

  lemma ActivateFrame(s: State, m: MonitorId, w: WorkspaceId)
    ensures var s1 := Activate(s, m, w);
            && s1 == s.(workspaceSets := s1.workspaceSets, focus := s.focus.(activeByMonitor := s.focus.activeByMonitor[m := w]))
            && s1.workspaceSets.Keys == s.workspaceSets.Keys
            && (forall t :: t in s.workspaceSets ==> s1.workspaceSets[t].orderedWorkspaceIds == s.workspaceSets[t].orderedWorkspaceIds)
  {
  }

  /** Focusing a window of workspace w on w's monitor establishes the focus invariants. */
  lemma SetFocusEstablishes(s: State, m: MonitorId, w: WorkspaceId, x: WindowId, column: Option<ColumnId>, origin: FocusOrigin)
    requires WellFormed(s) && w in s.workspaces && s.workspaces[w].monitorId == m
    requires x in s.windows && s.windows[x].workspaceId == w && column == s.windows[x].columnId
    ensures Inv(SetFocus(s, m, w, x, column, origin))
    ensures FocusShown(SetFocus(s, m, w, x, column, origin))
    ensures OnlyFocused(s, SetFocus(s, m, w, x, column, origin), x, column)
  {
    hide Topo, OnlyFocused;
    SetFocusOnlyFocuses(s, m, w, x, column, origin);
    var s0 := s.(focus := s.focus.(monitorId := Some(m), windowId := Some(x), columnId := column, origin := origin));
    ActivateKeeps(s0, m, w);
    var s1 := Activate(s0, m, w);
    var s2 := s1;
    assert WindowOk(s.columns, s.workspaces, x, s.windows[x]);
    if column.Some? {
      var shown := Shown(s1.columns[column.value], x);
      assert ColumnOk(s.windows, s.workspaces, column.value, s.columns[column.value]);
      hide Members;
      assert SameMembers(s1.columns[column.value], shown);
      ReplacedColumn(s1, column.value, shown);
      s2 := s1.(columns := s1.columns[column.value := shown]);
    }
    assert FocusOk(s2) && FocusShown(s2);
    ReplacedWorkspace(s2, w, s2.workspaces[w].(rememberedWindowId := Some(x), rememberedColumnId := column));
  }
}
