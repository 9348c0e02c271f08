// What every reachable window-manager state keeps.
module Invariants {
  import opened Wrappers
  import opened MachineInt
  import opened Domain
  import opened Model

  type Windows = map<WindowId, WindowNode>
  type Monitors = map<MonitorId, Monitor>
  type WorkspaceSets = map<WorkspaceSetId, WorkspaceSet>

  ghost predicate NoDup<T>(s: seq<T>) {
    forall i, j :: 0 <= i < j < |s| ==> s[i] != s[j]
  }

  // The invariants are stated over the maps they relate, so that a step that leaves those maps
  // alone keeps them without further argument.

  // ---- monitors, workspace sets, workspaces ----------------------------------------------------

  ghost predicate MonitorOk(sets: WorkspaceSets, active: map<MonitorId, WorkspaceId>, m: MonitorId, monitor: Monitor) {
    var t := monitor.workspaceSetId;
    && monitor.id == m
    && t in sets
    && sets[t].monitorId == m
    && m in active
    && active[m] == sets[t].activeWorkspaceId
  }

  ghost predicate SetOk(monitors: Monitors, workspaces: Workspaces, t: WorkspaceSetId, set0: WorkspaceSet) {
    && set0.id == t
    && set0.monitorId in monitors
    && monitors[set0.monitorId].workspaceSetId == t
    && NoDup(set0.orderedWorkspaceIds)
    && set0.activeWorkspaceId in set0.orderedWorkspaceIds
    && forall w :: w in set0.orderedWorkspaceIds ==> w in workspaces && workspaces[w].monitorId == set0.monitorId
  }

  ghost predicate HomeOk(monitors: Monitors, sets: WorkspaceSets, w: WorkspaceId, workspace: Workspace) {
    var m := workspace.monitorId;
    && workspace.id == w
    && m in monitors
    && monitors[m].workspaceSetId in sets
    && w in sets[monitors[m].workspaceSetId].orderedWorkspaceIds
  }

  ghost predicate Topo(monitors: Monitors, sets: WorkspaceSets, workspaces: Workspaces, active: map<MonitorId, WorkspaceId>) {
    && (forall m {:trigger MonitorOk(sets, active, m, monitors[m])} :: m in monitors ==> MonitorOk(sets, active, m, monitors[m]))
    && (forall t {:trigger SetOk(monitors, workspaces, t, sets[t])} :: t in sets ==> SetOk(monitors, workspaces, t, sets[t]))
    && (forall w {:trigger HomeOk(monitors, sets, w, workspaces[w])} :: w in workspaces ==> HomeOk(monitors, sets, w, workspaces[w]))
    && active.Keys == monitors.Keys
  }

  /** Each monitor has one workspace set; the sets partition the workspaces; the active one is stored twice alike. */
  ghost predicate Topology(s: State) {
    Topo(s.monitors, s.workspaceSets, s.workspaces, s.focus.activeByMonitor)
  }

  // ---- windows, columns, floating layers -------------------------------------------------------

  ghost predicate StripColumnOk(windows: Windows, columns: Columns, w: WorkspaceId, c: ColumnId) {
    c in columns && forall x :: x in columns[c].orderedWindowIds ==> x in windows && windows[x].workspaceId == w
  }

  ghost predicate FloatsIn(windows: Windows, w: WorkspaceId, x: WindowId) {
    x in windows && windows[x].isManaged && windows[x].columnId == None && windows[x].workspaceId == w
  }

  ghost predicate WorkspaceOk(windows: Windows, columns: Columns, w: WorkspaceId, workspace: Workspace) {
    && NoDup(workspace.strip.orderedColumnIds)
    && NoDup(workspace.floatingLayer.orderedWindowIds)
    && (forall c {:trigger StripColumnOk(windows, columns, w, c)} :: c in workspace.strip.orderedColumnIds ==> StripColumnOk(windows, columns, w, c))
    && (forall x {:trigger FloatsIn(windows, w, x)} :: x in workspace.floatingLayer.orderedWindowIds ==> FloatsIn(windows, w, x))
  }

  ghost predicate TiledIn(windows: Windows, workspaces: Workspaces, c: ColumnId, x: WindowId) {
    && x in windows
    && windows[x].isManaged
    && windows[x].columnId == Some(c)
    && windows[x].workspaceId in workspaces
    && c in workspaces[windows[x].workspaceId].strip.orderedColumnIds
  }

  ghost predicate IsMember(column: Column, choice: Option<WindowId>) {
    choice.Some? && choice.value in column.orderedWindowIds
  }

  ghost predicate ColumnOk(windows: Windows, workspaces: Workspaces, c: ColumnId, column: Column) {
    && column.orderedWindowIds != []
    && NoDup(column.orderedWindowIds)
    && IsMember(column, column.activeWindowId)
    && IsMember(column, column.tabSelection)
    && forall x {:trigger TiledIn(windows, workspaces, c, x)} :: x in column.orderedWindowIds ==> TiledIn(windows, workspaces, c, x)
  }

  ghost predicate WindowOk(columns: Columns, workspaces: Workspaces, x: WindowId, window: WindowNode) {
    && window.id == x
    && (!window.isManaged ==> window.columnId == None)
    && (window.isManaged ==>
          && window.workspaceId in workspaces
          && match window.columnId
             case Some(c) => c in columns && x in columns[c].orderedWindowIds
             case None => x in workspaces[window.workspaceId].floatingLayer.orderedWindowIds)
  }

  ghost predicate Members(windows: Windows, columns: Columns, workspaces: Workspaces) {
    && (forall w {:trigger WorkspaceOk(windows, columns, w, workspaces[w])} :: w in workspaces ==> WorkspaceOk(windows, columns, w, workspaces[w]))
    && (forall c {:trigger ColumnOk(windows, workspaces, c, columns[c])} :: c in columns ==> ColumnOk(windows, workspaces, c, columns[c]))
    && (forall x {:trigger WindowOk(columns, workspaces, x, windows[x])} :: x in windows ==> WindowOk(columns, workspaces, x, windows[x]))
  }

  /** Every managed window sits in exactly one column or floating layer, and both sides of the link agree. */
  ghost predicate Membership(s: State) {
    Members(s.windows, s.columns, s.workspaces)
  }

  /** Identifiers not yet handed out are not in use. */
  ghost predicate Fresh(s: State) {
    && (forall m :: m in s.monitors ==> m < s.runtime.nextMonitorId)
    && (forall t :: t in s.workspaceSets ==> t < s.runtime.nextWorkspaceSetId)
    && (forall w :: w in s.workspaces ==> w < s.runtime.nextWorkspaceId)
    && (forall c :: c in s.columns ==> c < s.runtime.nextColumnId)
    && (forall x :: x in s.windows ==> x < s.runtime.nextWindowId)
  }

  ghost predicate WellFormed(s: State) {
    Topology(s) && Membership(s) && Fresh(s)
  }

  // ---- focus -----------------------------------------------------------------------------------

  /** A focused window exists, and a focused managed window is the focus of the active workspace of the focused monitor. */
  ghost predicate FocusOk(s: State) {
    match s.focus.windowId
    case None => s.focus.columnId == None
    case Some(x) =>
      && x in s.windows
      && s.focus.columnId == s.windows[x].columnId
      && (s.windows[x].isManaged ==>
            var w := s.windows[x].workspaceId;
            && w in s.workspaces
            && s.focus.monitorId == Some(s.workspaces[w].monitorId)
            && s.workspaces[w].monitorId in s.focus.activeByMonitor
            && s.focus.activeByMonitor[s.workspaces[w].monitorId] == w)
  }

  /** The focused window is the one its column shows. */
  ghost predicate FocusShown(s: State) {
    s.focus.windowId.Some? && s.focus.columnId.Some? && s.focus.columnId.value in s.columns ==>
      Representative(s.columns[s.focus.columnId.value]) == s.focus.windowId
  }

  ghost predicate Inv(s: State) {
    WellFormed(s) && FocusOk(s)
  }

  // ---- normal form of a workspace set ----------------------------------------------------------

  /** One empty tail after a non-empty workspace; any other empty workspace is active or named. */
  ghost predicate NormalForm(columns: Columns, workspaces: Workspaces, ids: seq<WorkspaceId>, active: WorkspaceId) {
    && ids != []
    && IsEmpty(columns, workspaces, ids[|ids| - 1])
    && (|ids| > 1 ==> !IsEmpty(columns, workspaces, ids[|ids| - 2]))
    && forall w :: w in ids && w in workspaces && IsEmpty(columns, workspaces, w) && workspaces[w].name.None?
         ==> w == active || w == ids[|ids| - 1]
  }

  ghost predicate SetIsNormal(s: State, t: WorkspaceSetId)
    requires t in s.workspaceSets
  {
    NormalForm(s.columns, s.workspaces, s.workspaceSets[t].orderedWorkspaceIds, s.workspaceSets[t].activeWorkspaceId)
  }

  // ---- first consequences ----------------------------------------------------------------------

  /** With every column inhabited, an empty workspace has a bare strip. */
  lemma EmptyMeansBare(s: State, w: WorkspaceId)
    requires Membership(s) && w in s.workspaces
    ensures IsEmpty(s.columns, s.workspaces, w) <==>
            s.workspaces[w].strip.orderedColumnIds == [] && s.workspaces[w].floatingLayer.orderedWindowIds == []
  {
    var ids := s.workspaces[w].strip.orderedColumnIds;
    assert WorkspaceOk(s.windows, s.columns, w, s.workspaces[w]);
    if ids != [] {
      assert ids[0] in ids && StripColumnOk(s.windows, s.columns, w, ids[0]) && ColumnOk(s.windows, s.workspaces, ids[0], s.columns[ids[0]]);
    }
  }

  /** Strips are pairwise disjoint: a column has one workspace. */
  lemma StripsAreDisjoint(s: State, w1: WorkspaceId, w2: WorkspaceId, c: ColumnId)
    requires Membership(s) && w1 in s.workspaces && w2 in s.workspaces
    requires c in s.workspaces[w1].strip.orderedColumnIds
    requires c in s.workspaces[w2].strip.orderedColumnIds
    ensures w1 == w2
  {
    assert WorkspaceOk(s.windows, s.columns, w1, s.workspaces[w1]) && StripColumnOk(s.windows, s.columns, w1, c);
    assert WorkspaceOk(s.windows, s.columns, w2, s.workspaces[w2]) && StripColumnOk(s.windows, s.columns, w2, c);
    assert ColumnOk(s.windows, s.workspaces, c, s.columns[c]);
    assert s.columns[c].orderedWindowIds[0] in s.columns[c].orderedWindowIds;
  }

  /** No window is in two columns, or in a column and a floating layer, or in two floating layers. */
  lemma PlacesAreDisjoint(s: State, x: WindowId)
    requires Membership(s)
    ensures forall c1, c2 | c1 in s.columns && c2 in s.columns ::
              x in s.columns[c1].orderedWindowIds && x in s.columns[c2].orderedWindowIds ==> c1 == c2
    ensures forall c, w | c in s.columns && w in s.workspaces ::
              x in s.columns[c].orderedWindowIds ==> x !in s.workspaces[w].floatingLayer.orderedWindowIds
    ensures forall w1, w2 | w1 in s.workspaces && w2 in s.workspaces ::
              (x in s.workspaces[w1].floatingLayer.orderedWindowIds && x in s.workspaces[w2].floatingLayer.orderedWindowIds)
              ==> w1 == w2
  {
    forall c | c in s.columns && x in s.columns[c].orderedWindowIds
      ensures x in s.windows && s.windows[x].columnId == Some(c)
    {
      assert ColumnOk(s.windows, s.workspaces, c, s.columns[c]) && TiledIn(s.windows, s.workspaces, c, x);
    }
    forall w | w in s.workspaces && x in s.workspaces[w].floatingLayer.orderedWindowIds
      ensures x in s.windows && s.windows[x].columnId == None && s.windows[x].workspaceId == w
    {
      assert WorkspaceOk(s.windows, s.columns, w, s.workspaces[w]) && FloatsIn(s.windows, w, x);
    }
  }
}
