// Where focus-next and focus-prev go from any state: along the columns, through the floating windows, into a workspace.
module FocusCommands {
  import opened Wrappers
  import opened MachineInt
  import opened Domain
  import opened Layout
  import opened Model
  import opened Invariants
  import opened Normalization
  import opened Events
  import opened Reducer
  import opened StepInvariants
  import opened RemovalProofs
  import opened RunInvariants
  import opened DestroyProofs
  import opened NavigationProofs
  import opened OutcomeProofs
  import opened CommandTargets
  import opened StripGeometry
  import opened FocusVisibility

  // ---- the stops of a workspace ------------------------------------------------------------------

  function FloatingIds(s: State, w: WorkspaceId): seq<WindowId>
    requires w in s.workspaces
  {
    s.workspaces[w].floatingLayer.orderedWindowIds
  }

  /** Navigation goes from column to column, or from floating window to floating window where there is no column. */
  function StopCount(s: State, w: WorkspaceId): nat
    requires w in s.workspaces
  {
    if StripIds(s, w) != [] then |StripIds(s, w)| else |FloatingIds(s, w)|
  }

  /** Stop i is window x: the one column i shows, or floating window i. */
  ghost predicate IsStop(s: State, w: WorkspaceId, i: nat, x: WindowId, column: Option<ColumnId>)
    requires w in s.workspaces
  {
    if StripIds(s, w) != [] then
      i < |StripIds(s, w)| && column == Some(StripIds(s, w)[i]) && column.value in s.columns && Representative(s.columns[column.value]) == Some(x)
    else i < |FloatingIds(s, w)| && column == None && x == FloatingIds(s, w)[i]
  }

  ghost predicate StopsAt(s: State, w: WorkspaceId, i: nat, x: WindowId)
    requires w in s.workspaces
  {
    exists column :: IsStop(s, w, i, x, column)
  }

  /** The focus is on window x of workspace w. */
  ghost predicate FocusIs(s: State, w: WorkspaceId, x: WindowId) {
    s.focus.windowId == Some(x) && x in s.windows && s.windows[x].workspaceId == w
  }

  /**
   * The stop a step goes to: the neighbour of the focused one; the first or the last when the focus is elsewhere; and
   * from a window of the workspace that is no stop, the neighbour of the first.
   */
  ghost predicate IsNextStop(s: State, w: WorkspaceId, forward: bool, j: nat)
    requires w in s.workspaces && StopCount(s, w) > 0
  {
    var n := StopCount(s, w);
    && j < n
    && ((forall x :: !FocusIs(s, w, x)) ==> j == if forward then 0 else n - 1)
    && (forall x, i: nat :: FocusIs(s, w, x) && i < n && StopsAt(s, w, i, x) ==> j == Neighbour(i, n, forward))
    && (forall x :: FocusIs(s, w, x) && (forall i: nat :: i < n ==> !StopsAt(s, w, i, x)) ==> j == Neighbour(0, n, forward))
  }

  lemma StripTargetsAreStops(s: State, w: WorkspaceId)
    requires Inv(s) && w in s.workspaces && StripIds(s, w) != []
    ensures NavigationSequence(s, w).Ok? && |NavigationSequence(s, w).value| == StopCount(s, w)
    ensures forall i: nat :: i < StopCount(s, w) ==>
              IsStop(s, w, i, NavigationSequence(s, w).value[i].0, NavigationSequence(s, w).value[i].1)
  {
    TargetsOfStrip(s, w);
    hide Inv, NavigationSequence, Representative;
  }

  lemma FloatingTargetsAreStops(s: State, w: WorkspaceId)
    requires Inv(s) && w in s.workspaces && StripIds(s, w) == []
    ensures NavigationSequence(s, w).Ok? && |NavigationSequence(s, w).value| == StopCount(s, w)
    ensures forall i: nat :: i < StopCount(s, w) ==>
              IsStop(s, w, i, NavigationSequence(s, w).value[i].0, NavigationSequence(s, w).value[i].1)
  {
    hide Inv;
  }

  lemma TargetsAreStops(s: State, w: WorkspaceId)
    requires Inv(s) && w in s.workspaces
    ensures NavigationSequence(s, w).Ok? && |NavigationSequence(s, w).value| == StopCount(s, w)
    ensures forall i: nat :: i < StopCount(s, w) ==>
              IsStop(s, w, i, NavigationSequence(s, w).value[i].0, NavigationSequence(s, w).value[i].1)
  {
    if StripIds(s, w) != [] {
      StripTargetsAreStops(s, w);
    } else {
      FloatingTargetsAreStops(s, w);
    }
  }

  /** A window is one stop at most. */
  lemma StopsDiffer(s: State, w: WorkspaceId, i: nat, j: nat, x: WindowId)
    requires Inv(s) && w in s.workspaces && StopsAt(s, w, i, x) && StopsAt(s, w, j, x)
    ensures i == j
  {
    if StripIds(s, w) != [] {
      if i < j {
        RepresentativesDiffer(s, w, i, j);
      } else if j < i {
        RepresentativesDiffer(s, w, j, i);
      }
    } else {
      assert WorkspaceOk(s.windows, s.columns, w, s.workspaces[w]);
    }
  }

  lemma StopHasOneWindow(s: State, w: WorkspaceId, i: nat, x: WindowId, y: WindowId, column: Option<ColumnId>)
    requires w in s.workspaces && IsStop(s, w, i, x, column) && StopsAt(s, w, i, y)
    ensures x == y
  {
    hide Representative;
  }

  lemma FocusedInIs(s: State, w: WorkspaceId)
    ensures match FocusedWindowIn(s, w)
            case None => forall x :: !FocusIs(s, w, x)
            case Some(x) => FocusIs(s, w, x) && forall y :: FocusIs(s, w, y) ==> y == x
  {
  }

  /** Where a window is among the targets. */
  lemma StopIndex(s: State, w: WorkspaceId, x: WindowId)
    requires Inv(s) && w in s.workspaces
    ensures NavigationSequence(s, w).Ok?
    ensures match IndexOf(x, WindowIds(NavigationSequence(s, w).value))
            case Some(i) => i < StopCount(s, w) && StopsAt(s, w, i, x)
            case None => forall i: nat :: i < StopCount(s, w) ==> !StopsAt(s, w, i, x)
  {
    TargetsAreStops(s, w);
    hide Inv, NavigationSequence, IsStop;
    var targets := NavigationSequence(s, w).value;
    var ids := WindowIds(targets);
    if IndexOf(x, ids).Some? {
      var i := IndexOf(x, ids).value;
      assert ids[i] == targets[i].0;
      assert IsStop(s, w, i, x, targets[i].1);
    } else {
      forall i: nat | i < StopCount(s, w)
        ensures !StopsAt(s, w, i, x)
      {
        assert ids[i] in ids;
        if StopsAt(s, w, i, x) {
          StopHasOneWindow(s, w, i, targets[i].0, x, targets[i].1);
        }
      }
    }
  }

  lemma NextIndexIsNextStop(s: State, w: WorkspaceId, forward: bool)
    requires Inv(s) && w in s.workspaces && StopCount(s, w) > 0
    ensures NavigationSequence(s, w).Ok? && |NavigationSequence(s, w).value| == StopCount(s, w)
    ensures IsNextStop(s, w, forward, NextIndex(NavigationSequence(s, w).value, FocusedWindowIn(s, w), forward))
  {
    TargetsAreStops(s, w);
    FocusedInIs(s, w);
    var targets := NavigationSequence(s, w).value;
    if FocusedWindowIn(s, w).Some? {
      var x := FocusedWindowIn(s, w).value;
      StopIndex(s, w, x);
      forall i: nat, j: nat | StopsAt(s, w, i, x) && StopsAt(s, w, j, x)
        ensures i == j
      {
        StopsDiffer(s, w, i, j, x);
      }
    }
    hide Inv, NavigationSequence, StopsAt, FocusIs, FocusedWindowIn, IndexOf;
  }

  // ---- one step ----------------------------------------------------------------------------------

  /** Only the focus moved: to window x, shown by its column, with workspace w active on its monitor. */
  ghost predicate OnlyFocusMoved(s: State, f: State, w: WorkspaceId, x: WindowId, column: Option<ColumnId>)
    requires w in s.workspaces
  {
    && f.focus.windowId == Some(x) && f.focus.columnId == column && f.focus.origin == UserCommand
    && f.focus.monitorId == Some(s.workspaces[w].monitorId)
    && f.windows == s.windows && f.config == s.config && f.monitors == s.monitors
    && OnlyShows(s.columns, f.columns, column, x)
    && SameWorkspaces(s.workspaces, f.workspaces)
    && (forall w' :: w' in s.workspaces && w' != w ==> f.workspaces[w'] == s.workspaces[w'])
    && FocusShown(f)
  }

  lemma FocusToMoves(s: State, w: WorkspaceId, x: WindowId, column: Option<ColumnId>)
    requires WellFormed(s) && w in s.workspaces && IsTarget(s, w, (x, column))
    ensures var step := FocusTo(s, w, x, column);
            step.result.Ok? && Inv(step.state) && w in step.state.workspaces && OnlyFocusMoved(s, step.state, w, x, column)
  {
    hide Topo, Members, OnlyFocusMoved;
    var m := s.workspaces[w].monitorId;
    SetFocusEstablishes(s, m, w, x, column, UserCommand);
    SetFocusMoves(s, w, x, column);
    var s1 := SetFocus(s, m, w, x, column, UserCommand);
    hide SetFocus, IsTarget, FocusShown;
    RevealSucceeds(s1, w, column);
    ScrollersOnlyScroll(s1, w, column, 0);
    ScrollKeepsMove(s, s1, RevealIfTiled(s1, w, column).state, w, x, column);
  }

  lemma SetFocusMoves(s: State, w: WorkspaceId, x: WindowId, column: Option<ColumnId>)
    requires WellFormed(s) && w in s.workspaces && IsTarget(s, w, (x, column))
    ensures var s1 := SetFocus(s, s.workspaces[w].monitorId, w, x, column, UserCommand);
            w in s1.workspaces && OnlyFocusMoved(s, s1, w, x, column)
  {
    hide Topo, Members, OnlyShows, FocusShown;
    var m := s.workspaces[w].monitorId;
    SetFocusEstablishes(s, m, w, x, column, UserCommand);
    SetFocusOnlyShows(s, m, w, x, column, UserCommand);
    SetFocusRecordsOrigin(s, m, w, x, column, UserCommand);
    SetFocusKeepsOthers(s, m, w, x, column, UserCommand);
    hide SetFocus, SamePlaces, Inv;
  }

  lemma ScrollKeepsMove(s: State, s1: State, f: State, w: WorkspaceId, x: WindowId, column: Option<ColumnId>)
    requires Inv(s1) && w in s.workspaces && w in s1.workspaces && OnlyFocusMoved(s, s1, w, x, column) && OnlyScrolled(s1, f, w)
    ensures Inv(f) && w in f.workspaces && OnlyFocusMoved(s, f, w, x, column)
  {
    hide Topo, Members, OnlyShows, FocusShown;
    ScrollKeepsInvariants(s1, f, w);
  }

  lemma SetFocusKeepsOthers(s: State, m: MonitorId, w: WorkspaceId, x: WindowId, column: Option<ColumnId>, origin: FocusOrigin)
    requires w in s.workspaces
    ensures w in SetFocus(s, m, w, x, column, origin).workspaces
    ensures forall w' :: w' in s.workspaces && w' != w ==>
              w' in SetFocus(s, m, w, x, column, origin).workspaces
              && SetFocus(s, m, w, x, column, origin).workspaces[w'] == s.workspaces[w']
  {
    ActivateFrame(s.(focus := s.focus.(monitorId := Some(m), windowId := Some(x), columnId := column, origin := origin)), m, w);
    hide Activate, Shown;
  }

  lemma StepGoes(s: State, w: WorkspaceId, forward: bool) returns (j: nat, x: WindowId, column: Option<ColumnId>)
    requires Inv(s) && w in s.workspaces && StopCount(s, w) > 0
    ensures IsNextStop(s, w, forward, j) && IsStop(s, w, j, x, column)
    ensures NavigateStrip(s, w, forward) == FocusTo(s, w, x, column) && IsTarget(s, w, (x, column))
  {
    NavigationSequenceWorks(s, w);
    TargetsAreStops(s, w);
    NextIndexIsNextStop(s, w, forward);
    hide Inv, NavigationSequence, IsStop, IsNextStop, IsTarget, FocusTo, NextIndex, StopCount;
    var targets := NavigationSequence(s, w).value;
    j := NextIndex(targets, FocusedWindowIn(s, w), forward);
    x, column := targets[j].0, targets[j].1;
  }

  lemma Dispatched(s: State, w: WorkspaceId, forward: bool, scope: NavigationScope)
    requires Inv(s) && s.monitors != map[] && IsCommandTarget(s, w)
    ensures CommandWorkspace(s) == Ok(w) && w in s.workspaces
    ensures var step := Navigate(s, w, forward, scope);
            step.result.Ok? ==> Dispatch(s, FocusEvent(forward, scope)) == Commit(step.state, Some(w))
  {
    hide IsCommandTarget;
    CommandWorkspaceIs(s, w);
    CommandWorkspaceIsActive(s);
    hide Inv, CommandWorkspace;
    CommandParts(s, w, forward, scope);
  }

  lemma CommitOnlyCounts(s: State, f: State, w: WorkspaceId, x: WindowId, column: Option<ColumnId>)
    requires Inv(f) && w in s.workspaces && w in f.workspaces && OnlyFocusMoved(s, f, w, x, column)
    ensures var step := Commit(f, Some(w));
            && step.result.Ok? && step.result.value.affectedWorkspaceId == Some(w)
            && OnlyFocusMoved(s, step.state, w, x, column)
  {
    CommitSucceeds(f, w);
    hide Inv, Commit, OnlyShows;
  }

  /**
   * Focus-next and focus-prev move the focus of the command's workspace to its next stop and change nothing else but
   * what the column there shows.
   */
  lemma FocusCommandActs(s: State, w: WorkspaceId, forward: bool) returns (j: nat, x: WindowId, column: Option<ColumnId>)
    requires Inv(s) && s.monitors != map[] && IsCommandTarget(s, w)
    requires w in s.workspaces ==> StopCount(s, w) > 0
    ensures w in s.workspaces && IsNextStop(s, w, forward, j) && IsStop(s, w, j, x, column)
    ensures var step := Dispatch(s, FocusEvent(forward, WorkspaceStrip));
            && step.result.Ok? && step.result.value.affectedWorkspaceId == Some(w)
            && OnlyFocusMoved(s, step.state, w, x, column)
            && (column.Some? && HasMonitor(s, w) && Fits(s, w) ==> OnScreen(step.state, w, column.value))
  {
    hide IsCommandTarget;
    Dispatched(s, w, forward, WorkspaceStrip);
    assert WellFormed(s);
    hide Inv, IsNextStop, IsStop, OnlyFocusMoved, NavigateStrip, FocusTo, Commit, Dispatch, IsTarget, OnScreen, Fits;
    StripScopeNavigates(s, w, forward);
    j, x, column := StepGoes(s, w, forward);
    FocusToMoves(s, w, x, column);
    CommitOnlyCounts(s, FocusTo(s, w, x, column).state, w, x, column);
    if column.Some? && HasMonitor(s, w) && Fits(s, w) {
      CommandedFocusIsOnScreen(s, w, x, column.value);
      CountKeepsScreen(FocusTo(s, w, x, column).state, w, column.value);
    }
  }

  lemma CountKeepsScreen(f: State, w: WorkspaceId, c: ColumnId)
    requires OnScreen(f, w, c)
    ensures OnScreen(Commit(f, Some(w)).state, w, c)
  {
    var f1 := f.(runtime := f.runtime.(stateVersion := f.runtime.stateVersion + 1));
    assert Commit(f, Some(w)).state == f1;
    assert HasMonitor(f, w);
    SamePictureSameScreen(f, f1, w, c);
    hide OnScreen, Commit;
  }

  /** In a workspace without a stop nothing happens but the count. */
  lemma NowhereToGo(s: State, w: WorkspaceId, forward: bool)
    requires Inv(s) && s.monitors != map[] && IsCommandTarget(s, w)
    requires w in s.workspaces && StopCount(s, w) == 0
    ensures var step := Dispatch(s, FocusEvent(forward, WorkspaceStrip));
            && step.state == s.(runtime := s.runtime.(stateVersion := s.runtime.stateVersion + 1))
            && step.result.Ok? && step.result.value.affectedWorkspaceId == Some(w)
  {
    hide IsCommandTarget;
    Dispatched(s, w, forward, WorkspaceStrip);
    StripScopeNavigates(s, w, forward);
    TargetsAreStops(s, w);
    CommitSucceeds(s, w);
    hide Inv, NavigationSequence, Commit, Dispatch;
  }

  /** The focused column of the workspace has several tabs. */
  predicate HasTabs(s: State, w: WorkspaceId)
    requires w in s.workspaces
  {
    && FocusInStrip(s, w) && s.focus.columnId.value in s.columns
    && s.columns[s.focus.columnId.value].mode == Tabbed && |s.columns[s.focus.columnId.value].orderedWindowIds| >= 2
  }

  /** Stepping through tabs is stepping along the strip where there are no tabs to step through. */
  lemma TabScopeFallsBack(s: State, w: WorkspaceId, forward: bool)
    requires Inv(s) && s.monitors != map[] && IsCommandTarget(s, w)
    ensures w in s.workspaces
    ensures !HasTabs(s, w) ==> Dispatch(s, FocusEvent(forward, ColumnTabs)) == Dispatch(s, FocusEvent(forward, WorkspaceStrip))
    ensures HasTabs(s, w) ==>
              exists i: nat :: i < |s.columns[s.focus.columnId.value].orderedWindowIds| && TabAt(s, w, s.focus.columnId.value, i)
  {
    hide IsCommandTarget;
    Dispatched(s, w, forward, ColumnTabs);
    if HasTabs(s, w) {
      TabIsSomewhere(s, w, s.focus.columnId.value);
    } else {
      FocusedColumnKnown(s, w);
      hide Inv, NavigateStrip;
      assert Navigate(s, w, forward, ColumnTabs) == NavigateStrip(s, w, forward);
      SameNavigationSameDispatch(s, w, forward);
    }
  }

  lemma FocusedColumnKnown(s: State, w: WorkspaceId)
    requires Inv(s) && w in s.workspaces
    ensures FocusInStrip(s, w) ==> s.focus.columnId.value in s.columns
  {
    assert WorkspaceOk(s.windows, s.columns, w, s.workspaces[w]);
    if FocusInStrip(s, w) {
      assert StripColumnOk(s.windows, s.columns, w, s.focus.columnId.value);
    }
  }

  lemma SameNavigationSameDispatch(s: State, w: WorkspaceId, forward: bool)
    requires CommandWorkspace(s) == Ok(w) && Navigate(s, w, forward, ColumnTabs) == NavigateStrip(s, w, forward)
    ensures Dispatch(s, FocusEvent(forward, ColumnTabs)) == Dispatch(s, FocusEvent(forward, WorkspaceStrip))
  {
    StripScopeNavigates(s, w, forward);
    hide CommandWorkspace, Navigate, NavigateStrip, Commit;
  }

  lemma TabIsSomewhere(s: State, w: WorkspaceId, c: ColumnId)
    requires Inv(s) && w in s.workspaces && c in StripIds(s, w) && s.focus.columnId == Some(c) && CyclesTabs(s, c)
    ensures exists i: nat :: i < |s.columns[c].orderedWindowIds| && TabAt(s, w, c, i)
  {
    assert ColumnOk(s.windows, s.workspaces, c, s.columns[c]);
    var i: nat :| i < |s.columns[c].orderedWindowIds| && s.columns[c].orderedWindowIds[i] == s.columns[c].tabSelection.value;
    assert TabAt(s, w, c, i);
  }

  /** A step through the tabs keeps the column on the screen. */
  lemma TabStepIsOnScreen(s: State, w: WorkspaceId, c: ColumnId, i: nat, forward: bool)
    requires TabAt(s, w, c, i) && HasMonitor(s, w) && Fits(s, w)
    ensures OnScreen(Dispatch(s, FocusEvent(forward, ColumnTabs)).state, w, c)
  {
    TabIsFoundAt(s, w, c, i);
    CycleTabSteps(s, w, c, i, forward);
    CommandParts(s, w, forward, ColumnTabs);
    TabScopeCycles(s, w, c, forward);
    var column := s.columns[c];
    var x := column.orderedWindowIds[StepTab(|column.orderedWindowIds|, i, forward)];
    var s0 := s.(columns := s.columns[c := column.(tabSelection := Some(x))]);
    SelectedIsTarget(s, w, c, x);
    hide Dispatch, CommandWorkspace, Navigate, FocusTo, Commit, OnScreen, Fits, TabAt, StepsTab, Inv, WellFormed;
    CommandedFocusIsOnScreen(s0, w, x, c);
    CountKeepsScreen(CycleTab(s, w, c, forward).state, w, c);
  }

  lemma SelectedIsTarget(s: State, w: WorkspaceId, c: ColumnId, x: WindowId)
    requires Inv(s) && HasMonitor(s, w) && Fits(s, w) && c in StripIds(s, w) && c in s.columns && x in s.columns[c].orderedWindowIds
    ensures var s0 := s.(columns := s.columns[c := s.columns[c].(tabSelection := Some(x))]);
            WellFormed(s0) && IsTarget(s0, w, (x, Some(c))) && HasMonitor(s0, w) && Fits(s0, w)
  {
    var selected := s.columns[c].(tabSelection := Some(x));
    var s0 := s.(columns := s.columns[c := selected]);
    assert ColumnOk(s.windows, s.workspaces, c, s.columns[c]);
    assert TiledIn(s.windows, s.workspaces, c, x);
    assert WorkspaceOk(s.windows, s.columns, w, s.workspaces[w]) && StripColumnOk(s.windows, s.columns, w, c);
    hide Topo, Members;
    ReplacedColumn(s, c, selected);
    SameShapesSameContent(s, s0, w);
    hide ContentWidth;
  }
}
