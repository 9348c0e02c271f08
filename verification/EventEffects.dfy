// Smaller effects of events: which window a lost focus lands on, events that fail, configuration, arriving monitors.
module EventEffects {
  import opened Wrappers
  import opened MachineInt
  import opened Domain
  import opened Layout
  import opened Model
  import opened Invariants
  import opened Normalization
  import opened NormalizationExact
  import opened Events
  import opened Reducer
  import opened StepInvariants
  import opened PlacementProofs
  import opened RemovalProofs
  import opened RunInvariants
  import opened DestroyProofs
  import opened NavigationProofs
  import opened OutcomeProofs

  // ---- the window a lost focus lands on ------------------------------------------------------------

  /** x is the focused window of column c, which holds others. */
  ghost predicate SharesColumn(s: State, x: WindowId, c: ColumnId) {
    && Inv(s) && FocusShown(s) && s.focus.windowId == Some(x) && s.windows[x].isManaged
    && s.windows[x].columnId == Some(c) && c in s.columns
    && exists y :: y in s.columns[c].orderedWindowIds && y != x
  }

  /** y is the first of the windows of a column that is not x. */
  ghost predicate IsFirstBut(ids: seq<WindowId>, x: WindowId, y: WindowId) {
    exists i :: 0 <= i < |ids| && ids[i] == y && y != x && forall j :: 0 <= j < i ==> ids[j] == x
  }

  lemma {:induction false} FirstLeft(ids: seq<WindowId>, x: WindowId)
    requires exists y :: y in ids && y != x
    ensures Remove(ids, x) != [] && IsFirstBut(ids, x, Remove(ids, x)[0])
  {
    if ids[0] != x {
      assert ids[0] == ids[0];
    } else {
      var z :| z in ids && z != x;
      assert z in ids[1..];
      FirstLeft(ids[1..], x);
      var y := Remove(ids[1..], x)[0];
      var i :| 0 <= i < |ids[1..]| && ids[1..][i] == y && y != x && forall j :: 0 <= j < i ==> ids[1..][j] == x;
      assert ids[i + 1] == y;
      forall j | 0 <= j < i + 1
        ensures ids[j] == x
      {
        assert j > 0 ==> ids[j] == ids[1..][j - 1];
      }
    }
  }

  lemma DetachedShows(column: Column, x: WindowId)
    requires Representative(column) == Some(x) && Remove(column.orderedWindowIds, x) != []
    requires IsMember(column, column.tabSelection) && IsMember(column, column.activeWindowId)
    ensures Representative(Detached(column, x))
         == Some(if column.tabSelection != Some(x) then column.tabSelection.value else Remove(column.orderedWindowIds, x)[0])
  {
    hide Remove;
  }

  /**
   * When the focused window of a column is destroyed and others are left, the focus falls on the tab that was selected
   * instead of it, else on the first window that is left.
   */
  lemma FocusFallsOn(s: State, x: WindowId, c: ColumnId) returns (y: WindowId)
    requires SharesColumn(s, x, c)
    ensures HandleWindowDestroyed(s, x).state.focus.windowId == Some(y)
    ensures s.columns[c].tabSelection.Some?
    ensures if s.columns[c].tabSelection != Some(x) then Some(y) == s.columns[c].tabSelection
            else IsFirstBut(s.columns[c].orderedWindowIds, x, y)
  {
    hide Topo, Members;
    ColumnChoices(s, x, c);
    FirstLeft(s.columns[c].orderedWindowIds, x);
    DetachedShows(s.columns[c], x);
    y := Representative(Detached(s.columns[c], x)).value;
    RefocusedOn(s, x, c);
    hide Representative, Detached, IsFirstBut;
    DestroyKeepsRefocus(s, x);
  }

  lemma ColumnChoices(s: State, x: WindowId, c: ColumnId)
    requires SharesColumn(s, x, c)
    ensures s.windows[x].workspaceId in s.workspaces
    ensures IsMember(s.columns[c], s.columns[c].tabSelection) && IsMember(s.columns[c], s.columns[c].activeWindowId)
    ensures Representative(s.columns[c]) == Some(x)
  {
    assert WindowOk(s.columns, s.workspaces, x, s.windows[x]);
    assert ColumnOk(s.windows, s.workspaces, c, s.columns[c]);
  }

  lemma RefocusedOn(s: State, x: WindowId, c: ColumnId)
    requires SharesColumn(s, x, c) && s.windows[x].workspaceId in s.workspaces
    requires Remove(s.columns[c].orderedWindowIds, x) != [] && Representative(Detached(s.columns[c], x)).Some?
    ensures Refocused(s, x).state.focus.windowId == Representative(Detached(s.columns[c], x))
  {
    hide Topo, Members;
    RemoveWindowKeeps(s, x);
    RemovedColumn(s, x, c);
    var s1, w := RemoveWindow(s, x).state, s.windows[x].workspaceId;
    hide RemoveWindow, Detached, Remove;
    PreferredStaysInStrip(s, s1, x, w, c);
    RetargetMoves(s1, w, Some(c));
    RetargetAims(s1, w, Some(c));
  }

  lemma RemovedColumn(s: State, x: WindowId, c: ColumnId)
    requires x in s.windows && s.windows[x].columnId == Some(c) && c in s.columns && Remove(s.columns[c].orderedWindowIds, x) != []
    ensures RemoveWindow(s, x).result.Ok?
    ensures var s1 := RemoveWindow(s, x).state;
            c in s1.columns && s1.columns[c] == Detached(s.columns[c], x) && s1.focus == s.focus
  {
    hide Remove;
  }

  /** Normalising and clamping after a destroy leave the focus where it is. */
  lemma DestroyKeepsRefocus(s: State, x: WindowId)
    requires Inv(s) && x in s.windows && s.windows[x].isManaged && s.windows[x].workspaceId in s.workspaces
    ensures HandleWindowDestroyed(s, x).state.focus.windowId == Refocused(s, x).state.focus.windowId
  {
    hide Topo, Members;
    ManagedHasPlace(s, x);
    RefocusedFrame(s, x);
    DestroyedParts(s, x);
    RefocusSucceeds(s, x);
    RefocusedEmptiness(s, x);
    var s2, w := Refocused(s, x).state, s.windows[x].workspaceId;
    hide Refocused, RemoveWindow;
    ClampedSettles(s2, s.workspaces[w].monitorId, w);
  }

  /** A focus that moves on because its window is gone says so, and stays on the monitor. */
  lemma LostFocusRecords(s: State, x: WindowId)
    requires Inv(s) && x in s.windows && s.windows[x].isManaged && s.focus.windowId == Some(x)
    ensures s.windows[x].workspaceId in s.workspaces
    ensures var f := HandleWindowDestroyed(s, x).state;
            f.focus.origin == ReducerDefault && f.focus.monitorId == Some(s.workspaces[s.windows[x].workspaceId].monitorId)
  {
    hide Topo, Members;
    ManagedHasPlace(s, x);
    RemoveWindowKeeps(s, x);
    RefocusedFrame(s, x);
    DestroyedParts(s, x);
    RefocusSucceeds(s, x);
    RefocusedEmptiness(s, x);
    var s1, s2, w := RemoveWindow(s, x).state, Refocused(s, x).state, s.windows[x].workspaceId;
    assert s1.focus == s.focus && w in s1.workspaces && s1.workspaces[w].monitorId == s.workspaces[w].monitorId;
    hide RemoveWindow;
    RetargetRecords(s1, w, s.windows[x].columnId);
    hide RetargetFocus;
    assert s2.focus.origin == ReducerDefault;
    hide Refocused;
    ClampedSettles(s2, s.workspaces[w].monitorId, w);
  }

  lemma RetargetRecords(s: State, w: WorkspaceId, preferred: Option<ColumnId>)
    requires w in s.workspaces
    ensures var f := RetargetFocus(s, w, preferred).state;
            f.focus.origin == ReducerDefault && f.focus.monitorId == Some(s.workspaces[w].monitorId)
  {
    hide NextFocus;
    var m, aim := s.workspaces[w].monitorId, NextFocus(s, s.workspaces[w], preferred);
    if aim.Some? {
      var (x, column) := aim.value;
      SetFocusOnlyShows(s, m, w, x, column, ReducerDefault);
      SetFocusRecordsOrigin(s, m, w, x, column, ReducerDefault);
      hide SetFocus;
      ScrollersOnlyScroll(SetFocus(s, m, w, x, column, ReducerDefault), w, column, 0);
    }
  }

  // ---- events that fail, and unmanaged windows -------------------------------------------------------

  /** Destroying a window that is not known, or an unmanaged one whose workspace is gone, fails and changes nothing. */
  lemma DestroyUnknown(s: State, x: WindowId)
    ensures x !in s.windows ==> Dispatch(s, WindowDestroyed(x)) == Fail(s, UnknownWindow(x))
    ensures x in s.windows && s.windows[x].workspaceId !in s.workspaces ==>
              Dispatch(s, WindowDestroyed(x)) == Fail(s, UnknownWorkspace(s.windows[x].workspaceId))
  {
  }

  /** A discovery on an unknown monitor fails and changes nothing. */
  lemma DiscoverNowhere(s: State, d: Discovery)
    ensures d.monitorId !in s.monitors ==> Dispatch(s, WindowDiscovered(d)) == Fail(s, UnknownMonitor(d.monitorId))
  {
  }

  /** An observed focus that does not fit is turned down for the first reason that applies. */
  lemma FocusTurnedDown(s: State, m: MonitorId, x: WindowId, origin: FocusOrigin)
    ensures var step := Dispatch(s, WindowFocusObserved(m, x, origin));
            && (m !in s.monitors ==> step == Fail(s, UnknownMonitor(m)))
            && (m in s.monitors && x !in s.windows ==> step == Fail(s, UnknownWindow(x)))
            && (m in s.monitors && x in s.windows && s.windows[x].workspaceId !in s.workspaces ==>
                  step == Fail(s, UnknownWorkspace(s.windows[x].workspaceId)))
            && (m in s.monitors && x in s.windows && s.windows[x].workspaceId in s.workspaces
                && s.workspaces[s.windows[x].workspaceId].monitorId != m ==>
                  step == Fail(s, InvalidEvent("focused window monitor does not match workspace monitor")))
  {
    hide SetFocus, RevealIfTiled;
  }

  /** A window that is not managed leaves without moving any other or the focus, unless it had the focus. */
  lemma UnmanagedDestroyed(s: State, x: WindowId)
    requires Inv(s) && x in s.windows && !s.windows[x].isManaged && s.windows[x].workspaceId in s.workspaces
    ensures var f := HandleWindowDestroyed(s, x).state;
            && f.windows == s.windows - {x}
            && (forall c :: c in s.columns ==> c in f.columns && f.columns[c].orderedWindowIds == s.columns[c].orderedWindowIds)
            && f.columns.Keys == s.columns.Keys
            && (s.focus.windowId != Some(x) ==> f.columns == s.columns && f.focus.windowId == s.focus.windowId && f.focus.columnId == s.focus.columnId)
  {
    hide Topo, Members, IsEmpty;
    UnmanagedRefocused(s, x);
    RemoveWindowKeeps(s, x);
    DestroyedParts(s, x);
    var s2, w := Refocused(s, x).state, s.windows[x].workspaceId;
    var m := s.workspaces[w].monitorId;
    hide Refocused, RemoveWindow;
    EnsureTailSettles(s2, m);
    ScrollersOnlyScroll(EnsureTail(s2, m), w, None, 0);
  }

  lemma UnmanagedRefocused(s: State, x: WindowId)
    requires Inv(s) && x in s.windows && !s.windows[x].isManaged && s.windows[x].workspaceId in s.workspaces
    ensures var f := Refocused(s, x).state;
            && Inv(f) && f.windows == s.windows - {x} && f.columns.Keys == s.columns.Keys
            && (forall c :: c in s.columns ==> f.columns[c].orderedWindowIds == s.columns[c].orderedWindowIds)
            && (s.focus.windowId != Some(x) ==> f.columns == s.columns && f.focus == s.focus)
  {
    hide Topo, Members;
    RemoveWindowKeeps(s, x);
    UnmanagedRemoved(s, x);
    RefocusedKeeps(s, x);
    var s1, w := RemoveWindow(s, x).state, s.windows[x].workspaceId;
    hide RemoveWindow, Inv;
    if s.focus.windowId == Some(x) {
      RetargetMoves(s1, w, None);
      hide RetargetFocus;
    }
  }

  lemma UnmanagedRemoved(s: State, x: WindowId)
    requires Membership(s) && x in s.windows && !s.windows[x].isManaged && s.windows[x].workspaceId in s.workspaces
    ensures RemoveWindow(s, x).result.Ok? && s.windows[x].columnId.None?
    ensures var s1 := RemoveWindow(s, x).state;
            s1.windows == s.windows - {x} && s1.columns == s.columns && s1.focus == s.focus
  {
    assert WindowOk(s.columns, s.workspaces, x, s.windows[x]);
    hide Members;
  }

  // ---- configuration ---------------------------------------------------------------------------------

  /** A reloaded configuration replaces the old one, new rules replace their count, and requests only count. */
  lemma ConfigurationEvents(s: State, projection: ConfigProjection, count: nat)
    ensures var next := s.runtime.stateVersion + 1;
            var s1 := s.(runtime := s.runtime.(stateVersion := next));
            && Dispatch(s, ConfigReloadSucceeded(projection)) == Done(s1.(config := projection), Transition(next, None, None))
            && Dispatch(s, RulesUpdated(count)) == Done(s1.(config := s.config.(activeRuleCount := count)), Transition(next, None, None))
            && Dispatch(s, ConfigReloadRequested) == Done(s1, Transition(next, None, None))
            && Dispatch(s, ConfigReloadFailed) == Done(s1, Transition(next, None, None))
            && Dispatch(s, ReconcileRequested) == Done(s1, Transition(next, None, None))
            && Dispatch(s, FullScanRequested) == Done(s1, Transition(next, None, None))
  {
    hide HandleWindowDiscovered, HandleWindowDestroyed, HandleFocusObserved, NavigateFrom, ScrollStripOf, CommandWorkspace, Recompute;
  }

  // ---- what a workspace remembers --------------------------------------------------------------------

  /** A workspace remembers the window that was focused in it last, with its column. */
  lemma FocusIsRemembered(s: State, m: MonitorId, x: WindowId, origin: FocusOrigin)
    requires WellFormed(s) && m in s.monitors && x in s.windows && s.windows[x].workspaceId in s.workspaces
    requires s.workspaces[s.windows[x].workspaceId].monitorId == m
    ensures var w := s.windows[x].workspaceId;
            var f := HandleFocusObserved(s, m, x, origin).state;
            && w in f.workspaces
            && f.workspaces[w].rememberedWindowId == Some(x) && f.workspaces[w].rememberedColumnId == s.windows[x].columnId
  {
    hide Topo, Members;
    var w, column := s.windows[x].workspaceId, s.windows[x].columnId;
    ObservedFocusWorks(s, m, x, origin);
    SetFocusRemembers(s, m, w, x, column, origin);
    hide SetFocus;
    ScrollersOnlyScroll(SetFocus(s, m, w, x, column, origin), w, column, 0);
  }

  lemma SetFocusRemembers(s: State, m: MonitorId, w: WorkspaceId, x: WindowId, column: Option<ColumnId>, origin: FocusOrigin)
    requires w in s.workspaces
    ensures var f := SetFocus(s, m, w, x, column, origin);
            w in f.workspaces && f.workspaces[w].rememberedWindowId == Some(x) && f.workspaces[w].rememberedColumnId == column
  {
    ActivateFrame(s.(focus := s.focus.(monitorId := Some(m), windowId := Some(x), columnId := column, origin := origin)), m, w);
    hide Activate, Shown;
  }

  /** A removed window is forgotten, and its column with it once that is gone; other memories stay. */
  lemma RemovedIsForgotten(s: State, x: WindowId)
    requires WellFormed(s) && x in s.windows && s.windows[x].isManaged
    ensures s.windows[x].workspaceId in s.workspaces
    ensures var s1 := RemoveWindow(s, x).state;
            var w, home := s.windows[x].workspaceId, s.windows[x].columnId;
            && w in s1.workspaces
            && var before, after := s.workspaces[w], s1.workspaces[w];
            && after.rememberedWindowId == (if before.rememberedWindowId == Some(x) then None else before.rememberedWindowId)
            && after.rememberedColumnId == (if home.Some? && before.rememberedColumnId == home && home.value !in s1.columns then None
                                            else before.rememberedColumnId)
  {
    hide Topo;
    RemoveWindowLeaves(s, x);
    HomeInStrip(s, x);
    assert s.windows[x].columnId.Some? ==> s.windows[x].columnId.value in s.columns by {
      assert WindowOk(s.columns, s.workspaces, x, s.windows[x]);
    }
    hide Members;
    DetachKeepsMemories(s, x);
    DetachLeaves(s, x);
    hide DetachWindow, Remove;
  }

  lemma DetachKeepsMemories(s: State, x: WindowId)
    requires x in s.windows && s.windows[x].workspaceId in s.workspaces && DetachWindow(s, x).result.Ok?
    ensures var s1, w := DetachWindow(s, x).state, s.windows[x].workspaceId;
            && w in s1.workspaces
            && s1.workspaces[w].rememberedWindowId == s.workspaces[w].rememberedWindowId
            && s1.workspaces[w].rememberedColumnId == s.workspaces[w].rememberedColumnId
  {
    hide Remove;
  }

  // ---- the stacking of floating windows ----------------------------------------------------------------

  /** A new floating window is stacked by the number of floating windows; a removed one loses its place. */
  lemma FloatersAreStacked(s: State, w: WorkspaceId, d: Discovery, x: WindowId, preserve: bool)
    requires WellFormed(s) && w in s.workspaces && d.managed && d.layer != Tiled && x !in s.windows
    ensures var floating := s.workspaces[w].floatingLayer;
            var s1 := Place(s, w, d, x, preserve).state;
            w in s1.workspaces && s1.workspaces[w].floatingLayer.zHints == floating.zHints[x := |floating.orderedWindowIds| + 1]
    ensures forall y :: y in s.windows && s.windows[y].columnId.None? && s.windows[y].workspaceId == w ==>
              var s1 := RemoveWindow(s, y).state;
              w in s1.workspaces && s1.workspaces[w].floatingLayer.zHints == s.workspaces[w].floatingLayer.zHints - {y}
  {
    hide Topo;
    assert WorkspaceOk(s.windows, s.columns, w, s.workspaces[w]);
    forall y | y in s.workspaces[w].floatingLayer.orderedWindowIds
      ensures y != x
    {
      assert FloatsIn(s.windows, w, y);
    }
    hide Members, Remove;
  }

  // ---- normal form after an event ----------------------------------------------------------------------

  /** The set of monitor m is in the form normalisation leaves behind. */
  ghost predicate MonitorIsNormal(s: State, m: MonitorId) {
    m in s.monitors && s.monitors[m].workspaceSetId in s.workspaceSets && SetIsNormal(s, s.monitors[m].workspaceSetId)
  }

  lemma EnsureTailIsNormal(s: State, m: MonitorId)
    requires WellFormed(s) && m in s.monitors
    ensures MonitorIsNormal(EnsureTail(s, m), m)
  {
    assert MonitorOk(s.workspaceSets, s.focus.activeByMonitor, m, s.monitors[m]);
    var t := s.monitors[m].workspaceSetId;
    NormalizeEstablishesNormalForm(s, t);
    NormalizeKeepsInvariants(s, t);
    NormalizeKeepsSet(s, t);
    hide Topo, Members, Normalize, SetIsNormal;
  }

  lemma ScrollKeepsNormal(s: State, f: State, w: WorkspaceId, m: MonitorId)
    requires MonitorIsNormal(s, m) && OnlyScrolled(s, f, w)
    ensures MonitorIsNormal(f, m)
  {
    if f != s {
      var offset: i32 :| f == WithOffset(s, w, offset);
      forall w' : WorkspaceId
        ensures IsEmpty(f.columns, f.workspaces, w') <==> IsEmpty(s.columns, s.workspaces, w')
        ensures w' in s.workspaces <==> w' in f.workspaces
        ensures w' in s.workspaces ==> f.workspaces[w'].name == s.workspaces[w'].name
      {
      }
      hide IsEmpty;
    }
  }

  /** Every discovery leaves the set of its monitor in normal form. */
  lemma DiscoveryNormalizes(s: State, d: Discovery)
    requires Inv(s) && d.monitorId in s.monitors
    ensures MonitorIsNormal(HandleWindowDiscovered(s, d).state, d.monitorId)
  {
    hide Topo, Members, MonitorIsNormal;
    ActiveKnown(s, d.monitorId);
    var w := ActiveWorkspace(s, d.monitorId).value;
    ActiveExists(s, d.monitorId, w);
    DiscoverKeepsWellFormed(s, w, d);
    DiscoveryExits(s, d, w);
    var s1, column := Discover(s, w, d).state, Discover(s, w, d).result.value;
    EnsureTailIsNormal(s1, d.monitorId);
    SetFocusEstablishes(s1, d.monitorId, w, s.runtime.nextWindowId, column, ReducerDefault);
    var s2 := SetFocus(s1, d.monitorId, w, s.runtime.nextWindowId, column, ReducerDefault);
    hide Discover, SetFocus, HandleWindowDiscovered;
    EnsureTailIsNormal(s2, d.monitorId);
    var s3 := EnsureTail(s2, d.monitorId);
    ScrollersOnlyScroll(s3, w, column, 0);
    var s4 := ClampScrollOffset(s3, w).state;
    ScrollKeepsNormal(s3, s4, w, d.monitorId);
    ScrollersOnlyScroll(s4, w, column, 0);
    ScrollKeepsNormal(s4, RevealIfTiled(s4, w, column).state, w, d.monitorId);
  }

  /** Every destruction of a managed window does, whether it succeeds or not. */
  lemma DestructionNormalizes(s: State, x: WindowId)
    requires Inv(s) && x in s.windows && s.windows[x].isManaged
    ensures s.windows[x].workspaceId in s.workspaces
    ensures MonitorIsNormal(HandleWindowDestroyed(s, x).state, s.workspaces[s.windows[x].workspaceId].monitorId)
  {
    hide Topo, Members, MonitorIsNormal, IsEmpty;
    ManagedHasPlace(s, x);
    var w := s.windows[x].workspaceId;
    var m := s.workspaces[w].monitorId;
    HasItsMonitor(s, w);
    RefocusedFrame(s, x);
    DestroyedParts(s, x);
    RefocusSucceeds(s, x);
    var s2 := Refocused(s, x).state;
    assert WellFormed(s2) && m in s2.monitors;
    hide Refocused, RemoveWindow;
    EnsureTailIsNormal(s2, m);
    ScrollersOnlyScroll(EnsureTail(s2, m), w, None, 0);
    ScrollKeepsNormal(EnsureTail(s2, m), ClampScrollOffset(EnsureTail(s2, m), w).state, w, m);
  }
}
