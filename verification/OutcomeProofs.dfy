// What one event does: where a discovered window lands, and whom an observed focus or a scroll command moves.
module OutcomeProofs {
  import opened Wrappers
  import opened MachineInt
  import opened Domain
  import opened Layout
  import opened Model
  import opened Events
  import opened Invariants
  import opened Normalization
  import opened Reducer
  import opened StepInvariants
  import opened PlacementProofs
  import opened RemovalProofs
  import opened RunInvariants
  import opened DestroyProofs
  import opened StripGeometry

  // ---- where a new window lands ----------------------------------------------------------------

  /** The strip `after` is `before` with column c at position i. */
  ghost predicate InsertedAt(before: seq<ColumnId>, after: seq<ColumnId>, i: nat, c: ColumnId) {
    i <= |before| && after == before[..i] + [c] + before[i..]
  }

  predicate GoesToEnd(placement: WindowPlacement) { placement.AppendToFocusedColumn? || placement.AppendToWorkspaceEnd? }

  ghost predicate IsAt(ids: seq<ColumnId>, c: ColumnId, k: nat) { k < |ids| && ids[k] == c }

  /** Directly before or after column c, as the placement says. */
  ghost predicate IsBeside(ids: seq<ColumnId>, c: ColumnId, placement: WindowPlacement, i: nat) {
    exists k: nat :: IsAt(ids, c, k) && i == if placement.NewColumnBeforeFocus? then k else k + 1
  }

  predicate FocusInStrip(s: State, w: WorkspaceId)
    requires w in s.workspaces
  {
    s.focus.columnId.Some? && s.focus.columnId.value in s.workspaces[w].strip.orderedColumnIds
  }

  /** The focus is on a fullscreen window of workspace w that came from this workspace. */
  predicate WouldRestore(s: State, w: WorkspaceId) {
    && s.focus.windowId.Some? && s.focus.windowId.value in s.windows
    && var window := s.windows[s.focus.windowId.value];
    && window.workspaceId == w && (window.layer == Fullscreen || window.isFullscreen)
    && window.restoreTarget.Some? && window.restoreTarget.value.workspaceId == w
  }

  /**
   * The position of a new column: at the end; beside the focused column; with a fullscreen focus, beside the column
   * that was left for it or at the place of that column; else at an end of the strip.
   */
  ghost predicate LandsAt(s: State, w: WorkspaceId, placement: WindowPlacement, i: nat)
    requires w in s.workspaces
  {
    var ids := s.workspaces[w].strip.orderedColumnIds;
    if GoesToEnd(placement) then i == |ids|
    else if FocusInStrip(s, w) then IsBeside(ids, s.focus.columnId.value, placement, i)
    else if !WouldRestore(s, w) then i == if placement.NewColumnBeforeFocus? then 0 else |ids|
    else
      var target := s.windows[s.focus.windowId.value].restoreTarget.value;
      if target.columnId.Some? && target.columnId.value in ids then IsBeside(ids, target.columnId.value, placement, i)
      else if target.columnIndex.Some? then i == Min(target.columnIndex.value, |ids|)
      else i == if placement.NewColumnBeforeFocus? then 0 else |ids|
  }

  /** The column a placement makes for window x: the mode and the width of the event, or a normal column of half the monitor. */
  ghost predicate IsNewColumn(column: Column, c: ColumnId, placement: WindowPlacement, x: WindowId) {
    match placement
    case AppendToFocusedColumn => column == Column(c, Normal, [x], Some(x), MonitorFraction(1, 2), false, Some(x))
    case NewColumnAfterFocus(mode, width) => column == Column(c, mode, [x], Some(x), width, false, Some(x))
    case NewColumnBeforeFocus(mode, width) => column == Column(c, mode, [x], Some(x), width, false, Some(x))
    case AppendToWorkspaceEnd(mode, width) => column == Column(c, mode, [x], Some(x), width, false, Some(x))
  }

  /** `after` is `before` with x appended, selected if the column is tabbed, and active at most. */
  ghost predicate HasAppended(before: Column, after: Column, x: WindowId) {
    && after == before.(orderedWindowIds := before.orderedWindowIds + [x],
                        activeWindowId := after.activeWindowId,
                        tabSelection := if before.mode == Tabbed then Some(x) else before.tabSelection)
    && (after.activeWindowId == before.activeWindowId || after.activeWindowId == Some(x))
  }

  /** The workspace and the column after window x has come in. */
  ghost predicate Lands(s: State, workspaces1: Workspaces, columns1: Columns, w: WorkspaceId, d: Discovery, x: WindowId, column: Option<ColumnId>)
    requires w in s.workspaces && w in workspaces1
  {
    var before, after := s.workspaces[w], workspaces1[w];
    var ids, ids1 := before.strip.orderedColumnIds, after.strip.orderedColumnIds;
    if d.layer != Tiled then
      && column == None && ids1 == ids
      && after.floatingLayer.orderedWindowIds == before.floatingLayer.orderedWindowIds + [x]
    else if d.placement.AppendToFocusedColumn? && FocusInStrip(s, w) then
      && column == s.focus.columnId && ids1 == ids
      && after.floatingLayer.orderedWindowIds == before.floatingLayer.orderedWindowIds
      && column.value in s.columns && column.value in columns1
      && HasAppended(s.columns[column.value], columns1[column.value], x)
    else
      && column == Some(s.runtime.nextColumnId) && column.value !in s.columns && column.value in columns1
      && IsNewColumn(columns1[column.value], column.value, d.placement, x)
      && after.floatingLayer.orderedWindowIds == before.floatingLayer.orderedWindowIds
      && exists i: nat :: LandsAt(s, w, d.placement, i) && InsertedAt(ids, ids1, i, column.value)
  }

  lemma InsertIndexLands(s: State, w: WorkspaceId, placement: WindowPlacement, preserve: bool)
    requires w in s.workspaces
    ensures var ids := s.workspaces[w].strip.orderedColumnIds;
            LandsAt(s, w, placement, InsertIndex(ids, RequestFor(s, w, placement, preserve)))
  {
    var ids := s.workspaces[w].strip.orderedColumnIds;
    var anchor := DiscoveryAnchor(s, w);
    if anchor.Some? && !GoesToEnd(placement) {
      assert anchor.value in ids;
      assert IsAt(ids, anchor.value, IndexOf(anchor.value, ids).value);
    }
  }

  lemma PlaceLands(s: State, w: WorkspaceId, d: Discovery, x: WindowId, preserve: bool)
    requires WellFormed(s) && x !in s.windows && w in s.workspaces && d.managed
    ensures var placed := Place(s, w, d, x, preserve);
            && placed.result.Ok? && w in placed.state.workspaces
            && Lands(s, placed.state.workspaces, placed.state.columns, w, d, x, placed.result.value)
            && OthersStay(s, placed.state.columns, placed.state.workspaces, w, placed.result.value)
  {
    hide Topo, LandsAt;
    assert WorkspaceOk(s.windows, s.columns, w, s.workspaces[w]);
    if d.layer != Tiled {
      FloaterLands(s, w, d, x);
    } else if d.placement.AppendToFocusedColumn? && FocusedColumnIn(s, w).Some? {
      assert StripColumnOk(s.windows, s.columns, w, FocusedColumnIn(s, w).value);
    } else {
      ColumnLands(s, w, d, x, preserve);
    }
  }

  lemma FloaterLands(s: State, w: WorkspaceId, d: Discovery, x: WindowId)
    requires w in s.workspaces && x !in s.windows && WorkspaceOk(s.windows, s.columns, w, s.workspaces[w]) && d.layer != Tiled
    ensures var placed := PushToFloatingLayer(s, w, x);
            && placed.result.Ok? && w in placed.state.workspaces
            && Lands(s, placed.state.workspaces, placed.state.columns, w, d, x, None)
            && OthersStay(s, placed.state.columns, placed.state.workspaces, w, None)
  {
    forall y | y in s.workspaces[w].floatingLayer.orderedWindowIds ensures y != x {
      assert FloatsIn(s.windows, w, y);
    }
  }

  lemma ColumnLands(s: State, w: WorkspaceId, d: Discovery, x: WindowId, preserve: bool)
    requires WellFormed(s) && w in s.workspaces && d.layer == Tiled
    requires !(d.placement.AppendToFocusedColumn? && FocusedColumnIn(s, w).Some?)
    ensures var placed := InsertNewColumn(s, w, x, RequestFor(s, w, d.placement, preserve));
            && placed.result == Ok(s.runtime.nextColumnId) && w in placed.state.workspaces
            && Lands(s, placed.state.workspaces, placed.state.columns, w, d, x, Some(s.runtime.nextColumnId))
            && OthersStay(s, placed.state.columns, placed.state.workspaces, w, Some(s.runtime.nextColumnId))
  {
    hide Members, Topo, LandsAt;
    HasItsMonitor(s, w);
    var ids := s.workspaces[w].strip.orderedColumnIds;
    var request := RequestFor(s, w, d.placement, preserve);
    var i := InsertIndex(ids, request);
    InsertIndexLands(s, w, d.placement, preserve);
    hide RequestFor, InsertIndex;
    assert InsertedAt(ids, InsertNewColumn(s, w, x, request).state.workspaces[w].strip.orderedColumnIds, i, s.runtime.nextColumnId);
  }

  lemma HasItsMonitor(s: State, w: WorkspaceId)
    requires Topology(s) && w in s.workspaces
    ensures s.workspaces[w].monitorId in s.monitors
  {
    assert HomeOk(s.monitors, s.workspaceSets, w, s.workspaces[w]);
  }

  /** Columns other than `column` and workspaces other than w are as they were. */
  ghost predicate OthersStay(s: State, columns1: Columns, workspaces1: Workspaces, w: WorkspaceId, column: Option<ColumnId>) {
    && columns1.Keys == s.columns.Keys + (if column.Some? then {column.value} else {})
    && (forall c :: c in s.columns && Some(c) != column ==> c in columns1 && columns1[c] == s.columns[c])
    && (forall w' :: w' in s.workspaces && w' != w ==> w' in workspaces1 && workspaces1[w'] == s.workspaces[w'])
  }

  /** `Discover` is `Place` with the window recorded. */
  lemma DiscoverLands(s: State, w: WorkspaceId, d: Discovery)
    requires WellFormed(s) && d.monitorId in s.monitors && ActiveWorkspace(s, d.monitorId) == Some(w) && d.managed
    ensures w in s.workspaces && Discover(s, w, d).result.Ok?
    ensures var s1 := Discover(s, w, d).state;
            var column := Discover(s, w, d).result.value;
            && Discovered(s, s1, w, d, column)
            && w in s1.workspaces
            && Lands(s, s1.workspaces, s1.columns, w, d, s.runtime.nextWindowId, column)
            && OthersStay(s, s1.columns, s1.workspaces, w, column)
  {
    hide Topo, Members, Place, Discover, Lands, PreservesFocus, NewWindow;
    ActiveExists(s, d.monitorId, w);
    DiscoverKeepsWellFormed(s, w, d);
    var x := s.runtime.nextWindowId;
    var s0 := s.(runtime := s.runtime.(nextWindowId := x + 1));
    var preserve := PreservesFocus(s, w, d);
    PlaceLands(s0, w, d, x, preserve);
    DiscoverFrame(s, w, d);
    LandsIgnoresWindowCounter(s, s0, w, d);
  }

  lemma DiscoverFrame(s: State, w: WorkspaceId, d: Discovery)
    ensures var x := s.runtime.nextWindowId;
            var placed := Place(s.(runtime := s.runtime.(nextWindowId := x + 1)), w, d, x, PreservesFocus(s, w, d));
            placed.result.Ok? ==>
              && Discover(s, w, d).result == placed.result
              && Discover(s, w, d).state.columns == placed.state.columns
              && Discover(s, w, d).state.workspaces == placed.state.workspaces
  {
    hide Place;
  }

  lemma LandsIgnoresWindowCounter(s: State, s0: State, w: WorkspaceId, d: Discovery)
    requires w in s.workspaces && s0 == s.(runtime := s.runtime.(nextWindowId := s.runtime.nextWindowId + 1))
    ensures forall workspaces1: Workspaces, columns1: Columns, column: Option<ColumnId> | w in workspaces1 ::
              Lands(s0, workspaces1, columns1, w, d, s.runtime.nextWindowId, column)
              ==> Lands(s, workspaces1, columns1, w, d, s.runtime.nextWindowId, column)
  {
    forall i: nat
      ensures LandsAt(s0, w, d.placement, i) <==> LandsAt(s, w, d.placement, i)
    {
    }
    hide LandsAt, InsertedAt, IsNewColumn, HasAppended;
  }

  // ---- settling down -----------------------------------------------------------------------------

  /** Normalising and scrolling move no window: every workspace with windows keeps its columns and floaters. */
  ghost predicate Settled(s: State, f: State) {
    && f.windows == s.windows && f.columns == s.columns
    && f.focus.windowId == s.focus.windowId && f.focus.columnId == s.focus.columnId && f.focus.monitorId == s.focus.monitorId
    && f.focus.origin == s.focus.origin
    && forall w :: w in s.workspaces && !IsEmpty(s.columns, s.workspaces, w) ==> w in f.workspaces && SamePlaces(s.workspaces[w], f.workspaces[w])
  }

  lemma EnsureTailSettles(s: State, m: MonitorId)
    requires WellFormed(s)
    ensures Settled(s, EnsureTail(s, m)) && WellFormed(EnsureTail(s, m))
  {
    hide Topo, Members, Normalize, Settled;
    if m in s.monitors {
      NormalizeSettles(s, s.monitors[m].workspaceSetId);
    } else {
      NothingSettles(s);
    }
  }

  lemma NothingSettles(s: State)
    ensures Settled(s, s)
  {
  }

  lemma NormalizeSettles(s: State, t: WorkspaceSetId)
    requires WellFormed(s)
    ensures Settled(s, Normalize(s, t)) && WellFormed(Normalize(s, t))
  {
    NormalizeKeepsInvariants(s, t);
    NormalizeFocus(s, t);
    hide Topo, Members, IsEmpty;
    if t in s.workspaceSets {
      NormalizeLosesNothing(s, t);
      hide Normalize;
    }
  }

  lemma NormalizeFocus(s: State, t: WorkspaceSetId)
    ensures var f := Normalize(s, t).focus;
            f.windowId == s.focus.windowId && f.columnId == s.focus.columnId && f.monitorId == s.focus.monitorId && f.origin == s.focus.origin
  {
  }

  lemma ScrolledSettles(s: State, s1: State, f: State, w: WorkspaceId)
    requires Settled(s, s1) && OnlyScrolled(s1, f, w)
    ensures Settled(s, f)
  {
  }

  /** What happens after a discovery: normalise, clamp, reveal; none of it fails or moves a window. */
  lemma FollowSettles(s: State, m: MonitorId, w: WorkspaceId, column: Option<ColumnId>)
    requires WellFormed(s) && w in s.workspaces && !IsEmpty(s.columns, s.workspaces, w)
    ensures var clamped := ClampScrollOffset(EnsureTail(s, m), w);
            var revealed := RevealIfTiled(clamped.state, w, column);
            clamped.result.Ok? && revealed.result.Ok? && Settled(s, revealed.state)
  {
    hide Topo, Members, IsEmpty;
    EnsureTailSettles(s, m);
    var s1 := EnsureTail(s, m);
    ClampSucceeds(s1, w);
    ScrollersOnlyScroll(s1, w, column, 0);
    var s2 := ClampScrollOffset(s1, w).state;
    ScrollKeepsInvariants(s1, s2, w);
    ScrolledSettles(s, s1, s2, w);
    RevealSucceeds(s2, w, column);
    ScrollersOnlyScroll(s2, w, column, 0);
    ScrolledSettles(s, s2, RevealIfTiled(s2, w, column).state, w);
  }

  // ---- the outcome of a discovery ------------------------------------------------------------------

  /** `after` is `before`, or `before` with x active and, in a tabbed column, selected. */
  ghost predicate AtMostShows(before: Column, after: Column, x: WindowId) {
    after == before
    || after == before.(activeWindowId := Some(x), tabSelection := if before.mode == Tabbed then Some(x) else before.tabSelection)
  }

  /** At most `column` changed, and only to show x. */
  ghost predicate OnlyShows(columns0: Columns, columns1: Columns, column: Option<ColumnId>, x: WindowId) {
    && columns1.Keys == columns0.Keys
    && (forall c :: c in columns0 && Some(c) != column ==> columns1[c] == columns0[c])
    && (forall c :: c in columns0 ==> AtMostShows(columns0[c], columns1[c], x))
  }

  lemma SetFocusOnlyShows(s: State, m: MonitorId, w: WorkspaceId, x: WindowId, column: Option<ColumnId>, origin: FocusOrigin)
    ensures var s1 := SetFocus(s, m, w, x, column, origin);
            OnlyShows(s.columns, s1.columns, column, x) && s1.focus.monitorId == Some(m)
  {
    var s0 := s.(focus := s.focus.(monitorId := Some(m), windowId := Some(x), columnId := column, origin := origin));
    ActivateFrame(s0, m, w);
    hide Activate;
  }

  /** The result and the state of a discovery of a managed window. */
  ghost predicate Arrives(s: State, f: State, w: WorkspaceId, d: Discovery, column: Option<ColumnId>)
    requires w in s.workspaces
  {
    var x := s.runtime.nextWindowId;
    && f.windows == s.windows[x := WindowNode(x, d.layer, w, column, d.managed, d.layer == Floating, d.layer == Fullscreen, None,
                                              d.lastKnownRect, d.desiredSize)]
    && w in f.workspaces && Lands(s, f.workspaces, f.columns, w, d, x, column)
    && f.columns.Keys == s.columns.Keys + (if column.Some? then {column.value} else {})
    && (forall c :: c in s.columns && Some(c) != column ==> c in f.columns && f.columns[c] == s.columns[c])
    && (forall w' :: w' in s.workspaces && w' != w && !IsEmpty(s.columns, s.workspaces, w') ==>
          w' in f.workspaces && SamePlaces(s.workspaces[w'], f.workspaces[w']))
  }

  lemma LandedIsInhabited(s: State, workspaces1: Workspaces, columns1: Columns, w: WorkspaceId, d: Discovery, x: WindowId, column: Option<ColumnId>)
    requires w in s.workspaces && w in workspaces1 && Lands(s, workspaces1, columns1, w, d, x, column)
    requires column.Some? && column.value in s.columns ==> column.value in s.workspaces[w].strip.orderedColumnIds
    ensures !IsEmpty(columns1, workspaces1, w)
    ensures column.Some? ==> column.value in columns1 && columns1[column.value].orderedWindowIds != []
  {
    hide LandsAt;
    var after := workspaces1[w];
    if d.layer != Tiled {
      assert after.floatingLayer.orderedWindowIds != [];
    } else {
      var c := column.value;
      if !(d.placement.AppendToFocusedColumn? && FocusedColumnIn(s, w).Some?) {
        var ids := s.workspaces[w].strip.orderedColumnIds;
        var i: nat :| LandsAt(s, w, d.placement, i)
                      && InsertedAt(ids, after.strip.orderedColumnIds, i, c);
        assert after.strip.orderedColumnIds[i] == c;
      }
      assert c in after.strip.orderedColumnIds && columns1[c].orderedWindowIds != [];
    }
  }

  /** Landing depends on the order of the workspace and the windows of the column only. */
  lemma LandsTransfers(s: State, workspaces1: Workspaces, columns1: Columns, workspaces2: Workspaces, columns2: Columns,
                       w: WorkspaceId, d: Discovery, x: WindowId, column: Option<ColumnId>)
    requires w in s.workspaces && w in workspaces1 && Lands(s, workspaces1, columns1, w, d, x, column)
    requires w in workspaces2 && SamePlaces(workspaces1[w], workspaces2[w]) && OnlyShows(columns1, columns2, column, x)
    ensures Lands(s, workspaces2, columns2, w, d, x, column)
  {
    hide LandsAt, InsertedAt;
  }

  lemma SettledStillLands(s: State, s1: State, s2: State, f: State, w: WorkspaceId, d: Discovery, column: Option<ColumnId>)
    requires w in s.workspaces && w in s1.workspaces
    requires Lands(s, s1.workspaces, s1.columns, w, d, s.runtime.nextWindowId, column)
    requires OthersStay(s, s1.columns, s1.workspaces, w, column)
    requires OnlyShows(s1.columns, s2.columns, column, s.runtime.nextWindowId) && SameWorkspaces(s1.workspaces, s2.workspaces) && Settled(s2, f)
    requires s1.windows == s.windows[s.runtime.nextWindowId := NewWindow(d, s.runtime.nextWindowId, w, column)] && s2.windows == s1.windows
    ensures Arrives(s, f, w, d, column)
  {
    hide Lands, IsEmpty, SamePlaces;
    var x := s.runtime.nextWindowId;
    LandedIsInhabited(s, s1.workspaces, s1.columns, w, d, x, column) by { LandsInStrip(s, s1, w, d, x, column); }
    ShownStaysInhabited(s1, s2, w, column, x);
    SamePlacesChain(s1.workspaces[w], s2.workspaces[w], f.workspaces[w]);
    LandsTransfers(s, s1.workspaces, s1.columns, f.workspaces, f.columns, w, d, x, column);
    OthersStaySettled(s, s1, s2, f, w, column, x);
  }

  lemma LandsInStrip(s: State, s1: State, w: WorkspaceId, d: Discovery, x: WindowId, column: Option<ColumnId>)
    requires w in s.workspaces && w in s1.workspaces && Lands(s, s1.workspaces, s1.columns, w, d, x, column)
    ensures column.Some? && column.value in s.columns ==> column.value in s.workspaces[w].strip.orderedColumnIds
  {
    hide LandsAt, InsertedAt;
  }

  lemma SamePlacesChain(w0: Workspace, w1: Workspace, w2: Workspace)
    requires SamePlaces(w0, w1) && SamePlaces(w1, w2)
    ensures SamePlaces(w0, w2)
  {
  }

  lemma OthersStaySettled(s: State, s1: State, s2: State, f: State, w: WorkspaceId, column: Option<ColumnId>, x: WindowId)
    requires OthersStay(s, s1.columns, s1.workspaces, w, column)
    requires column.Some? ==> column.value in s1.columns && s1.columns[column.value].orderedWindowIds != []
    requires OnlyShows(s1.columns, s2.columns, column, x) && SameWorkspaces(s1.workspaces, s2.workspaces) && Settled(s2, f)
    ensures forall w' :: w' in s.workspaces && w' != w && !IsEmpty(s.columns, s.workspaces, w') ==>
              w' in f.workspaces && SamePlaces(s.workspaces[w'], f.workspaces[w'])
  {
    hide IsEmpty, SamePlaces;
    forall w' | w' in s.workspaces && w' != w && !IsEmpty(s.columns, s.workspaces, w')
      ensures w' in f.workspaces && SamePlaces(s.workspaces[w'], f.workspaces[w'])
    {
      StillInhabited(s, s1, s2, w', column, x);
      SamePlacesChain(s1.workspaces[w'], s2.workspaces[w'], f.workspaces[w']);
    }
  }

  lemma StillInhabited(s: State, s1: State, s2: State, w': WorkspaceId, column: Option<ColumnId>, x: WindowId)
    requires w' in s.workspaces && !IsEmpty(s.columns, s.workspaces, w')
    requires w' in s1.workspaces && s1.workspaces[w'] == s.workspaces[w']
    requires forall c :: c in s.columns && Some(c) != column ==> c in s1.columns && s1.columns[c] == s.columns[c]
    requires OnlyShows(s1.columns, s2.columns, column, x) && SameWorkspaces(s1.workspaces, s2.workspaces)
    requires column.Some? ==> column.value in s1.columns && s1.columns[column.value].orderedWindowIds != []
    ensures !IsEmpty(s2.columns, s2.workspaces, w')
  {
  }

  /**
   * A discovery succeeds exactly when its monitor is known. A managed window joins the active workspace of that
   * monitor, lands where its layer and placement say, and moves nothing else; the focus follows it, and shows
   * it, unless it is to stay.
   */
  lemma DiscoveryOutcome(s: State, d: Discovery)
    requires Inv(s)
    ensures HandleWindowDiscovered(s, d).result.Ok? <==> d.monitorId in s.monitors
    ensures d.monitorId in s.monitors ==>
              && ActiveWorkspace(s, d.monitorId).Some?
              && var w := ActiveWorkspace(s, d.monitorId).value;
                 var f := HandleWindowDiscovered(s, d).state;
                 var x := s.runtime.nextWindowId;
                 && w in s.workspaces
                 && HandleWindowDiscovered(s, d).result == Ok(if d.managed then Some(w) else None)
                 && x !in s.windows && x in f.windows
                 && (if d.managed then Arrives(s, f, w, d, f.windows[x].columnId) else OnlyRecorded(s, f, w, d))
                 && (if d.managed && !FocusStays(s, w, d)
                     then f.focus.windowId == Some(x) && f.focus.columnId == f.windows[x].columnId
                          && f.focus.monitorId == Some(d.monitorId) && f.focus.origin == ReducerDefault && FocusShown(f)
                     else f.focus.windowId == s.focus.windowId && f.focus.columnId == s.focus.columnId)
  {
    if d.monitorId in s.monitors {
      ActiveKnown(s, d.monitorId);
      var w := ActiveWorkspace(s, d.monitorId).value;
      ActiveExists(s, d.monitorId, w);
      DiscoverKeepsWellFormed(s, w, d);
      FocusStaysMeans(s, w, d);
      hide Inv, WellFormed, Discover, Arrives, OnlyRecorded, FocusShown, FocusStays;
      if !d.managed {
        UnmanagedOutcome(s, w, d);
      } else if PreservesFocus(s, w, d) {
        PreservedOutcome(s, w, d);
      } else {
        FollowedOutcome(s, w, d);
      }
    }
  }

  /** A focus in the workspace that is to be preserved stays, unless it is on a fullscreen window. */
  predicate FocusStays(s: State, w: WorkspaceId, d: Discovery) {
    && d.focusBehavior == PreserveCurrentFocus
    && s.focus.windowId.Some? && s.focus.windowId.value in s.windows
    && var window := s.windows[s.focus.windowId.value];
    && window.workspaceId == w && window.layer != Fullscreen && !window.isFullscreen
  }

  lemma FocusStaysMeans(s: State, w: WorkspaceId, d: Discovery)
    ensures FocusStays(s, w, d) == PreservesFocus(s, w, d)
  {
  }

  lemma ActiveKnown(s: State, m: MonitorId)
    requires Topology(s) && m in s.monitors
    ensures ActiveWorkspace(s, m).Some?
  {
    assert MonitorOk(s.workspaceSets, s.focus.activeByMonitor, m, s.monitors[m]);
  }

  lemma UnmanagedOutcome(s: State, w: WorkspaceId, d: Discovery)
    requires Inv(s) && d.monitorId in s.monitors && ActiveWorkspace(s, d.monitorId) == Some(w) && !d.managed
    ensures var f := HandleWindowDiscovered(s, d).state;
            && HandleWindowDiscovered(s, d).result == Ok(None)
            && s.runtime.nextWindowId !in s.windows && s.runtime.nextWindowId in f.windows
            && OnlyRecorded(s, f, w, d)
            && f.focus.windowId == s.focus.windowId && f.focus.columnId == s.focus.columnId
  {
    hide Topo, Members, IsEmpty;
    DiscoverKeepsWellFormed(s, w, d);
    var s1 := Discover(s, w, d).state;
    UnmanagedPlaces(s, w, d);
    EnsureTailSettles(s1, d.monitorId);
    EnsureTailKeepsOffsets(s1, d.monitorId);
    assert HandleWindowDiscovered(s, d) == Done(EnsureTail(s1, d.monitorId), None);
  }

  /** An unmanaged window is kept in mind and nothing else happens, empty workspaces aside. */
  ghost predicate OnlyRecorded(s: State, f: State, w: WorkspaceId, d: Discovery) {
    && f.windows == s.windows[s.runtime.nextWindowId :=
                                WindowNode(s.runtime.nextWindowId, d.layer, w, None, d.managed, d.layer == Floating, d.layer == Fullscreen, None,
                                           d.lastKnownRect, d.desiredSize)]
    && f.columns == s.columns && SameOffsets(s, f)
    && forall w' :: w' in s.workspaces && !IsEmpty(s.columns, s.workspaces, w') ==> w' in f.workspaces && SamePlaces(s.workspaces[w'], f.workspaces[w'])
  }

  lemma UnmanagedPlaces(s: State, w: WorkspaceId, d: Discovery)
    requires !d.managed
    ensures var step := Discover(s, w, d);
            step.result == Ok(None) && step.state.columns == s.columns && step.state.workspaces == s.workspaces
  {
  }

  lemma PreservedOutcome(s: State, w: WorkspaceId, d: Discovery)
    requires Inv(s) && d.monitorId in s.monitors && ActiveWorkspace(s, d.monitorId) == Some(w) && w in s.workspaces
    requires d.managed && PreservesFocus(s, w, d)
    ensures var f := HandleWindowDiscovered(s, d).state;
            var x := s.runtime.nextWindowId;
            && HandleWindowDiscovered(s, d).result == Ok(Some(w))
            && x !in s.windows && x in f.windows
            && Arrives(s, f, w, d, f.windows[x].columnId)
            && f.focus.windowId == s.focus.windowId && f.focus.columnId == s.focus.columnId
  {
    hide Topo, Members, Lands, Arrives, Settled, OthersStay, OnlyShows, SameWorkspaces;
    DiscoverLands(s, w, d);
    var s1 := Discover(s, w, d).state;
    var column := Discover(s, w, d).result.value;
    NothingChanges(s1, column, s.runtime.nextWindowId);
    SettledFocus(s1, EnsureTail(s1, d.monitorId)) by { EnsureTailSettles(s1, d.monitorId); }
    EnsureTailSettles(s1, d.monitorId);
    var f := EnsureTail(s1, d.monitorId);
    SettledStillLands(s, s1, s1, f, w, d, column);
    ArrivesRecords(s, f, w, d, column);
    PreservedParts(s, w, d, s1, column);
    hide Discover, Inv, WellFormed;
  }

  lemma NothingChanges(s: State, column: Option<ColumnId>, x: WindowId)
    ensures OnlyShows(s.columns, s.columns, column, x) && SameWorkspaces(s.workspaces, s.workspaces)
  {
  }

  lemma PreservedParts(s: State, w: WorkspaceId, d: Discovery, s1: State, column: Option<ColumnId>)
    requires d.monitorId in s.monitors && ActiveWorkspace(s, d.monitorId) == Some(w)
    requires d.managed && PreservesFocus(s, w, d) && Discover(s, w, d) == Done(s1, column)
    ensures HandleWindowDiscovered(s, d) == Done(EnsureTail(s1, d.monitorId), Some(w))
  {
    hide Discover, EnsureTail, ActiveWorkspace, PreservesFocus;
  }

  lemma FollowedOutcome(s: State, w: WorkspaceId, d: Discovery)
    requires Inv(s) && d.monitorId in s.monitors && ActiveWorkspace(s, d.monitorId) == Some(w) && w in s.workspaces
    requires d.managed && !PreservesFocus(s, w, d)
    ensures var f := HandleWindowDiscovered(s, d).state;
            var x := s.runtime.nextWindowId;
            && HandleWindowDiscovered(s, d).result == Ok(Some(w))
            && x !in s.windows && x in f.windows
            && Arrives(s, f, w, d, f.windows[x].columnId)
            && f.focus.windowId == Some(x) && f.focus.columnId == f.windows[x].columnId
            && f.focus.monitorId == Some(d.monitorId) && f.focus.origin == ReducerDefault && FocusShown(f)
  {
    hide Topo, Members, Lands, Arrives, FocusShown, OthersStay, Settled, OnlyShows, SameWorkspaces;
    DiscoverLands(s, w, d);
    ActiveExists(s, d.monitorId, w);
    var x := s.runtime.nextWindowId;
    var s1 := Discover(s, w, d).state;
    var column := Discover(s, w, d).result.value;
    SetFocusEstablishes(s1, d.monitorId, w, x, column, ReducerDefault);
    SetFocusOnlyShows(s1, d.monitorId, w, x, column, ReducerDefault);
    SetFocusRecordsOrigin(s1, d.monitorId, w, x, column, ReducerDefault);
    FollowedSettles(s, s1, w, d, column);
    FollowingKeeps(s, s1, d, w, column);
    hide Discover, SetFocus, ClampScrollOffset, RevealIfTiled, Inv;
    FollowedParts(s, w, d, s1, column);
    var f := RevealIfTiled(ClampScrollOffset(EnsureTail(SetFocus(s1, d.monitorId, w, x, column, ReducerDefault), d.monitorId), w).state, w, column).state;
    ArrivesRecords(s, f, w, d, column);
    SettledFocus(SetFocus(s1, d.monitorId, w, x, column, ReducerDefault), f);
  }

  lemma SettledFocus(s: State, f: State)
    requires Settled(s, f)
    ensures f.focus.windowId == s.focus.windowId && f.focus.columnId == s.focus.columnId && f.focus.monitorId == s.focus.monitorId
    ensures f.focus.origin == s.focus.origin
  {
  }

  lemma ArrivesRecords(s: State, f: State, w: WorkspaceId, d: Discovery, column: Option<ColumnId>)
    requires w in s.workspaces && Arrives(s, f, w, d, column)
    ensures s.runtime.nextWindowId in f.windows && f.windows[s.runtime.nextWindowId].columnId == column
  {
    hide Lands;
  }

  lemma FollowedParts(s: State, w: WorkspaceId, d: Discovery, s1: State, column: Option<ColumnId>)
    requires d.monitorId in s.monitors && ActiveWorkspace(s, d.monitorId) == Some(w)
    requires d.managed && !PreservesFocus(s, w, d) && Discover(s, w, d) == Done(s1, column)
    ensures var clamped := ClampScrollOffset(EnsureTail(SetFocus(s1, d.monitorId, w, s.runtime.nextWindowId, column, ReducerDefault), d.monitorId), w);
            var revealed := RevealIfTiled(clamped.state, w, column);
            clamped.result.Ok? && revealed.result.Ok? ==> HandleWindowDiscovered(s, d) == Done(revealed.state, Some(w))
  {
    hide Discover, SetFocus, ClampScrollOffset, RevealIfTiled, EnsureTail, ActiveWorkspace, PreservesFocus;
  }

  lemma FollowedSettles(s: State, s1: State, w: WorkspaceId, d: Discovery, column: Option<ColumnId>)
    requires w in s.workspaces && s.workspaces[w].monitorId == d.monitorId
    requires Discovered(s, s1, w, d, column) && w in s1.workspaces
    requires Lands(s, s1.workspaces, s1.columns, w, d, s.runtime.nextWindowId, column)
    requires OthersStay(s, s1.columns, s1.workspaces, w, column)
    ensures var s2 := SetFocus(s1, d.monitorId, w, s.runtime.nextWindowId, column, ReducerDefault);
            var clamped := ClampScrollOffset(EnsureTail(s2, d.monitorId), w);
            var revealed := RevealIfTiled(clamped.state, w, column);
            && clamped.result.Ok? && revealed.result.Ok?
            && Settled(s2, revealed.state)
            && s2.focus.windowId == Some(s.runtime.nextWindowId) && s2.focus.columnId == column
            && Arrives(s, revealed.state, w, d, column)
  {
    hide Topo, Members, Lands, Arrives, OthersStay, Settled, OnlyShows;
    var x := s.runtime.nextWindowId;
    SetFocusEstablishes(s1, d.monitorId, w, x, column, ReducerDefault);
    SetFocusOnlyShows(s1, d.monitorId, w, x, column, ReducerDefault);
    var s2 := SetFocus(s1, d.monitorId, w, x, column, ReducerDefault);
    hide SetFocus, ClampScrollOffset, RevealIfTiled;
    LandsInStrip(s, s1, w, d, x, column);
    LandedIsInhabited(s, s1.workspaces, s1.columns, w, d, x, column);
    ShownStaysInhabited(s1, s2, w, column, x);
    FollowSettles(s2, d.monitorId, w, column);
    SettledStillLands(s, s1, s2, RevealIfTiled(ClampScrollOffset(EnsureTail(s2, d.monitorId), w).state, w, column).state, w, d, column);
  }

  lemma ShownStaysInhabited(s1: State, s2: State, w: WorkspaceId, column: Option<ColumnId>, x: WindowId)
    requires w in s1.workspaces && !IsEmpty(s1.columns, s1.workspaces, w)
    requires OnlyShows(s1.columns, s2.columns, column, x) && SameWorkspaces(s1.workspaces, s2.workspaces)
    ensures !IsEmpty(s2.columns, s2.workspaces, w)
  {
  }

  // ---- the offset after a discovery ------------------------------------------------------------------

  /** The offset a placement leaves: compensated when a column comes in before a focus that stays. */
  function OffsetAfterPlacing(s: State, w: WorkspaceId, d: Discovery, preserve: bool): i32
    requires HasMonitor(s, w)
  {
    var offset := s.workspaces[w].strip.scrollOffset;
    if d.managed && d.layer == Tiled && d.placement.NewColumnBeforeFocus? && preserve && DiscoveryAnchor(s, w).Some? then
      SatI32(SatI32(offset + ClipToI32(d.placement.width.Resolve(ViewportOf(s, w).width))) + ClipToI32(s.config.columnGap))
    else offset
  }

  /** The offset when the focus stays: a column that comes in before it pushes the offset by its width and the gap. */
  function CompensatedFor(s: State, w: WorkspaceId, d: Discovery): i32
    requires HasMonitor(s, w)
  {
    var offset := s.workspaces[w].strip.scrollOffset;
    if d.layer == Tiled && d.placement.NewColumnBeforeFocus? && FocusInStrip(s, w) then
      SatI32(SatI32(offset + ClipToI32(d.placement.width.Resolve(ViewportOf(s, w).width))) + ClipToI32(s.config.columnGap))
    else offset
  }

  lemma StayingOffset(s: State, w: WorkspaceId, d: Discovery)
    requires HasMonitor(s, w) && d.managed && FocusStays(s, w, d)
    ensures OffsetAfterPlacing(s, w, d, true) == CompensatedFor(s, w, d)
  {
  }

  lemma PlaceOffset(s: State, w: WorkspaceId, d: Discovery, x: WindowId, preserve: bool)
    requires HasMonitor(s, w) && Place(s, w, d, x, preserve).result.Ok?
    ensures var s1 := Place(s, w, d, x, preserve).state;
            w in s1.workspaces && s1.workspaces[w].strip.scrollOffset == OffsetAfterPlacing(s, w, d, preserve)
  {
    hide InsertIndex, FullscreenRestoreIndex, DiscoveryAnchor, FocusedColumnIn;
    if d.managed && d.layer == Tiled && !(d.placement.AppendToFocusedColumn? && FocusedColumnIn(s, w).Some?) {
      var request := RequestFor(s, w, d.placement, preserve);
      assert InsertNewColumn(s, w, x, request).result.Ok?;
      InsertOffset(s, w, x, request);
    }
  }

  lemma InsertOffset(s: State, w: WorkspaceId, x: WindowId, request: NewColumnRequest)
    requires HasMonitor(s, w) && InsertNewColumn(s, w, x, request).result.Ok?
    ensures var s1 := InsertNewColumn(s, w, x, request).state;
            w in s1.workspaces && s1.workspaces[w].strip.scrollOffset
              == CompensatedOffset(s.workspaces[w].strip.scrollOffset, request, ViewportOf(s, w).width, s.config.columnGap)
  {
    hide InsertIndex, CompensatedOffset;
  }

  /** Every workspace with windows but w scrolls as before. */
  ghost predicate OthersScrollAlike(s: State, f: State, w: WorkspaceId) {
    forall w' :: w' in s.workspaces && w' != w && !IsEmpty(s.columns, s.workspaces, w') ==>
      w' in f.workspaces && f.workspaces[w'].strip.scrollOffset == s.workspaces[w'].strip.scrollOffset
  }

  ghost predicate SameOffsets(s: State, f: State) {
    forall w :: w in s.workspaces && !IsEmpty(s.columns, s.workspaces, w) ==>
      w in f.workspaces && f.workspaces[w].strip.scrollOffset == s.workspaces[w].strip.scrollOffset
  }

  lemma EnsureTailKeepsOffsets(s: State, m: MonitorId)
    requires WellFormed(s)
    ensures SameOffsets(s, EnsureTail(s, m))
  {
    hide Topo, Members, IsEmpty, Normalize;
    if m in s.monitors && s.monitors[m].workspaceSetId in s.workspaceSets {
      NormalizeLosesNothing(s, s.monitors[m].workspaceSetId);
    } else if m in s.monitors {
      UnknownSetStays(s, s.monitors[m].workspaceSetId);
    }
  }

  lemma UnknownSetStays(s: State, t: WorkspaceSetId)
    requires t !in s.workspaceSets
    ensures Normalize(s, t) == s
  {
  }

  lemma RevealKeepsRange(s: State, w: WorkspaceId, column: Option<ColumnId>)
    requires InRange(s, w)
    ensures InRange(RevealIfTiled(s, w, column).state, w)
  {
    hide MaxScrollOffset, Recompute, TargetBounds, DesiredOffset;
    forall offset: i32
      ensures MaxScrollOffset(WithOffset(s, w, offset), w) == MaxScrollOffset(s, w)
    {
      ScrollKeepsRange(s, w, offset);
    }
  }

  lemma DiscoverOffset(s: State, w: WorkspaceId, d: Discovery)
    requires WellFormed(s) && d.monitorId in s.monitors && ActiveWorkspace(s, d.monitorId) == Some(w) && HasMonitor(s, w)
    ensures var s1 := Discover(s, w, d).state;
            && w in s1.workspaces
            && s1.workspaces[w].strip.scrollOffset == OffsetAfterPlacing(s, w, d, PreservesFocus(s, w, d))
  {
    hide Topo, Members, Place;
    DiscoverKeepsWellFormed(s, w, d);
    DiscoverFrame(s, w, d);
    var s0 := s.(runtime := s.runtime.(nextWindowId := s.runtime.nextWindowId + 1));
    PlaceWorksAnyway(s, w, d);
    PlaceOffset(s0, w, d, s.runtime.nextWindowId, PreservesFocus(s, w, d));
  }

  lemma PlaceWorksAnyway(s: State, w: WorkspaceId, d: Discovery)
    requires WellFormed(s) && d.monitorId in s.monitors && ActiveWorkspace(s, d.monitorId) == Some(w)
    ensures var x := s.runtime.nextWindowId;
            Place(s.(runtime := s.runtime.(nextWindowId := x + 1)), w, d, x, PreservesFocus(s, w, d)).result.Ok?
  {
    hide Topo, Members, Place;
    ActiveExists(s, d.monitorId, w);
    PlaceWorks(s.(runtime := s.runtime.(nextWindowId := s.runtime.nextWindowId + 1)), w, d, s.runtime.nextWindowId, PreservesFocus(s, w, d));
  }

  /**
   * Where a discovery of a managed window leaves the offset of its workspace: compensated or untouched when the
   * focus stays, between zero and the maximum when it follows.
   */
  lemma DiscoveryOffset(s: State, d: Discovery)
    requires Inv(s) && d.monitorId in s.monitors && d.managed
    ensures ActiveWorkspace(s, d.monitorId).Some?
    ensures var w := ActiveWorkspace(s, d.monitorId).value;
            var f := HandleWindowDiscovered(s, d).state;
            && HasMonitor(s, w) && w in f.workspaces
            && OthersScrollAlike(s, f, w)
            && (if FocusStays(s, w, d) then f.workspaces[w].strip.scrollOffset == CompensatedFor(s, w, d)
                else InRange(f, w))
  {
    hide Topo, Members;
    ActiveKnown(s, d.monitorId);
    var w := ActiveWorkspace(s, d.monitorId).value;
    ActiveExists(s, d.monitorId, w);
    DiscoverLands(s, w, d);
    FocusStaysMeans(s, w, d);
    if FocusStays(s, w, d) {
      StayingOffset(s, w, d);
    }
    hide Discover, Lands, OthersStay, IsEmpty, OffsetAfterPlacing, CompensatedFor, InRange, OthersScrollAlike, FocusStays;
    DiscoverOffset(s, w, d);
    var s1 := Discover(s, w, d).state;
    var column := Discover(s, w, d).result.value;
    LandsInStrip(s, s1, w, d, s.runtime.nextWindowId, column);
    LandedIsInhabited(s, s1.workspaces, s1.columns, w, d, s.runtime.nextWindowId, column);
    if PreservesFocus(s, w, d) {
      EnsureTailKeepsOffsets(s1, d.monitorId);
      PreservedParts(s, w, d, s1, column);
      NothingChanges(s1, column, s.runtime.nextWindowId);
      OthersKeepOffsets(s, s1, s1, EnsureTail(s1, d.monitorId), w, column, s.runtime.nextWindowId);
    } else {
      FollowedOffset(s, s1, w, d, column);
    }
  }

  lemma FollowedOffset(s: State, s1: State, w: WorkspaceId, d: Discovery, column: Option<ColumnId>)
    requires d.monitorId in s.monitors && ActiveWorkspace(s, d.monitorId) == Some(w) && w in s.workspaces
    requires s.workspaces[w].monitorId == d.monitorId && d.managed && !PreservesFocus(s, w, d)
    requires Discover(s, w, d) == Done(s1, column) && Discovered(s, s1, w, d, column) && w in s1.workspaces
    requires Lands(s, s1.workspaces, s1.columns, w, d, s.runtime.nextWindowId, column)
    requires OthersStay(s, s1.columns, s1.workspaces, w, column)
    requires column.Some? ==> column.value in s1.columns && s1.columns[column.value].orderedWindowIds != []
    ensures InRange(HandleWindowDiscovered(s, d).state, w) && OthersScrollAlike(s, HandleWindowDiscovered(s, d).state, w)
  {
    hide Topo, Members, Lands, OthersStay, Discover, Arrives, Settled, InRange, OnlyShows;
    FollowedSettles(s, s1, w, d, column);
    SetFocusEstablishes(s1, d.monitorId, w, s.runtime.nextWindowId, column, ReducerDefault);
    var s2 := SetFocus(s1, d.monitorId, w, s.runtime.nextWindowId, column, ReducerDefault);
    FollowedParts(s, w, d, s1, column);
    SetFocusOnlyShows(s1, d.monitorId, w, s.runtime.nextWindowId, column, ReducerDefault);
    SetFocusKeepsOffsets(s1, d.monitorId, w, s.runtime.nextWindowId, column, ReducerDefault);
    hide SetFocus, ClampScrollOffset, RevealIfTiled, OthersScrollAlike;
    EnsureTailSettles(s2, d.monitorId);
    EnsureTailKeepsOffsets(s2, d.monitorId);
    var s3 := EnsureTail(s2, d.monitorId);
    ClampSucceeds(s3, w);
    var s4 := ClampScrollOffset(s3, w).state;
    RevealKeepsRange(s4, w, column);
    OthersKeepOffsets(s, s1, s2, s3, w, column, s.runtime.nextWindowId);
    ScrollersOnlyScroll(s3, w, column, 0);
    ScrollersOnlyScroll(s4, w, column, 0);
    ScrollingKeepsOthers(s, s3, s4, w);
    ScrollingKeepsOthers(s, s4, RevealIfTiled(s4, w, column).state, w);
  }

  lemma SetFocusKeepsOffsets(s: State, m: MonitorId, w: WorkspaceId, x: WindowId, column: Option<ColumnId>, origin: FocusOrigin)
    ensures forall w' :: w' in s.workspaces ==>
              w' in SetFocus(s, m, w, x, column, origin).workspaces
              && SetFocus(s, m, w, x, column, origin).workspaces[w'].strip.scrollOffset == s.workspaces[w'].strip.scrollOffset
  {
    var s0 := s.(focus := s.focus.(monitorId := Some(m), windowId := Some(x), columnId := column, origin := origin));
    ActivateFrame(s0, m, w);
    hide Activate, Shown;
  }

  lemma OthersKeepOffsets(s: State, s1: State, s2: State, s3: State, w: WorkspaceId, column: Option<ColumnId>, x: WindowId)
    requires OthersStay(s, s1.columns, s1.workspaces, w, column)
    requires column.Some? ==> column.value in s1.columns && s1.columns[column.value].orderedWindowIds != []
    requires OnlyShows(s1.columns, s2.columns, column, x) && SameWorkspaces(s1.workspaces, s2.workspaces)
    requires forall w' :: w' in s1.workspaces ==> w' in s2.workspaces && s2.workspaces[w'].strip.scrollOffset == s1.workspaces[w'].strip.scrollOffset
    requires SameOffsets(s2, s3)
    ensures OthersScrollAlike(s, s3, w)
  {
    hide IsEmpty;
    forall w' | w' in s.workspaces && w' != w && !IsEmpty(s.columns, s.workspaces, w')
      ensures w' in s3.workspaces && s3.workspaces[w'].strip.scrollOffset == s.workspaces[w'].strip.scrollOffset
    {
      StillInhabited(s, s1, s2, w', column, x);
    }
  }

  lemma ScrollingKeepsOthers(s: State, s1: State, f: State, w: WorkspaceId)
    requires OthersScrollAlike(s, s1, w) && OnlyScrolled(s1, f, w)
    ensures OthersScrollAlike(s, f, w)
  {
    hide IsEmpty;
  }

  // ---- what a destroyed window leaves behind -----------------------------------------------------

  /** Only the window's column changed: it lost the window, and is gone if it held no other. */
  ghost predicate LeavesColumns(s: State, columns1: Columns, x: WindowId)
    requires x in s.windows
  {
    var home := s.windows[x].columnId;
    && columns1.Keys <= s.columns.Keys
    && (forall c :: c in s.columns && home != Some(c) ==> c in columns1 && columns1[c].orderedWindowIds == s.columns[c].orderedWindowIds)
    && (home.Some? ==>
          && home.value in s.columns
          && (home.value in columns1 <==> exists y :: y in s.columns[home.value].orderedWindowIds && y != x)
          && (home.value in columns1 ==> columns1[home.value].orderedWindowIds == Remove(s.columns[home.value].orderedWindowIds, x)))
  }

  /** The workspace lost the window from its floating layer, or its column from the strip if that is gone. */
  ghost predicate LeavesPlace(before: Workspace, after: Workspace, columns1: Columns, x: WindowId, home: Option<ColumnId>) {
    && after.strip.orderedColumnIds
       == (if home.Some? && home.value !in columns1 then Remove(before.strip.orderedColumnIds, home.value) else before.strip.orderedColumnIds)
    && after.floatingLayer.orderedWindowIds
       == (if home.None? then Remove(before.floatingLayer.orderedWindowIds, x) else before.floatingLayer.orderedWindowIds)
  }

  ghost predicate Leaves(s: State, columns1: Columns, workspaces1: Workspaces, x: WindowId)
    requires x in s.windows && s.windows[x].workspaceId in s.workspaces && s.windows[x].workspaceId in workspaces1
  {
    var w := s.windows[x].workspaceId;
    LeavesColumns(s, columns1, x) && LeavesPlace(s.workspaces[w], workspaces1[w], columns1, x, s.windows[x].columnId)
  }

  lemma RemovedSomeLeft(ids: seq<WindowId>, x: WindowId)
    ensures Remove(ids, x) != [] <==> exists y :: y in ids && y != x
  {
    if Remove(ids, x) != [] {
      assert Remove(ids, x)[0] in Remove(ids, x);
    }
  }

  lemma DetachLeaves(s: State, x: WindowId)
    requires x in s.windows && s.windows[x].workspaceId in s.workspaces
    requires s.windows[x].columnId.Some? ==> s.windows[x].columnId.value in s.columns
    ensures DetachWindow(s, x).result.Ok?
    ensures var s1 := DetachWindow(s, x).state;
            s.windows[x].workspaceId in s1.workspaces && Leaves(s, s1.columns, s1.workspaces, x)
  {
    hide Remove;
    if s.windows[x].columnId.None? {
      FloaterDetaches(s, x);
    } else {
      RemovedSomeLeft(s.columns[s.windows[x].columnId.value].orderedWindowIds, x);
      TileDetaches(s, x, s.windows[x].columnId.value);
    }
  }

  lemma FloaterDetaches(s: State, x: WindowId)
    requires x in s.windows && s.windows[x].workspaceId in s.workspaces && s.windows[x].columnId.None?
    ensures DetachWindow(s, x).result.Ok?
    ensures var s1 := DetachWindow(s, x).state;
            s.windows[x].workspaceId in s1.workspaces && Leaves(s, s1.columns, s1.workspaces, x)
  {
    hide Remove;
  }

  lemma TileDetaches(s: State, x: WindowId, c: ColumnId)
    requires x in s.windows && s.windows[x].workspaceId in s.workspaces && s.windows[x].columnId == Some(c) && c in s.columns
    requires Remove(s.columns[c].orderedWindowIds, x) != [] <==> exists y :: y in s.columns[c].orderedWindowIds && y != x
    ensures DetachWindow(s, x).result.Ok?
    ensures var s1 := DetachWindow(s, x).state;
            s.windows[x].workspaceId in s1.workspaces && Leaves(s, s1.columns, s1.workspaces, x)
  {
    hide Remove;
    var column := Detached(s.columns[c], x);
    if column.orderedWindowIds != [] {
      assert DetachWindow(s, x) == Done(s.(columns := s.columns[c := column]), ());
    } else {
      assert c !in DetachWindow(s, x).state.columns;
    }
  }

  lemma RemoveWindowLeaves(s: State, x: WindowId)
    requires WellFormed(s) && x in s.windows && s.windows[x].isManaged
    ensures s.windows[x].workspaceId in s.workspaces && RemoveWindow(s, x).result.Ok?
    ensures var s1 := RemoveWindow(s, x).state;
            s.windows[x].workspaceId in s1.workspaces && Leaves(s, s1.columns, s1.workspaces, x)
  {
    hide Topo;
    ManagedHasPlace(s, x);
    assert WindowOk(s.columns, s.workspaces, x, s.windows[x]);
    hide Members;
    DetachLeaves(s, x);
    hide DetachWindow, Remove;
  }

  /** The target of a focus that lost its window: the same column, the first column, the first floating window. */
  lemma RetargetAims(s: State, w: WorkspaceId, preferred: Option<ColumnId>)
    requires Membership(s) && w in s.workspaces
    requires preferred.Some? && preferred.value in s.columns ==> preferred.value in s.workspaces[w].strip.orderedColumnIds
    ensures var strip := s.workspaces[w].strip.orderedColumnIds;
            NextFocus(s, s.workspaces[w], preferred) ==
              if preferred.Some? && preferred.value in s.columns then ColumnTarget(s, preferred.value)
              else if strip != [] then ColumnTarget(s, strip[0])
              else FloatingTarget(s.workspaces[w])
  {
    var strip := s.workspaces[w].strip.orderedColumnIds;
    if preferred.Some? && preferred.value in s.columns {
      ColumnTargetWorks(s, w, preferred.value);
    } else if strip != [] {
      assert strip[0] in strip;
      ColumnTargetWorks(s, w, strip[0]);
    }
    hide Members;
  }

  lemma RetargetMoves(s: State, w: WorkspaceId, preferred: Option<ColumnId>)
    requires WellFormed(s) && w in s.workspaces
    requires preferred.Some? && preferred.value in s.columns ==> preferred.value in s.workspaces[w].strip.orderedColumnIds
    ensures var f := RetargetFocus(s, w, preferred).state;
            && (match NextFocus(s, s.workspaces[w], preferred)
                case Some((x, column)) => f.focus.windowId == Some(x) && f.focus.columnId == column
                case None => f.focus.windowId == None && f.focus.columnId == None)
            && f.windows == s.windows && SameWorkspaces(s.workspaces, f.workspaces)
            && f.columns.Keys == s.columns.Keys
            && (forall c :: c in s.columns ==> f.columns[c].orderedWindowIds == s.columns[c].orderedWindowIds)
  {
    hide Topo, Members, NextFocus;
    var m := s.workspaces[w].monitorId;
    var aim := NextFocus(s, s.workspaces[w], preferred);
    NextFocusWorks(s, w, preferred);
    if aim.Some? {
      var (x, column) := aim.value;
      FocusToTarget(s, m, w, (x, column), ReducerDefault);
      SetFocusOnlyShows(s, m, w, x, column, ReducerDefault);
      var s1 := SetFocus(s, m, w, x, column, ReducerDefault);
      hide SetFocus, Inv, FocusShown, SamePlaces, WellFormed;
      ScrollersOnlyScroll(s1, w, column, 0);
    }
  }

  /** Where the focus goes when its window is destroyed. */
  ghost predicate FocusFalls(f: State, w: WorkspaceId, home: Option<ColumnId>)
    requires w in f.workspaces
  {
    var strip, floating := f.workspaces[w].strip.orderedColumnIds, f.workspaces[w].floatingLayer.orderedWindowIds;
    if home.Some? && home.value in f.columns then f.focus.columnId == home
    else if strip != [] then f.focus.columnId == Some(strip[0])
    else if floating != [] then f.focus.columnId == None && f.focus.windowId == Some(floating[0])
    else f.focus.columnId == None && f.focus.windowId == None
  }

  lemma RefocusedFalls(s: State, x: WindowId)
    requires Inv(s) && x in s.windows && s.windows[x].isManaged && s.windows[x].workspaceId in s.workspaces
    ensures var f := Refocused(s, x).state;
            var w := s.windows[x].workspaceId;
            && f.windows == s.windows - {x} && w in f.workspaces
            && Leaves(s, f.columns, f.workspaces, x)
            && (if s.focus.windowId == Some(x) then FocusFalls(f, w, s.windows[x].columnId)
                else f.focus.windowId == s.focus.windowId && f.focus.columnId == s.focus.columnId)
            && (forall w' :: w' in s.workspaces && w' != w ==> w' in f.workspaces && SamePlaces(s.workspaces[w'], f.workspaces[w']))
  {
    hide Topo, Members;
    RemoveWindowLeaves(s, x);
    RemoveWindowKeeps(s, x);
    var s1 := RemoveWindow(s, x).state;
    var w, home := s.windows[x].workspaceId, s.windows[x].columnId;
    hide RemoveWindow;
    if s.focus.windowId == Some(x) {
      if home.Some? && home.value in s1.columns {
        PreferredStaysInStrip(s, s1, x, w, home.value);
      }
      RetargetAims(s1, w, home);
      RetargetMoves(s1, w, home);
      AimFalls(s1, RetargetFocus(s1, w, home).state, w, home);
      LeavesTransfers(s, s1, RetargetFocus(s1, w, home).state, x);
    }
  }

  lemma AimFalls(s1: State, f: State, w: WorkspaceId, home: Option<ColumnId>)
    requires Membership(s1) && w in s1.workspaces && SameWorkspaces(s1.workspaces, f.workspaces) && f.columns.Keys == s1.columns.Keys
    requires home.Some? && home.value in s1.columns ==> home.value in s1.workspaces[w].strip.orderedColumnIds
    requires var strip := s1.workspaces[w].strip.orderedColumnIds;
             match if home.Some? && home.value in s1.columns then ColumnTarget(s1, home.value)
                   else if strip != [] then ColumnTarget(s1, strip[0])
                   else FloatingTarget(s1.workspaces[w])
             case Some((x, column)) => f.focus.windowId == Some(x) && f.focus.columnId == column
             case None => f.focus.windowId == None && f.focus.columnId == None
    ensures FocusFalls(f, w, home)
  {
    var strip := s1.workspaces[w].strip.orderedColumnIds;
    if home.Some? && home.value in s1.columns {
      ColumnTargetWorks(s1, w, home.value);
    } else if strip != [] {
      assert strip[0] in strip;
      ColumnTargetWorks(s1, w, strip[0]);
    }
    hide Members;
  }

  lemma LeavesTransfers(s: State, s1: State, f: State, x: WindowId)
    requires x in s.windows && s.windows[x].workspaceId in s.workspaces && s.windows[x].workspaceId in s1.workspaces
    requires Leaves(s, s1.columns, s1.workspaces, x) && SameWorkspaces(s1.workspaces, f.workspaces)
    requires f.columns.Keys == s1.columns.Keys
    requires forall c :: c in s1.columns ==> f.columns[c].orderedWindowIds == s1.columns[c].orderedWindowIds
    ensures Leaves(s, f.columns, f.workspaces, x)
  {
  }

  /**
   * Destroying a managed window takes it out of its column or floating layer, drops an emptied column, and moves no
   * other window; every other workspace with windows stays as it is. The handler succeeds exactly when the workspace
   * survives, as it does whenever it keeps a managed window. A focus on the destroyed window falls to the same
   * column, else to the first column, else to the first floating window, else to nothing; any other focus stays.
   */
  lemma DestroyEffect(s: State, x: WindowId)
    requires Inv(s) && x in s.windows && s.windows[x].isManaged
    ensures s.windows[x].workspaceId in s.workspaces
    ensures var f := HandleWindowDestroyed(s, x).state;
            var w := s.windows[x].workspaceId;
            && f.windows == s.windows - {x}
            && LeavesColumns(s, f.columns, x)
            && (forall w' :: w' in s.workspaces && w' != w && !IsEmpty(s.columns, s.workspaces, w') ==>
                  w' in f.workspaces && SamePlaces(s.workspaces[w'], f.workspaces[w']))
            && (HandleWindowDestroyed(s, x).result.Ok? <==> w in f.workspaces)
            && (HasNeighbour(s, x) ==> w in f.workspaces)
            && (w in f.workspaces ==> LeavesPlace(s.workspaces[w], f.workspaces[w], f.columns, x, s.windows[x].columnId))
            && (if s.focus.windowId != Some(x) then f.focus.windowId == s.focus.windowId && f.focus.columnId == s.focus.columnId
                else if w in f.workspaces then FocusFalls(f, w, s.windows[x].columnId)
                else f.focus.windowId.None? && f.focus.columnId.None?)
  {
    hide Topo, Members, LeavesColumns, LeavesPlace, FocusFalls, IsEmpty;
    ManagedHasPlace(s, x);
    RefocusedFalls(s, x);
    RefocusedFrame(s, x);
    DestroyedParts(s, x);
    RefocusSucceeds(s, x);
    var s2 := Refocused(s, x).state;
    var w := s.windows[x].workspaceId;
    var m := s.workspaces[w].monitorId;
    RefocusedEmptiness(s, x);
    HomeInStrip(s, x);
    hide Refocused, RemoveWindow;
    ClampedSettles(s2, m, w);
    SettledLeaves(s, s2, ClampScrollOffset(EnsureTail(s2, m), w).state, x);
  }

  lemma HomeInStrip(s: State, x: WindowId)
    requires Membership(s) && x in s.windows && s.windows[x].isManaged && s.windows[x].workspaceId in s.workspaces
    ensures s.windows[x].columnId.Some? ==> s.windows[x].columnId.value in s.workspaces[s.windows[x].workspaceId].strip.orderedColumnIds
  {
    assert WindowOk(s.columns, s.workspaces, x, s.windows[x]);
    if s.windows[x].columnId.Some? {
      var c := s.windows[x].columnId.value;
      assert ColumnOk(s.windows, s.workspaces, c, s.columns[c]);
      assert TiledIn(s.windows, s.workspaces, c, x);
    }
  }

  /** Normalising and clamping: no window moves, an emptied workspace stays bare if it stays, and only its loss is an error. */
  lemma ClampedSettles(s: State, m: MonitorId, w: WorkspaceId)
    requires WellFormed(s) && w in s.workspaces
    ensures var clamped := ClampScrollOffset(EnsureTail(s, m), w);
            && Settled(s, clamped.state) && WellFormed(clamped.state)
            && (clamped.result.Ok? <==> w in clamped.state.workspaces)
            && (w in clamped.state.workspaces && IsBare(s.workspaces[w]) ==> IsBare(clamped.state.workspaces[w]))
  {
    hide Topo, Members, IsEmpty, IsBare;
    EnsureTailSettles(s, m);
    var s1 := EnsureTail(s, m);
    ClampSucceeds(s1, w);
    ScrollersOnlyScroll(s1, w, None, 0);
    var f := ClampScrollOffset(s1, w).state;
    ScrollKeepsInvariants(s1, f, w);
    ScrolledSettles(s, s1, f, w);
    ScrollKeepsKeys(s1, f, w);
    if w in f.workspaces {
      BareMeansUninhabited(s, w);
      BareMeansUninhabited(f, w);
    }
  }

  lemma ScrollKeepsKeys(s: State, f: State, w: WorkspaceId)
    requires OnlyScrolled(s, f, w)
    ensures f.workspaces.Keys == s.workspaces.Keys
  {
  }

  /** Where the removed window leaves its own workspace bare, and the others as inhabited as they were. */
  lemma RefocusedEmptiness(s: State, x: WindowId)
    requires Inv(s) && x in s.windows && s.windows[x].isManaged && s.windows[x].workspaceId in s.workspaces
    ensures var s2 := Refocused(s, x).state;
            var w := s.windows[x].workspaceId;
            && w in s2.workspaces
            && (IsBare(s2.workspaces[w]) <==> !HasNeighbour(s, x))
            && (IsEmpty(s2.columns, s2.workspaces, w) <==> IsBare(s2.workspaces[w]))
            && (forall w' :: w' in s.workspaces && w' != w && !IsEmpty(s.columns, s.workspaces, w') ==>
                  w' in s2.workspaces && !IsEmpty(s2.columns, s2.workspaces, w'))
  {
    hide Topo, Members, IsEmpty, Leaves;
    RefocusedFrame(s, x);
    RefocusedFalls(s, x);
    BareAfterRemoval(s, RemoveWindow(s, x).state, x);
    hide Refocused, RemoveWindow;
    var s2 := Refocused(s, x).state;
    EmptyMeansBare(s2, s.windows[x].workspaceId);
    forall w' | w' in s.workspaces && w' != s.windows[x].workspaceId && !IsEmpty(s.columns, s.workspaces, w')
      ensures w' in s2.workspaces && !IsEmpty(s2.columns, s2.workspaces, w')
    {
      EmptyMeansBare(s, w');
      EmptyMeansBare(s2, w');
    }
  }

  lemma SettledLeaves(s: State, s2: State, f: State, x: WindowId)
    requires x in s.windows && s.windows[x].workspaceId in s.workspaces && s.windows[x].workspaceId in s2.workspaces
    requires Settled(s2, f) && Leaves(s, s2.columns, s2.workspaces, x)
    requires s.windows[x].columnId.Some? ==> s.windows[x].columnId.value in s.workspaces[s.windows[x].workspaceId].strip.orderedColumnIds
    requires var w := s.windows[x].workspaceId;
             && (IsEmpty(s2.columns, s2.workspaces, w) <==> IsBare(s2.workspaces[w]))
             && (w in f.workspaces && IsBare(s2.workspaces[w]) ==> IsBare(f.workspaces[w]))
             && (forall w' :: w' in s.workspaces && w' != w ==> w' in s2.workspaces && SamePlaces(s.workspaces[w'], s2.workspaces[w']))
             && (forall w' :: w' in s.workspaces && w' != w && !IsEmpty(s.columns, s.workspaces, w') ==>
                   w' in s2.workspaces && !IsEmpty(s2.columns, s2.workspaces, w'))
    ensures var w, home := s.windows[x].workspaceId, s.windows[x].columnId;
            && LeavesColumns(s, f.columns, x)
            && (forall w' :: w' in s.workspaces && w' != w && !IsEmpty(s.columns, s.workspaces, w') ==>
                  w' in f.workspaces && SamePlaces(s.workspaces[w'], f.workspaces[w']))
            && (!IsBare(s2.workspaces[w]) ==> w in f.workspaces)
            && (w in f.workspaces ==> LeavesPlace(s.workspaces[w], f.workspaces[w], f.columns, x, home))
            && (FocusFalls(s2, w, home) && w in f.workspaces ==> FocusFalls(f, w, home))
            && (FocusFalls(s2, w, home) && w !in f.workspaces ==> f.focus.windowId.None? && f.focus.columnId.None?)
  {
    hide IsEmpty, SamePlaces;
    var w, home := s.windows[x].workspaceId, s.windows[x].columnId;
    OtherPlacesStay(s, s2, f, w);
    SettledPlace(s2, f, w);
    hide Settled;
    if w !in f.workspaces && FocusFalls(s2, w, home) {
      LostHomeIsGone(s, s2, f, x);
    }
  }

  lemma OtherPlacesStay(s: State, s2: State, f: State, w: WorkspaceId)
    requires Settled(s2, f)
    requires forall w' :: w' in s.workspaces && w' != w ==> w' in s2.workspaces && SamePlaces(s.workspaces[w'], s2.workspaces[w'])
    requires forall w' :: w' in s.workspaces && w' != w && !IsEmpty(s.columns, s.workspaces, w') ==>
               w' in s2.workspaces && !IsEmpty(s2.columns, s2.workspaces, w')
    ensures forall w' :: w' in s.workspaces && w' != w && !IsEmpty(s.columns, s.workspaces, w') ==>
              w' in f.workspaces && SamePlaces(s.workspaces[w'], f.workspaces[w'])
  {
    hide IsEmpty, SamePlaces;
    forall w' | w' in s.workspaces && w' != w && !IsEmpty(s.columns, s.workspaces, w')
      ensures w' in f.workspaces && SamePlaces(s.workspaces[w'], f.workspaces[w'])
    {
      SamePlacesChain(s.workspaces[w'], s2.workspaces[w'], f.workspaces[w']);
    }
  }

  /** Bare or not, a surviving workspace has the same strip and the same floating windows. */
  lemma SettledPlace(s2: State, f: State, w: WorkspaceId)
    requires w in s2.workspaces && Settled(s2, f)
    requires IsEmpty(s2.columns, s2.workspaces, w) <==> IsBare(s2.workspaces[w])
    requires w in f.workspaces && IsBare(s2.workspaces[w]) ==> IsBare(f.workspaces[w])
    ensures !IsBare(s2.workspaces[w]) ==> w in f.workspaces
    ensures w in f.workspaces ==>
              && f.workspaces[w].strip.orderedColumnIds == s2.workspaces[w].strip.orderedColumnIds
              && f.workspaces[w].floatingLayer.orderedWindowIds == s2.workspaces[w].floatingLayer.orderedWindowIds
    ensures f.columns == s2.columns && f.focus.windowId == s2.focus.windowId && f.focus.columnId == s2.focus.columnId
  {
    hide IsEmpty;
  }

  /** A workspace that is gone was bare: the window's column is gone too, and the focus is empty. */
  lemma LostHomeIsGone(s: State, s2: State, f: State, x: WindowId)
    requires x in s.windows && s.windows[x].workspaceId in s.workspaces && s.windows[x].workspaceId in s2.workspaces
    requires IsBare(s2.workspaces[s.windows[x].workspaceId]) && FocusFalls(s2, s.windows[x].workspaceId, s.windows[x].columnId)
    requires s.windows[x].columnId.Some? ==> s.windows[x].columnId.value !in s2.columns
    requires f.focus.windowId == s2.focus.windowId && f.focus.columnId == s2.focus.columnId
    ensures f.focus.windowId.None? && f.focus.columnId.None?
  {
  }

  // ---- observed focus ----------------------------------------------------------------------------

  /**
   * An observed focus is accepted exactly when monitor and window are known and belong together. Then the window
   * is focused on the active workspace of that monitor and shown by its column, and no window moves; otherwise
   * nothing happens at all.
   */
  lemma FocusObservedOutcome(s: State, m: MonitorId, x: WindowId, origin: FocusOrigin)
    requires WellFormed(s)
    ensures var step := HandleFocusObserved(s, m, x, origin);
            && (step.result.Ok? <==>
                  m in s.monitors && x in s.windows && s.windows[x].workspaceId in s.workspaces
                  && s.workspaces[s.windows[x].workspaceId].monitorId == m)
            && (step.result.Err? ==> step.state == s)
            && (step.result.Ok? ==>
                  var w := s.windows[x].workspaceId;
                  && step.result.value == Some(w)
                  && step.state.windows == s.windows && SameWorkspaces(s.workspaces, step.state.workspaces)
                  && OnlyShows(s.columns, step.state.columns, s.windows[x].columnId, x)
                  && step.state.focus.windowId == Some(x) && step.state.focus.columnId == s.windows[x].columnId
                  && step.state.focus.monitorId == Some(m) && step.state.focus.origin == origin
                  && ActiveWorkspace(step.state, m) == Some(w)
                  && FocusShown(step.state))
  {
    hide Topo, Members;
    if m in s.monitors && x in s.windows && s.windows[x].workspaceId in s.workspaces
       && s.workspaces[s.windows[x].workspaceId].monitorId == m {
      ObservedFocusWorks(s, m, x, origin);
    }
  }

  lemma ObservedFocusWorks(s: State, m: MonitorId, x: WindowId, origin: FocusOrigin)
    requires WellFormed(s) && m in s.monitors && x in s.windows && s.windows[x].workspaceId in s.workspaces
    requires s.workspaces[s.windows[x].workspaceId].monitorId == m
    ensures var w, column := s.windows[x].workspaceId, s.windows[x].columnId;
            var step := RevealIfTiled(SetFocus(s, m, w, x, column, origin), w, column);
            && HandleFocusObserved(s, m, x, origin) == Done(step.state, Some(w))
            && step.result.Ok?
            && OnlyFocused(s, step.state, x, column) && FocusShown(step.state)
            && OnlyShows(s.columns, step.state.columns, column, x)
            && step.state.focus.monitorId == Some(m) && step.state.focus.origin == origin
  {
    hide Topo, Members, OnlyFocused, FocusShown, OnlyShows;
    var w, column := s.windows[x].workspaceId, s.windows[x].columnId;
    FocusToTarget(s, m, w, (x, column), origin);
    SetFocusEstablishes(s, m, w, x, column, origin);
    SetFocusOnlyShows(s, m, w, x, column, origin);
    SetFocusRecordsOrigin(s, m, w, x, column, origin);
    var s1 := SetFocus(s, m, w, x, column, origin);
    SetFocusKeepsWorkspace(s, m, w, x, column, origin);
    hide SetFocus;
    RevealSucceeds(s1, w, column);
    ScrollersOnlyScroll(s1, w, column, 0);
  }

  lemma SetFocusRecordsOrigin(s: State, m: MonitorId, w: WorkspaceId, x: WindowId, column: Option<ColumnId>, origin: FocusOrigin)
    ensures SetFocus(s, m, w, x, column, origin).focus.origin == origin
  {
  }

  lemma SetFocusKeepsWorkspace(s: State, m: MonitorId, w: WorkspaceId, x: WindowId, column: Option<ColumnId>, origin: FocusOrigin)
    requires w in s.workspaces
    ensures w in SetFocus(s, m, w, x, column, origin).workspaces
  {
  }

  // ---- manual scrolling ----------------------------------------------------------------------------

  /** Scrolling by a command moves the offset by the step, within its range, and nothing else. */
  lemma ScrollMoves(s: State, w: WorkspaceId, right: bool, step: u32)
    requires WellFormed(s) && w in s.workspaces
    ensures MaxScrollOffset(s, w).Ok?
    ensures ScrollStripOf(s, Ok(w), right, step)
         == Done(WithOffset(s, w, Clamp(s.workspaces[w].strip.scrollOffset + ScrollDelta(s, right, step), 0, MaxScrollOffset(s, w).value)), Some(w))
  {
    ClampSucceeds(s, w);
  }

  lemma ScrollKeepsRange(s: State, w: WorkspaceId, offset: i32)
    requires w in s.workspaces
    ensures MaxScrollOffset(WithOffset(s, w, offset), w) == MaxScrollOffset(s, w)
  {
  }

  lemma ThereAndBack(offset: int, p: int, max: int)
    requires 0 <= offset <= max && 0 <= p
    ensures Clamp(Clamp(offset + p, 0, max) - p, 0, max) == offset <==> offset + p <= max || offset == 0
  {
  }

  lemma OffsetDecides(s: State, w: WorkspaceId, first: i32, second: i32)
    requires w in s.workspaces
    ensures WithOffset(WithOffset(s, w, first), w, second) == s <==> second == s.workspaces[w].strip.scrollOffset
  {
    var back := WithOffset(WithOffset(s, w, first), w, second);
    if second == s.workspaces[w].strip.scrollOffset {
      assert back.workspaces == s.workspaces;
    } else {
      assert back.workspaces[w].strip.scrollOffset != s.workspaces[w].strip.scrollOffset;
    }
  }

  /** Scrolling right and back restores the state exactly when the right end was not hit, or the strip started at the left end. */
  lemma ScrollRightThenLeft(s: State, w: WorkspaceId, step: u32)
    requires WellFormed(s) && w in s.workspaces && InRange(s, w)
    ensures var there := ScrollStripOf(s, Ok(w), true, step).state;
            var back := ScrollStripOf(there, Ok(w), false, step).state;
            var offset: int := s.workspaces[w].strip.scrollOffset;
            back == s <==> offset + ScrollDelta(s, true, step) <= MaxScrollOffset(s, w).value || offset == 0
  {
    hide Topo, Members, MaxScrollOffset, ScrollStripOf;
    ScrollMoves(s, w, true, step);
    var offset: int := s.workspaces[w].strip.scrollOffset;
    var max: int := MaxScrollOffset(s, w).value;
    var p: int := ScrollDelta(s, true, step);
    var first := Clamp(offset + p, 0, max);
    var there := WithOffset(s, w, first);
    ScrollKeepsRange(s, w, first);
    ScrollKeepsInvariants(s, there, w);
    ScrollMoves(there, w, false, step);
    ThereAndBack(offset, p, max);
    OffsetDecides(s, w, first, Clamp(first - p, 0, max));
  }
}
