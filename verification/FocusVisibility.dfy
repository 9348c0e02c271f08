// A focus that moves onto a column brings that column on the screen.
module FocusVisibility {
  import opened Wrappers
  import opened MachineInt
  import opened Domain
  import opened Layout
  import opened Model
  import opened Invariants
  import opened Normalization
  import opened Events
  import opened Reducer
  import opened StepInvariants
  import opened PlacementProofs
  import opened RemovalProofs
  import opened RunInvariants
  import opened DestroyProofs
  import opened StripGeometry
  import opened ScrollProofs
  import opened OutcomeProofs
  import CommandTargets

  /** Column c is inside the viewport if it fits, covers it if it does not, and the strip is not scrolled past its ends. */
  ghost predicate OnScreen(s: State, w: WorkspaceId, c: ColumnId) {
    && HasMonitor(s, w)
    && 0 <= s.workspaces[w].strip.scrollOffset <= Max(ContentWidth(s, w) - ViewportOf(s, w).width, 0)
    && exists j: nat :: IsAt(s.workspaces[w].strip.orderedColumnIds, c, j) && Shows(s, w, j)
  }

  ghost predicate Shows(s: State, w: WorkspaceId, j: nat)
    requires HasMonitor(s, w) && j < |s.workspaces[w].strip.orderedColumnIds|
  {
    && (StripOf(s, w).Width(j) <= ViewportOf(s, w).width ==> IsVisible(s, w, j))
    && (StripOf(s, w).Width(j) >= ViewportOf(s, w).width ==> Covers(s, w, j))
  }

  lemma RevealBringsOn(s: State, w: WorkspaceId, c: ColumnId)
    requires WellFormed(s) && HasMonitor(s, w) && Fits(s, w) && c in s.workspaces[w].strip.orderedColumnIds
    ensures OnScreen(Reveal(s, w, c).state, w, c)
  {
    var ids := s.workspaces[w].strip.orderedColumnIds;
    var j: nat :| j < |ids| && ids[j] == c;
    assert IsAt(ids, c, j) && Located(s, w, c, j);
    hide WellFormed, Fits, Reveal, IsVisible, Covers, OnScreen, ContentWidth;
    RevealShowsColumn(s, w, c, j);
    RevealKeepsGeometry(s, w, c, j);
    hide Located, StripOf, ViewportOf;
    ShownIsOnScreen(Reveal(s, w, c).state, w, c, j);
  }

  lemma ShownIsOnScreen(f: State, w: WorkspaceId, c: ColumnId, j: nat)
    requires HasMonitor(f, w) && IsAt(f.workspaces[w].strip.orderedColumnIds, c, j) && Shows(f, w, j)
    requires 0 <= f.workspaces[w].strip.scrollOffset <= Max(ContentWidth(f, w) - ViewportOf(f, w).width, 0)
    ensures OnScreen(f, w, c)
  {
    hide ContentWidth, ViewportOf, Shows;
  }

  lemma RevealKeepsGeometry(s: State, w: WorkspaceId, c: ColumnId, j: nat)
    requires Located(s, w, c, j)
    ensures var f := Reveal(s, w, c).state;
            HasMonitor(f, w) && StripOf(f, w) == StripOf(s, w) && ViewportOf(f, w) == ViewportOf(s, w) && ContentWidth(f, w) == ContentWidth(s, w)
            && f.workspaces[w].strip.orderedColumnIds == s.workspaces[w].strip.orderedColumnIds
  {
    RevealIsClosedForm(s, w, c, j);
    ColumnXIsBounded(s, w, c, j);
    OffsetMovesStrip(s, w, c, j, RevealedOffsetOf(s, w, j));
  }

  // ---- what the picture depends on -----------------------------------------------------------------

  /** Strip, viewport, gap, focused column and offset are the same. */
  ghost predicate SamePicture(s: State, f: State, w: WorkspaceId) {
    && HasMonitor(s, w) && HasMonitor(f, w)
    && StripOf(f, w) == StripOf(s, w) && ViewportOf(f, w) == ViewportOf(s, w) && f.config.columnGap == s.config.columnGap
    && f.focus.columnId == s.focus.columnId
    && f.workspaces[w].strip.scrollOffset == s.workspaces[w].strip.scrollOffset
  }

  lemma SamePictureSameScreen(s: State, f: State, w: WorkspaceId, c: ColumnId)
    requires SamePicture(s, f, w) && OnScreen(s, w, c)
    ensures OnScreen(f, w, c)
  {
    assert StripOf(f, w).ids == f.workspaces[w].strip.orderedColumnIds && StripOf(s, w).ids == s.workspaces[w].strip.orderedColumnIds;
    assert ContentWidth(f, w) == ContentWidth(s, w) && OriginX(f, w) == OriginX(s, w);
    var j: nat :| IsAt(s.workspaces[w].strip.orderedColumnIds, c, j) && Shows(s, w, j);
    assert IsAt(f.workspaces[w].strip.orderedColumnIds, c, j) && Shows(f, w, j);
  }

  /** Columns with the same ids and widths take the same room. */
  lemma {:induction false} SameWidthsSameOffset(a: Strip, b: Strip, i: nat, gap: nat)
    requires a.ids == b.ids && i <= |a.ids| && forall k :: 0 <= k < |a.ids| ==> a.Width(k) == b.Width(k)
    ensures a.Offset(i, gap) == b.Offset(i, gap)
  {
    if i > 0 {
      SameWidthsSameOffset(a, b, i - 1, gap);
    }
  }

  /** Columns that keep mode and width take the same room. */
  lemma SameShapesSameContent(s: State, f: State, w: WorkspaceId)
    requires HasMonitor(s, w) && HasMonitor(f, w)
    requires f.workspaces[w].strip.orderedColumnIds == s.workspaces[w].strip.orderedColumnIds
    requires ViewportOf(f, w) == ViewportOf(s, w) && f.config == s.config && f.columns.Keys == s.columns.Keys
    requires forall c :: c in s.columns ==>
               f.columns[c].mode == s.columns[c].mode && f.columns[c].isMaximized == s.columns[c].isMaximized
               && f.columns[c].widthSemantics == s.columns[c].widthSemantics
    ensures ContentWidth(f, w) == ContentWidth(s, w)
  {
    var a, b := StripOf(f, w), StripOf(s, w);
    assert forall k :: 0 <= k < |a.ids| ==> a.Width(k) == b.Width(k);
    if a.ids != [] {
      SameWidthsSameOffset(a, b, |a.ids| - 1, s.config.columnGap);
    }
  }

  /** Focusing a window changes no width. */
  lemma FocusKeepsContent(s: State, f: State, w: WorkspaceId, column: Option<ColumnId>, x: WindowId)
    requires HasMonitor(s, w) && HasMonitor(f, w) && OnlyShows(s.columns, f.columns, column, x)
    requires f.workspaces[w].strip.orderedColumnIds == s.workspaces[w].strip.orderedColumnIds
    requires ViewportOf(f, w) == ViewportOf(s, w) && f.config == s.config
    ensures ContentWidth(f, w) == ContentWidth(s, w)
  {
    forall c | c in s.columns
      ensures f.columns[c].mode == s.columns[c].mode && f.columns[c].isMaximized == s.columns[c].isMaximized
      ensures f.columns[c].widthSemantics == s.columns[c].widthSemantics
    {
      assert AtMostShows(s.columns[c], f.columns[c], x);
    }
    SameShapesSameContent(s, f, w);
  }

  // ---- focusing and revealing ------------------------------------------------------------------------

  lemma FocusingFits(s: State, w: WorkspaceId, x: WindowId, column: Option<ColumnId>, origin: FocusOrigin)
    requires WellFormed(s) && IsTarget(s, w, (x, column)) && HasMonitor(s, w) && Fits(s, w)
    ensures var g := SetFocus(s, s.workspaces[w].monitorId, w, x, column, origin);
            WellFormed(g) && HasMonitor(g, w) && Fits(g, w)
            && g.workspaces[w].strip.orderedColumnIds == s.workspaces[w].strip.orderedColumnIds
  {
    hide Topo, Members;
    var m := s.workspaces[w].monitorId;
    SetFocusEstablishes(s, m, w, x, column, origin);
    SetFocusOnlyShows(s, m, w, x, column, origin);
    SetFocusKeepsOffsets(s, m, w, x, column, origin);
    var g := SetFocus(s, m, w, x, column, origin);
    hide SetFocus, OnlyShows;
    assert g.workspaces[w].monitorId == m;
    FocusKeepsContent(s, g, w, column, x);
    hide ContentWidth, ViewportOf;
  }

  /** Focusing a tiled window of a workspace and revealing its column brings it on the screen. */
  lemma FocusingBringsOn(s: State, w: WorkspaceId, x: WindowId, c: ColumnId, origin: FocusOrigin)
    requires WellFormed(s) && IsTarget(s, w, (x, Some(c))) && HasMonitor(s, w) && Fits(s, w)
    ensures OnScreen(RevealIfTiled(SetFocus(s, s.workspaces[w].monitorId, w, x, Some(c), origin), w, Some(c)).state, w, c)
  {
    HomeInStrip(s, x);
    FocusingFits(s, w, x, Some(c), origin);
    hide SetFocus, WellFormed, Fits, OnScreen;
    RevealBringsOn(SetFocus(s, s.workspaces[w].monitorId, w, x, Some(c), origin), w, c);
  }

  /** An observed focus on a managed tiled window brings its column on the screen. */
  lemma ObservedFocusIsOnScreen(s: State, m: MonitorId, x: WindowId, c: ColumnId, origin: FocusOrigin)
    requires WellFormed(s) && m in s.monitors && x in s.windows && s.windows[x].workspaceId in s.workspaces
    requires s.workspaces[s.windows[x].workspaceId].monitorId == m && s.windows[x].columnId == Some(c) && s.windows[x].isManaged
    requires Fits(s, s.windows[x].workspaceId)
    ensures OnScreen(HandleFocusObserved(s, m, x, origin).state, s.windows[x].workspaceId, c)
  {
    ObservedFocusWorks(s, m, x, origin);
    hide WellFormed, Fits, OnScreen, SetFocus, RevealIfTiled;
    FocusingBringsOn(s, s.windows[x].workspaceId, x, c, origin);
  }

  /** The same for the focus a command moves. */
  lemma CommandedFocusIsOnScreen(s: State, w: WorkspaceId, x: WindowId, c: ColumnId)
    requires WellFormed(s) && IsTarget(s, w, (x, Some(c))) && HasMonitor(s, w) && Fits(s, w)
    ensures OnScreen(FocusTo(s, w, x, Some(c)).state, w, c)
  {
    hide WellFormed, Fits, OnScreen, SetFocus, RevealIfTiled;
    FocusingBringsOn(s, w, x, c, UserCommand);
  }

  // ---- discovery ---------------------------------------------------------------------------------------

  lemma FitsBefore(g: State, f: State, w: WorkspaceId)
    requires HasMonitor(g, w) && HasMonitor(f, w) && Fits(f, w)
    requires StripOf(f, w) == StripOf(g, w) && ViewportOf(f, w) == ViewportOf(g, w) && f.config == g.config
    requires -LIMIT <= g.workspaces[w].strip.scrollOffset <= LIMIT
    ensures Fits(g, w)
  {
    assert ContentWidth(f, w) == ContentWidth(g, w);
  }

  lemma ScrollKeepsStrip(g: State, f: State, w: WorkspaceId)
    requires OnlyScrolled(g, f, w) && HasMonitor(f, w)
    ensures HasMonitor(g, w) && StripOf(f, w) == StripOf(g, w) && ViewportOf(f, w) == ViewportOf(g, w) && f.config == g.config
  {
  }

  lemma RangeIsSmall(g: State, w: WorkspaceId, content: nat)
    requires InRange(g, w) && HasMonitor(g, w) && content == ContentWidth(g, w) && content <= LIMIT
    ensures 0 <= g.workspaces[w].strip.scrollOffset <= LIMIT
  {
    hide ContentWidth;
  }

  /** A clamped strip is revealed: whatever the offset was, the column comes on the screen. */
  lemma ClampedRevealBringsOn(g: State, w: WorkspaceId, x: WindowId, c: ColumnId)
    requires WellFormed(g) && InRange(g, w) && IsTarget(g, w, (x, Some(c)))
    requires HasMonitor(Reveal(g, w, c).state, w) && Fits(Reveal(g, w, c).state, w)
    ensures OnScreen(Reveal(g, w, c).state, w, c)
  {
    HomeInStrip(g, x);
    var f := Reveal(g, w, c).state;
    ScrollersOnlyScroll(g, w, Some(c), 0);
    assert f == RevealIfTiled(g, w, Some(c)).state;
    ScrollKeepsStrip(g, f, w);
    ContentBound(f, w);
    hide WellFormed, Reveal, OnScreen;
    RangeIsSmall(g, w, ContentWidth(g, w));
    FitsBefore(g, f, w);
    hide Fits;
    RevealBringsOn(g, w, c);
  }

  lemma ContentBound(f: State, w: WorkspaceId)
    requires HasMonitor(f, w) && Fits(f, w)
    ensures ContentWidth(f, w) <= LIMIT
  {
  }

  /** A new window that takes the focus in a column has that column on the screen. */
  lemma NewWindowIsOnScreen(s: State, d: Discovery, c: ColumnId)
    requires Inv(s) && d.monitorId in s.monitors && d.managed
    requires ActiveWorkspace(s, d.monitorId).Some? && !FocusStays(s, ActiveWorkspace(s, d.monitorId).value, d)
    requires var w, f := ActiveWorkspace(s, d.monitorId).value, HandleWindowDiscovered(s, d).state;
             f.focus.columnId == Some(c) && HasMonitor(f, w) && Fits(f, w)
    ensures OnScreen(HandleWindowDiscovered(s, d).state, ActiveWorkspace(s, d.monitorId).value, c)
  {
    hide Topo, Members, Lands, OthersStay, Settled, Arrives, OnScreen, Fits;
    var w, x := ActiveWorkspace(s, d.monitorId).value, s.runtime.nextWindowId;
    FocusStaysMeans(s, w, d);
    ActiveExists(s, d.monitorId, w);
    DiscoverLands(s, w, d);
    var s1, column := Discover(s, w, d).state, Discover(s, w, d).result.value;
    FollowedSettles(s, s1, w, d, column);
    FollowedParts(s, w, d, s1, column);
    FollowingKeeps(s, s1, d, w, column);
    FollowedTarget(s, s1, d, w, column);
    var g := ClampScrollOffset(EnsureTail(SetFocus(s1, d.monitorId, w, x, column, ReducerDefault), d.monitorId), w).state;
    hide Discover, SetFocus, ClampScrollOffset, EnsureTail, FocusStays, PreservesFocus;
    SettledFocus(SetFocus(s1, d.monitorId, w, x, column, ReducerDefault), RevealIfTiled(g, w, column).state);
    ClampedRevealBringsOn(g, w, x, c);
  }

  /** After focusing, normalising and clamping the new window is still where it was put, and the offset in range. */
  lemma FollowedTarget(s: State, s1: State, d: Discovery, w: WorkspaceId, column: Option<ColumnId>)
    requires Inv(s) && Discovered(s, s1, w, d, column) && w in s.workspaces && s.workspaces[w].monitorId == d.monitorId && d.managed
    requires w in s1.workspaces && OthersStay(s, s1.columns, s1.workspaces, w, column)
    requires Lands(s, s1.workspaces, s1.columns, w, d, s.runtime.nextWindowId, column)
    ensures var g := ClampScrollOffset(EnsureTail(SetFocus(s1, d.monitorId, w, s.runtime.nextWindowId, column, ReducerDefault), d.monitorId), w).state;
            InRange(g, w) && IsTarget(g, w, (s.runtime.nextWindowId, column))
  {
    hide Topo, Members, OnlyShows, InRange;
    var x := s.runtime.nextWindowId;
    LandsInStrip(s, s1, w, d, x, column);
    LandedIsInhabited(s, s1.workspaces, s1.columns, w, d, x, column);
    SetFocusEstablishes(s1, d.monitorId, w, x, column, ReducerDefault);
    SetFocusOnlyShows(s1, d.monitorId, w, x, column, ReducerDefault);
    var s2 := SetFocus(s1, d.monitorId, w, x, column, ReducerDefault);
    ShownStaysInhabited(s1, s2, w, column, x);
    assert IsTarget(s1, w, (x, column));
    assert WellFormed(s2) && w in s2.workspaces;
    hide SetFocus, Lands, OthersStay, IsEmpty, Discovered, Inv, IsTarget, WellFormed, SameWorkspaces;
    assert s2.windows == s1.windows;
    SettledTarget(s2, d.monitorId, w, x, column) by { SameTarget(s1, s2, w, x, column); }
  }

  lemma SameTarget(s: State, f: State, w: WorkspaceId, x: WindowId, column: Option<ColumnId>)
    requires f.windows == s.windows && IsTarget(s, w, (x, column))
    ensures IsTarget(f, w, (x, column))
  {
  }

  lemma SettledTarget(s: State, m: MonitorId, w: WorkspaceId, x: WindowId, column: Option<ColumnId>)
    requires WellFormed(s) && w in s.workspaces && !IsEmpty(s.columns, s.workspaces, w) && IsTarget(s, w, (x, column))
    ensures var g := ClampScrollOffset(EnsureTail(s, m), w).state;
            InRange(g, w) && IsTarget(g, w, (x, column))
  {
    hide Topo, Members, InRange, IsEmpty;
    EnsureTailSettles(s, m);
    var s3 := EnsureTail(s, m);
    ClampSucceeds(s3, w);
    ScrollersOnlyScroll(s3, w, column, 0);
  }

  // ---- destruction -------------------------------------------------------------------------------------

  /** Normalising and clamping leave a strip on the screen that was brought there. */
  lemma SettledStaysOnScreen(r: State, m: MonitorId, w: WorkspaceId, c: ColumnId)
    requires WellFormed(r) && OnScreen(r, w, c) && Fits(r, w) && !IsEmpty(r.columns, r.workspaces, w)
    ensures var f := ClampScrollOffset(EnsureTail(r, m), w).state;
            OnScreen(f, w, c)
  {
    hide Topo, Members, IsEmpty, OnScreen;
    EnsureTailSettles(r, m);
    EnsureTailKeepsOffsets(r, m);
    EnsureTailKeepsPlan(r, m);
    var g := EnsureTail(r, m);
    hide EnsureTail;
    ScreenOffset(r, w, c);
    SamePlan(r, g, w);
    FitsBefore(g, r, w);
    MaxOffsetIsExact(g, w);
    hide MaxScrollOffset, ContentWidth, Fits;
    ClampInRange(g, w);
    SamePictureSameScreen(r, g, w, c);
  }

  lemma ScreenOffset(r: State, w: WorkspaceId, c: ColumnId)
    requires OnScreen(r, w, c)
    ensures HasMonitor(r, w) && 0 <= r.workspaces[w].strip.scrollOffset <= Max(ContentWidth(r, w) - ViewportOf(r, w).width, 0)
  {
  }

  lemma EnsureTailKeepsPlan(r: State, m: MonitorId)
    requires WellFormed(r)
    ensures EnsureTail(r, m).monitors == r.monitors && EnsureTail(r, m).config == r.config
  {
    hide Topo, Members, Normalize;
    if m in r.monitors {
      NormalizeKeepsInvariants(r, r.monitors[m].workspaceSetId);
    }
  }

  /** After settling, the strip of an inhabited workspace looks the same. */
  lemma SamePlan(r: State, g: State, w: WorkspaceId)
    requires HasMonitor(r, w) && Settled(r, g) && SameOffsets(r, g) && !IsEmpty(r.columns, r.workspaces, w)
    requires g.monitors == r.monitors && g.config == r.config
    ensures SamePicture(r, g, w) && g.workspaces[w].strip.scrollOffset == r.workspaces[w].strip.scrollOffset
    ensures ContentWidth(g, w) == ContentWidth(r, w)
  {
    hide IsEmpty;
  }

  lemma ClampInRange(g: State, w: WorkspaceId)
    requires w in g.workspaces && MaxScrollOffset(g, w).Ok? && 0 <= g.workspaces[w].strip.scrollOffset <= MaxScrollOffset(g, w).value
    ensures ClampScrollOffset(g, w).state == g
  {
    hide MaxScrollOffset;
    assert g.workspaces[w].strip.(scrollOffset := g.workspaces[w].strip.scrollOffset) == g.workspaces[w].strip;
    assert g.workspaces[w := g.workspaces[w]] == g.workspaces;
  }

  lemma FitsAfter(g: State, f: State, w: WorkspaceId)
    requires HasMonitor(g, w) && HasMonitor(f, w) && Fits(g, w)
    requires StripOf(f, w) == StripOf(g, w) && ViewportOf(f, w) == ViewportOf(g, w) && f.config == g.config
    requires 0 <= f.workspaces[w].strip.scrollOffset <= Max(ContentWidth(f, w) - ViewportOf(f, w).width, 0)
    ensures Fits(f, w)
  {
    assert ContentWidth(f, w) == ContentWidth(g, w);
  }

  /** The strip of a workspace after the focus moved on to another of its columns. */
  lemma RefocusBringsOn(s1: State, w: WorkspaceId, x: WindowId, c: ColumnId)
    requires WellFormed(s1) && IsTarget(s1, w, (x, Some(c))) && HasMonitor(s1, w) && Fits(s1, w)
    ensures var r := RevealIfTiled(SetFocus(s1, s1.workspaces[w].monitorId, w, x, Some(c), ReducerDefault), w, Some(c)).state;
            OnScreen(r, w, c) && WellFormed(r) && HasMonitor(r, w) && Fits(r, w)
  {
    FocusingFits(s1, w, x, Some(c), ReducerDefault);
    FocusingBringsOn(s1, w, x, c, ReducerDefault);
    var g := SetFocus(s1, s1.workspaces[w].monitorId, w, x, Some(c), ReducerDefault);
    hide SetFocus;
    var f := RevealIfTiled(g, w, Some(c)).state;
    ScrollersOnlyScroll(g, w, Some(c), 0);
    ScrollKeepsInvariants(g, f, w);
    hide WellFormed, RevealIfTiled;
    ScreenOffset(f, w, c);
    ScrollKeepsStrip(g, f, w);
    hide OnScreen;
    ContentBound(g, w);
    FitsAfter(g, f, w);
  }

  /** Where the focus goes once the window is out: to a window of a column, shown there. */
  lemma LostFocusTarget(s: State, x: WindowId, c: ColumnId) returns (y: WindowId)
    requires Inv(s) && x in s.windows && s.windows[x].isManaged && s.focus.windowId == Some(x) && s.windows[x].workspaceId in s.workspaces
    requires Refocused(s, x).state.focus.columnId == Some(c)
    ensures var s1, w := RemoveWindow(s, x).state, s.windows[x].workspaceId;
            && WellFormed(s1) && w in s1.workspaces && IsTarget(s1, w, (y, Some(c)))
            && Refocused(s, x).state == RevealIfTiled(SetFocus(s1, s1.workspaces[w].monitorId, w, y, Some(c), ReducerDefault), w, Some(c)).state
            && s1.workspaces[w].strip.scrollOffset == s.workspaces[w].strip.scrollOffset
            && s1.config == s.config
  {
    hide Topo, Members;
    RemoveWindowKeeps(s, x);
    RemoveKeepsOffset(s, x);
    var s1, w, home := RemoveWindow(s, x).state, s.windows[x].workspaceId, s.windows[x].columnId;
    hide RemoveWindow;
    if home.Some? && home.value in s1.columns {
      PreferredStaysInStrip(s, s1, x, w, home.value);
    }
    NextFocusWorks(s1, w, home);
    RetargetMoves(s1, w, home);
    var aim := NextFocus(s1, s1.workspaces[w], home);
    hide NextFocus;
    y := aim.value.0;
  }

  lemma RemoveKeepsOffset(s: State, x: WindowId)
    requires x in s.windows && s.windows[x].workspaceId in s.workspaces && RemoveWindow(s, x).result.Ok?
    ensures var s1, w := RemoveWindow(s, x).state, s.windows[x].workspaceId;
            w in s1.workspaces && s1.workspaces[w].strip.scrollOffset == s.workspaces[w].strip.scrollOffset && s1.config == s.config
  {
    hide Remove, Detached;
  }

  /** `Fits` without the offset. */
  ghost predicate PlanFits(s: State, w: WorkspaceId) {
    && HasMonitor(s, w)
    && -LIMIT <= ViewportOf(s, w).x <= LIMIT && ViewportOf(s, w).width <= LIMIT
    && ContentWidth(s, w) <= LIMIT && s.config.columnGap <= LIMIT
  }

  ghost predicate SameSize(s: State, f: State, w: WorkspaceId) {
    && HasMonitor(s, w) && HasMonitor(f, w)
    && ContentWidth(f, w) == ContentWidth(s, w) && ViewportOf(f, w) == ViewportOf(s, w) && f.config == s.config
  }

  lemma RefocusedPlan(s1: State, r: State, w: WorkspaceId, y: WindowId, c: ColumnId)
    requires WellFormed(s1) && w in s1.workspaces && IsTarget(s1, w, (y, Some(c)))
    requires r == RevealIfTiled(SetFocus(s1, s1.workspaces[w].monitorId, w, y, Some(c), ReducerDefault), w, Some(c)).state
    ensures SameSize(s1, r, w)
  {
    hide Topo, Members;
    var m := s1.workspaces[w].monitorId;
    HasItsMonitor(s1, w);
    SetFocusEstablishes(s1, m, w, y, Some(c), ReducerDefault);
    SetFocusOnlyShows(s1, m, w, y, Some(c), ReducerDefault);
    var g := SetFocus(s1, m, w, y, Some(c), ReducerDefault);
    hide SetFocus, OnlyShows, Inv, FocusShown;
    FocusKeepsContent(s1, g, w, Some(c), y);
    ScrollersOnlyScroll(g, w, Some(c), 0);
    ScrolledSize(g, r, w);
    hide ContentWidth, ViewportOf;
  }

  lemma ScrolledSize(g: State, r: State, w: WorkspaceId)
    requires HasMonitor(g, w) && OnlyScrolled(g, r, w)
    ensures SameSize(g, r, w)
  {
    assert HasMonitor(r, w);
    ScrollKeepsStrip(g, r, w);
  }

  /** The window the focus falls on keeps its workspace inhabited. */
  lemma TargetInhabits(r: State, w: WorkspaceId, y: WindowId, c: ColumnId)
    requires WellFormed(r) && w in r.workspaces && IsTarget(r, w, (y, Some(c)))
    ensures !IsEmpty(r.columns, r.workspaces, w)
  {
    HomeInStrip(r, y);
    assert WindowOk(r.columns, r.workspaces, y, r.windows[y]);
    assert ColumnOk(r.windows, r.workspaces, c, r.columns[c]);
  }

  lemma FinalFits(r: State, m: MonitorId, w: WorkspaceId)
    requires WellFormed(r) && HasMonitor(r, w) && !IsEmpty(r.columns, r.workspaces, w)
    requires var f := ClampScrollOffset(EnsureTail(r, m), w).state; HasMonitor(f, w) && Fits(f, w)
    ensures PlanFits(r, w)
  {
    hide Topo, Members, IsEmpty;
    EnsureTailSettles(r, m);
    EnsureTailKeepsOffsets(r, m);
    EnsureTailKeepsPlan(r, m);
    var g := EnsureTail(r, m);
    hide EnsureTail;
    SamePlan(r, g, w);
    ScrollersOnlyScroll(g, w, None, 0);
    var f := ClampScrollOffset(g, w).state;
    ScrolledSize(g, f, w);
    hide ContentWidth, ViewportOf, ClampScrollOffset, Settled, SameOffsets;
  }

  lemma SameFit(r: State, s1: State, w: WorkspaceId)
    requires PlanFits(r, w) && SameSize(s1, r, w) && -LIMIT <= s1.workspaces[w].strip.scrollOffset <= LIMIT
    ensures Fits(s1, w)
  {
    hide ContentWidth, ViewportOf;
  }

  /** When the focused window is destroyed and the focus falls on a column, that column is on the screen. */
  lemma LostFocusIsOnScreen(s: State, x: WindowId, c: ColumnId)
    requires Inv(s) && x in s.windows && s.windows[x].isManaged && s.focus.windowId == Some(x)
    requires s.windows[x].workspaceId in s.workspaces
    requires var w, f := s.windows[x].workspaceId, HandleWindowDestroyed(s, x).state;
             && f.focus.columnId == Some(c) && HasMonitor(f, w) && Fits(f, w)
             && -LIMIT <= s.workspaces[w].strip.scrollOffset <= LIMIT
    ensures OnScreen(HandleWindowDestroyed(s, x).state, s.windows[x].workspaceId, c)
  {
    hide Topo, Members, OnScreen, Fits, IsEmpty;
    var w := s.windows[x].workspaceId;
    RefocusedFrame(s, x);
    DestroyedParts(s, x);
    RefocusSucceeds(s, x);
    RefocusedEmptiness(s, x);
    var r, m := Refocused(s, x).state, s.workspaces[w].monitorId;
    EnsureTailSettles(r, m);
    ClampedSettles(r, m, w);
    var y := LostFocusTarget(s, x, c);
    var s1 := RemoveWindow(s, x).state;
    hide Refocused, RemoveWindow, ClampScrollOffset, EnsureTail, HandleWindowDestroyed;
    RefocusedPlan(s1, r, w, y, c);
    assert IsTarget(r, w, (y, Some(c)));
    TargetInhabits(r, w, y, c);
    FinalFits(r, m, w);
    SameFit(r, s1, w);
    RefocusBringsOn(s1, w, y, c);
    SettledStaysOnScreen(r, m, w, c);
  }

  // ---- where nothing takes the focus -------------------------------------------------------------------

  /** Destroying a window that has no focus scrolls its strip no further than it must. */
  lemma OtherDestroyKeepsOffset(s: State, x: WindowId)
    requires Inv(s) && x in s.windows && s.windows[x].isManaged && s.focus.windowId != Some(x)
    ensures s.windows[x].workspaceId in s.workspaces
    ensures var f, w := HandleWindowDestroyed(s, x).state, s.windows[x].workspaceId;
            w in f.workspaces ==>
              && HasMonitor(f, w)
              && f.workspaces[w].strip.scrollOffset == Clamp(s.workspaces[w].strip.scrollOffset, 0, Max(CommandTargets.Overflow(f, w), 0))
  {
    hide Topo, Members, IsEmpty;
    ManagedHasPlace(s, x);
    var w := s.windows[x].workspaceId;
    var m := s.workspaces[w].monitorId;
    RefocusedFrame(s, x);
    DestroyedParts(s, x);
    RefocusSucceeds(s, x);
    RefocusedEmptiness(s, x);
    RemoveKeepsOffset(s, x);
    RemoveKeepsFocus(s, x);
    var r := Refocused(s, x).state;
    assert r == RemoveWindow(s, x).state;
    hide Refocused, RemoveWindow;
    ClampedSettles(r, m, w);
    EnsureTailSettles(r, m);
    EnsureTailKeepsOffsets(r, m);
    var g := EnsureTail(r, m);
    ClampSucceeds(g, w);
    hide EnsureTail, HasNeighbour;
    ScrollersOnlyScroll(g, w, None, 0);
    ScrollKeepsKeys(g, ClampScrollOffset(g, w).state, w);
    if w in g.workspaces {
      ClampIs(g, w);
      hide ClampScrollOffset;
      if IsEmpty(r.columns, r.workspaces, w) {
        BareOverflow(ClampScrollOffset(g, w).state, w);
      }
    }
  }

  lemma RemoveKeepsFocus(s: State, x: WindowId)
    requires RemoveWindow(s, x).result.Ok?
    ensures RemoveWindow(s, x).state.focus == s.focus
  {
    hide Remove, Detached;
  }

  lemma ClampIs(g: State, w: WorkspaceId)
    requires WellFormed(g) && w in g.workspaces
    ensures HasMonitor(g, w)
    ensures var f := ClampScrollOffset(g, w).state;
            && HasMonitor(f, w)
            && f.workspaces[w].strip.scrollOffset == Clamp(g.workspaces[w].strip.scrollOffset, 0, Max(CommandTargets.Overflow(f, w), 0))
  {
    CommandTargets.MaxIsOverflow(g, w);
    CommandTargets.OverflowIsSmall(g, w);
    ScrollersOnlyScroll(g, w, None, 0);
    ScrolledSize(g, ClampScrollOffset(g, w).state, w);
    hide WellFormed, MaxScrollOffset, ContentWidth, ViewportOf;
  }

  lemma BareOverflow(f: State, w: WorkspaceId)
    requires HasMonitor(f, w) && IsBare(f.workspaces[w])
    ensures CommandTargets.Overflow(f, w) == 0
  {
  }
}
