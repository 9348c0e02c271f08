// What the layout of a well-formed workspace looks like.
module LayoutSoundness {
  import opened Wrappers
  import opened MachineInt
  import opened Domain
  import opened Layout
  import opened Model
  import opened Invariants

  function Ids(geometries: seq<Geometry>): (r: seq<WindowId>)
    ensures |r| == |geometries|
  {
    seq(|geometries|, i requires 0 <= i < |geometries| => geometries[i].windowId)
  }

  lemma IdsOfSum(a: seq<Geometry>, b: seq<Geometry>)
    ensures Ids(a + b) == Ids(a) + Ids(b)
  {
  }

  /** The windows a column lays out. */
  function ColumnShows(column: Column): seq<WindowId> {
    if column.mode != Tabbed then column.orderedWindowIds
    else
      match OrElse(column.tabSelection, First(column.orderedWindowIds))
      case None => []
      case Some(x) => [x]
  }

  // ---- no layout error -------------------------------------------------------------------------

  ghost predicate AllAt(geometries: seq<Geometry>, x: i32, width: u32) {
    forall i :: 0 <= i < |geometries| ==> geometries[i].rect.x == x && geometries[i].rect.width == width
  }

  lemma {:induction false} StackShows(windows: Windows, ids: seq<WindowId>, i: nat, frame: Stacking, y: i32, remaining: u32)
    requires i <= |ids| && 0 < frame.desiredTotal && forall x :: x in ids ==> x in windows
    ensures Stack(windows, ids, i, frame, y, remaining).Ok?
    ensures Ids(Stack(windows, ids, i, frame, y, remaining).value) == ids[i..]
    ensures AllAt(Stack(windows, ids, i, frame, y, remaining).value, frame.x, frame.width)
    decreases |ids| - i
  {
    if i < |ids| {
      var isLast := i == |ids| - 1;
      var height := StackHeight(frame, windows[ids[i]], isLast, remaining);
      StackShows(windows, ids, i + 1, frame, NextY(y, height, isLast, frame.gap), SatU32(remaining - height));
      assert ids[i..] == [ids[i]] + ids[i + 1..];
    }
  }

  lemma ColumnTilesShow(windows: Windows, column: Column, x: i32, width: u32, viewport: Rect, gap: u32)
    requires IsMember(column, column.tabSelection) && forall y :: y in column.orderedWindowIds ==> y in windows
    ensures ColumnTiles(windows, column, x, width, viewport, gap).Ok?
    ensures Ids(ColumnTiles(windows, column, x, width, viewport, gap).value) == ColumnShows(column)
    ensures AllAt(ColumnTiles(windows, column, x, width, viewport, gap).value, x, width)
  {
    if column.mode != Tabbed {
      var frame := StackingFor(windows, column.orderedWindowIds, x, width, viewport.height, gap);
      StackShows(windows, column.orderedWindowIds, 0, frame, viewport.y, frame.tiledHeight);
    }
  }

  /** A strip of good columns of workspace w. */
  ghost predicate GoodStrip(windows: Windows, workspaces: Workspaces, strip: Strip) {
    && NoDup(strip.ids)
    && (forall c :: c in strip.ids ==> c in strip.columns)
    && (forall c {:trigger ColumnOk(windows, workspaces, c, strip.columns[c])} :: c in strip.columns ==> ColumnOk(windows, workspaces, c, strip.columns[c]))
  }

  lemma StripIsGood(s: State, w: WorkspaceId)
    requires WellFormed(s) && w in s.workspaces
    ensures s.workspaces[w].monitorId in s.monitors
    ensures GoodStrip(s.windows, s.workspaces, StripOf(s, w))
  {
    assert HomeOk(s.monitors, s.workspaceSets, w, s.workspaces[w]);
    assert WorkspaceOk(s.windows, s.columns, w, s.workspaces[w]);
    forall c | c in s.workspaces[w].strip.orderedColumnIds ensures c in s.columns {
      assert StripColumnOk(s.windows, s.columns, w, c);
    }
  }

  lemma MembersExist(windows: Windows, workspaces: Workspaces, c: ColumnId, column: Column)
    requires ColumnOk(windows, workspaces, c, column)
    ensures forall x :: x in column.orderedWindowIds ==> x in windows && windows[x].columnId == Some(c)
  {
    forall x | x in column.orderedWindowIds ensures x in windows && windows[x].columnId == Some(c) {
      assert TiledIn(windows, workspaces, c, x);
    }
  }

  /** The ids the strip lays out from column i on. */
  function StripShows(strip: Strip, i: nat): seq<WindowId>
    requires i <= |strip.ids|
    decreases |strip.ids| - i
  {
    if i == |strip.ids| then []
    else (if strip.ids[i] in strip.columns then ColumnShows(strip.columns[strip.ids[i]]) else []) + StripShows(strip, i + 1)
  }

  lemma {:induction false} StripTilesShow(strip: Strip, windows: Windows, workspaces: Workspaces, i: nat, x: i32,
                                          viewport: Rect, config: ConfigProjection)
    requires i <= |strip.ids| && GoodStrip(windows, workspaces, strip)
    ensures StripTiles(strip, windows, i, x, viewport, config).Ok?
    ensures Ids(StripTiles(strip, windows, i, x, viewport, config).value) == StripShows(strip, i)
    decreases |strip.ids| - i
  {
    if i < |strip.ids| {
      var c := strip.ids[i];
      var column := strip.columns[c];
      var width := ResolveWidth(column, strip.viewportWidth);
      assert c in strip.ids && ColumnOk(windows, workspaces, c, column);
      MembersExist(windows, workspaces, c, column);
      ColumnTilesShow(windows, column, x, width, viewport, config.windowGap);
      StripTilesShow(strip, windows, workspaces, i + 1, NextX(x, width, config.columnGap), viewport, config);
      IdsOfSum(ColumnTiles(windows, column, x, width, viewport, config.windowGap).value,
               StripTiles(strip, windows, i + 1, NextX(x, width, config.columnGap), viewport, config).value);
    }
  }

  lemma {:induction false} FloatingTilesShow(windows: Windows, ids: seq<WindowId>, i: nat, workArea: Rect, config: ConfigProjection)
    requires i <= |ids| && forall x :: x in ids ==> x in windows
    ensures FloatingTiles(windows, ids, i, workArea, config).Ok?
    ensures Ids(FloatingTiles(windows, ids, i, workArea, config).value) == ids[i..]
    decreases |ids| - i
  {
    if i < |ids| {
      FloatingTilesShow(windows, ids, i + 1, workArea, config);
      assert ids[i..] == [ids[i]] + ids[i + 1..];
    }
  }

  lemma FloatersExist(s: State, w: WorkspaceId)
    requires WellFormed(s) && w in s.workspaces
    ensures forall x :: x in s.workspaces[w].floatingLayer.orderedWindowIds ==>
              x in s.windows && s.windows[x].columnId == None && s.windows[x].isManaged && s.windows[x].workspaceId == w
  {
    assert WorkspaceOk(s.windows, s.columns, w, s.workspaces[w]);
    forall x | x in s.workspaces[w].floatingLayer.orderedWindowIds
      ensures x in s.windows && s.windows[x].columnId == None && s.windows[x].isManaged && s.windows[x].workspaceId == w
    {
      assert FloatsIn(s.windows, w, x);
    }
  }

  /** The layout of a well-formed workspace never fails; it shows the strip, then the floating layer. */
  lemma LayoutSucceeds(s: State, w: WorkspaceId)
    requires WellFormed(s) && w in s.workspaces
    ensures s.workspaces[w].monitorId in s.monitors
    ensures Recompute(s, w).Ok?
    ensures Ids(Recompute(s, w).value.geometries)
         == StripShows(StripOf(s, w), 0) + s.workspaces[w].floatingLayer.orderedWindowIds
  {
    StripIsGood(s, w);
    var viewport := ViewportOf(s, w);
    var workArea := s.monitors[s.workspaces[w].monitorId].workArea;
    var floating := s.workspaces[w].floatingLayer.orderedWindowIds;
    StripTilesShow(StripOf(s, w), s.windows, s.workspaces, 0, OriginX(s, w), viewport, s.config);
    FloatersExist(s, w);
    FloatingTilesShow(s.windows, floating, 0, workArea, s.config);
    assert floating[0..] == floating;
    IdsOfSum(StripTiles(StripOf(s, w), s.windows, 0, OriginX(s, w), viewport, s.config).value,
             FloatingTiles(s.windows, floating, 0, workArea, s.config).value);
  }

  // ---- each window once ------------------------------------------------------------------------

  lemma {:induction false} NoDupCounts<T>(s: seq<T>, x: T)
    requires NoDup(s)
    ensures multiset(s)[x] == if x in s then 1 else 0
  {
    if s != [] {
      assert s == [s[0]] + s[1..];
      NoDupCounts(s[1..], x);
      assert s[0] !in s[1..];
    }
  }

  ghost predicate ShownFrom(strip: Strip, windows: Windows, i: nat, x: WindowId)
    requires i <= |strip.ids|
  {
    && x in windows && windows[x].columnId.Some?
    && windows[x].columnId.value in strip.ids[i..]
    && windows[x].columnId.value in strip.columns
    && x in ColumnShows(strip.columns[windows[x].columnId.value])
  }

  lemma ColumnShowsOnce(windows: Windows, workspaces: Workspaces, c: ColumnId, column: Column, x: WindowId)
    requires ColumnOk(windows, workspaces, c, column)
    ensures multiset(ColumnShows(column))[x] == if x in ColumnShows(column) then 1 else 0
    ensures x in ColumnShows(column) ==> x in windows && windows[x].columnId == Some(c)
  {
    NoDupCounts(ColumnShows(column), x);
    MembersExist(windows, workspaces, c, column);
  }

  lemma TailWithout(ids: seq<ColumnId>, i: nat)
    requires NoDup(ids) && i < |ids|
    ensures ids[i..] == [ids[i]] + ids[i + 1..] && ids[i] !in ids[i + 1..]
  {
  }

  lemma {:induction false} StripShowsOnce(strip: Strip, windows: Windows, workspaces: Workspaces, i: nat, x: WindowId)
    requires i <= |strip.ids| && GoodStrip(windows, workspaces, strip)
    ensures multiset(StripShows(strip, i))[x] == if ShownFrom(strip, windows, i, x) then 1 else 0
    decreases |strip.ids| - i
  {
    hide ColumnShows, ColumnOk;
    if i < |strip.ids| {
      var c := strip.ids[i];
      assert c in strip.ids && ColumnOk(windows, workspaces, c, strip.columns[c]);
      ColumnShowsOnce(windows, workspaces, c, strip.columns[c], x);
      StripShowsOnce(strip, windows, workspaces, i + 1, x);
      TailWithout(strip.ids, i);
    }
  }

  /** The windows workspace w displays: its floating windows and what its columns show. */
  ghost predicate IsDisplayed(s: State, w: WorkspaceId, x: WindowId) {
    && x in s.windows && s.windows[x].isManaged && s.windows[x].workspaceId == w
    && match s.windows[x].columnId
       case None => true
       case Some(c) => c in s.columns && (s.columns[c].mode == Tabbed ==> s.columns[c].tabSelection == Some(x))
  }

  lemma DisplayedIsShown(s: State, w: WorkspaceId, x: WindowId)
    requires WellFormed(s) && w in s.workspaces && s.workspaces[w].monitorId in s.monitors
    ensures IsDisplayed(s, w, x) <==>
              ShownFrom(StripOf(s, w), s.windows, 0, x) || x in s.workspaces[w].floatingLayer.orderedWindowIds
    ensures ShownFrom(StripOf(s, w), s.windows, 0, x) ==> s.windows[x].columnId.Some?
  {
    var strip := StripOf(s, w);
    assert strip.ids[0..] == strip.ids;
    FloatersExist(s, w);
    assert WorkspaceOk(s.windows, s.columns, w, s.workspaces[w]);
    if x in s.windows {
      assert WindowOk(s.columns, s.workspaces, x, s.windows[x]);
      if s.windows[x].columnId.Some? && s.windows[x].columnId.value in s.columns {
        var c := s.windows[x].columnId.value;
        assert ColumnOk(s.windows, s.workspaces, c, s.columns[c]);
        assert x in s.columns[c].orderedWindowIds ==> TiledIn(s.windows, s.workspaces, c, x);
        assert c in strip.ids ==> StripColumnOk(s.windows, s.columns, w, c);
      }
    }
  }

  /**
   * Each displayed window has exactly one geometry in the layout of its workspace, and no other window has one:
   * every window of a non-tabbed column, the selection of a tabbed column, every floating window.
   */
  lemma EachDisplayedWindowOnce(s: State, w: WorkspaceId, x: WindowId)
    requires WellFormed(s) && w in s.workspaces
    ensures Recompute(s, w).Ok?
    ensures multiset(Ids(Recompute(s, w).value.geometries))[x] == if IsDisplayed(s, w, x) then 1 else 0
  {
    LayoutSucceeds(s, w);
    StripIsGood(s, w);
    StripShowsOnce(StripOf(s, w), s.windows, s.workspaces, 0, x);
    assert WorkspaceOk(s.windows, s.columns, w, s.workspaces[w]);
    NoDupCounts(s.workspaces[w].floatingLayer.orderedWindowIds, x);
    DisplayedIsShown(s, w, x);
    FloatersExist(s, w);
  }

  /** A focused managed window that its column shows is on screen in the layout of its workspace. */
  lemma ShownFocusHasGeometry(s: State)
    requires Inv(s) && FocusShown(s) && s.focus.windowId.Some? && s.windows[s.focus.windowId.value].isManaged
    ensures var x := s.focus.windowId.value;
            var w := s.windows[x].workspaceId;
            && w in s.workspaces && Recompute(s, w).Ok?
            && Recompute(s, w).value.focusedWindowId == Some(x)
            && x in Ids(Recompute(s, w).value.geometries)
  {
    var x := s.focus.windowId.value;
    var w := s.windows[x].workspaceId;
    assert WindowOk(s.columns, s.workspaces, x, s.windows[x]);
    if s.windows[x].columnId.Some? {
      assert ColumnOk(s.windows, s.workspaces, s.windows[x].columnId.value, s.columns[s.windows[x].columnId.value]);
    }
    EachDisplayedWindowOnce(s, w, x);
    assert multiset(Ids(Recompute(s, w).value.geometries))[x] == 1;
  }
}
