// Where tiles are on the screen: how the strip is aligned, how a column fills its height, where floating windows lie.
module TilePlaces {
  import opened Wrappers
  import opened MachineInt
  import opened Domain
  import opened Layout
  import opened Model
  import opened Invariants
  import opened LayoutSoundness
  import opened Reducer
  import opened StripGeometry
  import opened InsertionProofs
  import opened HeightDivision
  import opened FloatingLayout

  // ---- alignment of the strip --------------------------------------------------------------------

  /** The strip is narrower than the viewport. */
  predicate HasSlack(s: State, w: WorkspaceId)
    requires HasMonitor(s, w)
  {
    ContentWidth(s, w) < ViewportOf(s, w).width
  }

  /**
   * A single column with room to spare is centred; several of them end at the right edge while the last one has the
   * focus; any other strip starts as far left of the viewport as it is scrolled.
   */
  lemma StripIsAligned(s: State, w: WorkspaceId, first: Geometry, last: Geometry)
    requires WellFormed(s) && HasMonitor(s, w) && Fits(s, w) && Recompute(s, w).Ok?
    requires s.workspaces[w].strip.orderedColumnIds != []
    requires first in Recompute(s, w).value.geometries && last in Recompute(s, w).value.geometries
    requires BelongsTo(s.windows, first, s.workspaces[w].strip.orderedColumnIds[0])
    requires BelongsTo(s.windows, last, s.workspaces[w].strip.orderedColumnIds[|s.workspaces[w].strip.orderedColumnIds| - 1])
    ensures var ids, viewport := s.workspaces[w].strip.orderedColumnIds, ViewportOf(s, w);
            var left, right := first.rect.x - viewport.x, viewport.x + viewport.width - (last.rect.x + last.rect.width);
            if HasSlack(s, w) && |ids| == 1 then 0 <= right - left <= 1
            else if HasSlack(s, w) && s.focus.columnId == Some(ids[|ids| - 1]) then right == 0
            else left == -s.workspaces[w].strip.scrollOffset
  {
    hide WellFormed, Recompute, OriginX;
    var n := |s.workspaces[w].strip.orderedColumnIds|;
    OriginIsLead(s, w);
    TileIsExact(s, w, first, 0);
    TileIsExact(s, w, last, n - 1);
  }

  // ---- one column on the screen --------------------------------------------------------------------

  /** The tiles of column j, from top to bottom: a run of the geometries of the layout. */
  ghost predicate AreTilesOf(s: State, w: WorkspaceId, j: nat, tiles: seq<Geometry>)
    requires HasMonitor(s, w) && j < |s.workspaces[w].strip.orderedColumnIds|
  {
    && Recompute(s, w).Ok?
    && (forall tile :: tile in tiles ==> tile in Recompute(s, w).value.geometries)
    && (forall tile :: tile in tiles ==> BelongsTo(s.windows, tile, s.workspaces[w].strip.orderedColumnIds[j]))
  }

  lemma {:induction false} ColumnRun(strip: Strip, windows: Windows, workspaces: Workspaces, i: nat, x: i32,
                                     viewport: Rect, config: ConfigProjection, j: nat) returns (at: i32)
    requires i <= j < |strip.ids| && GoodStrip(windows, workspaces, strip)
    ensures StripTiles(strip, windows, i, x, viewport, config).Ok? && strip.ids[j] in strip.columns
    ensures var own := ColumnTiles(windows, strip.columns[strip.ids[j]], at, strip.Width(j), viewport, config.windowGap);
            && own.Ok?
            && (forall tile :: tile in own.value ==> tile in StripTiles(strip, windows, i, x, viewport, config).value)
            && (forall tile :: tile in own.value ==> BelongsTo(windows, tile, strip.ids[j]))
    decreases |strip.ids| - i
  {
    hide ColumnTiles, NextX;
    StripTilesShow(strip, windows, workspaces, i, x, viewport, config);
    assert strip.ids[i] in strip.ids && strip.ids[j] in strip.ids;
    StripTilesParts(strip, windows, i, x, viewport, config);
    if i == j {
      at := x;
      OwnTilesBelong(strip, windows, workspaces, i, x, viewport, config.windowGap);
    } else {
      at := ColumnRun(strip, windows, workspaces, i + 1, NextX(x, strip.Width(i), config.columnGap), viewport, config, j);
    }
  }

  lemma ColumnIsRun(s: State, w: WorkspaceId, j: nat) returns (at: i32)
    requires WellFormed(s) && w in s.workspaces && j < |s.workspaces[w].strip.orderedColumnIds|
    ensures HasMonitor(s, w) && s.workspaces[w].strip.orderedColumnIds[j] in s.columns
    ensures var c := s.workspaces[w].strip.orderedColumnIds[j];
            var own := ColumnTiles(s.windows, s.columns[c], at, StripOf(s, w).Width(j), ViewportOf(s, w), s.config.windowGap);
            own.Ok? && AreTilesOf(s, w, j, own.value)
  {
    LayoutSucceeds(s, w);
    StripIsGood(s, w);
    hide Topo, Members, ColumnTiles, StripTiles, GoodStrip;
    at := ColumnRun(StripOf(s, w), s.windows, s.workspaces, 0, OriginX(s, w), ViewportOf(s, w), s.config, j);
  }

  /** The selection of a tabbed column takes the whole height of the viewport. */
  lemma TabFillsViewport(s: State, w: WorkspaceId, j: nat, tile: Geometry)
    requires WellFormed(s) && w in s.workspaces && j < |s.workspaces[w].strip.orderedColumnIds|
    requires HasMonitor(s, w) && s.workspaces[w].strip.orderedColumnIds[j] in s.columns
    requires s.columns[s.workspaces[w].strip.orderedColumnIds[j]].mode == Tabbed
    requires AreTilesOf(s, w, j, [tile])
    ensures tile.rect.y == ViewportOf(s, w).y && tile.rect.height == ViewportOf(s, w).height
    ensures s.columns[s.workspaces[w].strip.orderedColumnIds[j]].tabSelection == Some(tile.windowId)
  {
    var c := s.workspaces[w].strip.orderedColumnIds[j];
    var at := ColumnIsRun(s, w, j);
    assert ColumnOk(s.windows, s.workspaces, c, s.columns[c]);
    var own := ColumnTiles(s.windows, s.columns[c], at, StripOf(s, w).Width(j), ViewportOf(s, w), s.config.windowGap).value;
    assert |own| == 1;
    assert own[0] in own && tile in [tile];
    SameWindowSameTile(s, w, own[0], tile, c);
  }

  /** In a tabbed column there is one tile. */
  lemma SameWindowSameTile(s: State, w: WorkspaceId, a: Geometry, b: Geometry, c: ColumnId)
    requires WellFormed(s) && w in s.workspaces && Recompute(s, w).Ok?
    requires a in Recompute(s, w).value.geometries && b in Recompute(s, w).value.geometries
    requires c in s.columns && s.columns[c].mode == Tabbed && BelongsTo(s.windows, a, c) && BelongsTo(s.windows, b, c)
    ensures a == b
  {
    var geometries := Recompute(s, w).value.geometries;
    EachDisplayedWindowOnce(s, w, a.windowId);
    EachDisplayedWindowOnce(s, w, b.windowId);
    var i :| 0 <= i < |geometries| && geometries[i] == a;
    var k :| 0 <= k < |geometries| && geometries[k] == b;
    hide Recompute, WellFormed;
    IdAt(geometries, i);
    IdAt(geometries, k);
    if i != k {
      TwiceCounted(geometries, Min(i, k), Max(i, k));
    }
  }

  lemma IdAt(geometries: seq<Geometry>, i: nat)
    requires i < |geometries|
    ensures multiset(Ids(geometries))[geometries[i].windowId] >= 1
  {
    assert Ids(geometries)[i] == geometries[i].windowId;
    assert geometries[i].windowId in Ids(geometries);
  }

  lemma TwiceCounted(geometries: seq<Geometry>, i: nat, k: nat)
    requires i < k < |geometries| && geometries[i].windowId == geometries[k].windowId
    ensures multiset(Ids(geometries))[geometries[i].windowId] >= 2
  {
    var ids := Ids(geometries);
    assert ids == ids[..i] + [ids[i]] + ids[i + 1..k] + [ids[k]] + ids[k + 1..];
  }

  /** Desired heights as the windows state them, a pixel at least. */
  function Wanted(windows: Windows, ids: seq<WindowId>): nat
    requires forall x :: x in ids ==> x in windows
  {
    if ids == [] then 0
    else Wanted(windows, ids[..|ids| - 1]) + Max(windows[ids[|ids| - 1]].desiredSize.height, 1)
  }

  lemma {:induction false} WantedIsDesired(windows: Windows, ids: seq<WindowId>, n: nat)
    requires n <= |ids| && forall x :: x in ids ==> x in windows
    ensures Wanted(windows, ids[..n]) == DesiredSum(windows, ids, n)
  {
    if n > 0 {
      WantedIsDesired(windows, ids, n - 1);
      assert ids[..n][..n - 1] == ids[..n - 1];
    }
  }

  /** The height a column has for its windows: the viewport without the gaps between them. */
  function Room(height: int, gap: int, n: nat): int { height - (n - 1) * gap }

  /** The rounded share of a height, a pixel at least. */
  predicate IsShare(h: int, room: nat, wanted: nat, total: nat) {
    if room * wanted < total then h == 1 else h * total <= room * wanted < (h + 1) * total
  }

  lemma ShareIsRounded(room: nat, wanted: nat, total: nat)
    requires 0 < total
    ensures IsShare(Max(room * wanted / total, 1), room, wanted, total)
  {
    var q, r := room * wanted / total, room * wanted % total;
    assert room * wanted == q * total + r;
    assert (q + 1) * total == q * total + total;
    if q > 0 {
      assert q * total == (q - 1) * total + total;
      Nonnegative(q - 1, total);
    }
  }

  lemma Nonnegative(a: nat, b: nat)
    ensures a * b >= 0
  {
  }

  /** Each window but the last has its exact share, a pixel at least; the last has what is left. */
  lemma {:induction false} StackShares(windows: Windows, ids: seq<WindowId>, i: nat, k: nat, frame: Stacking, y: i32, remaining: u32)
    requires FairFrame(windows, ids, frame) && i <= k < |ids|
    requires remaining == Max(frame.tiledHeight - Taken(windows, ids, frame, i), 0)
    ensures Stack(windows, ids, i, frame, y, remaining).Ok?
    ensures var tiles := Stack(windows, ids, i, frame, y, remaining).value;
            && |tiles| == |ids| - i
            && tiles[k - i].windowId == ids[k] && tiles[k - i].layer == windows[ids[k]].layer
            && tiles[k - i].rect.height == if k < |ids| - 1 then Max(ExactShare(windows, ids, frame, k), 1)
                                           else Max(frame.tiledHeight - Taken(windows, ids, frame, |ids| - 1), 1)
    decreases |ids| - i
  {
    hide NextY, Share;
    var isLast := i == |ids| - 1;
    var height := StackHeight(frame, windows[ids[i]], isLast, remaining);
    ShareDoesNotWrap(windows, ids, frame, i);
    StackShows(windows, ids, i, frame, y, remaining);
    if !isLast {
      assert height == Taken(windows, ids, frame, i + 1) - Taken(windows, ids, frame, i);
      StackShares(windows, ids, i + 1, Max(k, i + 1), frame, NextY(y, height, isLast, frame.gap), SatU32(remaining - height));
    }
  }

  lemma {:induction false} ExtentIs(tiles: seq<Geometry>, gap: nat)
    ensures Extent(tiles, gap) == HeightSum(tiles) + |tiles| * gap
  {
    if tiles != [] {
      ExtentIs(tiles[1..], gap);
      assert |tiles| * gap == (|tiles| - 1) * gap + gap;
    }
  }

  lemma {:induction false} FewZeroShares(windows: Windows, ids: seq<WindowId>, frame: Stacking, n: nat)
    requires n <= |ids| && AllExist(windows, ids) && 0 < frame.desiredTotal
    ensures ZeroShares(windows, ids, frame, n) <= n
  {
    hide ExactShare;
    if n > 0 {
      FewZeroShares(windows, ids, frame, n - 1);
    }
  }

  /** The gaps of a column fit, its wanted heights add up in 32 bits, and its bottom edge is far from the end of the range. */
  ghost predicate Roomy(windows: Windows, ids: seq<WindowId>, viewport: Rect, gap: u32)
    requires forall x :: x in ids ==> x in windows
  {
    && Wanted(windows, ids) <= U32_MAX
    && (|ids| - 1) * gap < viewport.height
    && viewport.y + viewport.height + gap + |ids| <= I32_MAX
    && gap <= I32_MAX
  }

  /**
   * The tiles of a column from the top of the viewport down, the gap between them. All but the last get the share of
   * the height that they want of all wanted heights; the last gets what they leave, a pixel at least.
   */
  ghost predicate FillsHeight(windows: Windows, ids: seq<WindowId>, viewport: Rect, gap: u32, tiles: seq<Geometry>)
    requires forall x :: x in ids ==> x in windows
  {
    var n, room := |ids|, viewport.height - (|ids| - 1) * gap;
    && |tiles| == n && n > 0 && room > 0
    && StackedBelow(tiles, viewport.y, gap)
    && (forall k :: 0 <= k < n ==> tiles[k].windowId == ids[k] && tiles[k].layer == windows[ids[k]].layer)
    && (forall k :: 0 <= k < n - 1 ==>
          IsShare(tiles[k].rect.height, room, Max(windows[ids[k]].desiredSize.height, 1), Wanted(windows, ids)))
    && tiles[n - 1].rect.height == Max(room - (HeightSum(tiles) - tiles[n - 1].rect.height), 1)
  }

  /** What the layout does with the height of a column with room: the frame is the room, and 32 bits suffice. */
  lemma RoomIsTiled(windows: Windows, ids: seq<WindowId>, x: i32, width: u32, viewport: Rect, gap: u32)
    requires AllExist(windows, ids) && ids != [] && Roomy(windows, ids, viewport, gap)
    ensures var frame := StackingFor(windows, ids, x, width, viewport.height, gap);
            && FairFrame(windows, ids, frame) && frame.gap == gap
            && frame.tiledHeight == viewport.height - (|ids| - 1) * gap
            && frame.desiredTotal == Wanted(windows, ids)
  {
    assert ids[..|ids|] == ids;
    WantedIsDesired(windows, ids, |ids|);
    FrameIsFair(windows, ids, x, width, viewport.height, gap);
    hide FairFrame, DesiredSum, Wanted;
    GapsFit(|ids|, gap, viewport.height);
  }

  lemma GapsFit(n: nat, gap: u32, height: u32)
    requires 0 < n && (n - 1) * gap < height && n <= U32_MAX
    ensures GapTotal(n, gap) == (n - 1) * gap
  {
  }

  lemma BottomFits(y: int, height: int, gap: nat, n: nat, sum: nat, zeros: nat, taken: nat, extent: int)
    requires taken == (n - 1) * gap && 0 < n && sum <= height - taken + zeros && zeros <= n
    requires extent == sum + n * gap && y + height + gap + n <= I32_MAX
    ensures y + extent <= I32_MAX
  {
    assert n * gap == (n - 1) * gap + gap;
  }

  lemma StackEdges(windows: Windows, ids: seq<WindowId>, x: i32, width: u32, viewport: Rect, gap: u32)
    requires AllExist(windows, ids) && ids != [] && Roomy(windows, ids, viewport, gap)
    ensures var frame := StackingFor(windows, ids, x, width, viewport.height, gap);
            && Stack(windows, ids, 0, frame, viewport.y, frame.tiledHeight).Ok?
            && StackedBelow(Stack(windows, ids, 0, frame, viewport.y, frame.tiledHeight).value, viewport.y, gap)
            && HeightSum(Stack(windows, ids, 0, frame, viewport.y, frame.tiledHeight).value)
               == Taken(windows, ids, frame, |ids| - 1) + Max(frame.tiledHeight - Taken(windows, ids, frame, |ids| - 1), 1)
  {
    var frame := StackingFor(windows, ids, x, width, viewport.height, gap);
    RoomIsTiled(windows, ids, x, width, viewport, gap);
    assert ids[..|ids|] == ids;
    WantedIsDesired(windows, ids, |ids|);
    HeightsNearlyFill(windows, ids, x, width, viewport, gap);
    StackTakes(windows, ids, 0, frame, viewport.y, frame.tiledHeight);
    FewZeroShares(windows, ids, frame, |ids| - 1);
    StackShows(windows, ids, 0, frame, viewport.y, frame.tiledHeight);
    assert gap <= I32_MAX && viewport.y + viewport.height + gap + |ids| <= I32_MAX;
    hide Stack, ShareSum, ZeroShares, StackingFor, FairFrame, DesiredSum, Wanted, Extent, HeightSum, Roomy, StackedBelow;
    var tiles := Stack(windows, ids, 0, frame, viewport.y, frame.tiledHeight).value;
    ExtentIs(tiles, gap);
    BottomFits(viewport.y, viewport.height, gap, |ids|, HeightSum(tiles), ZeroShares(windows, ids, frame, |ids| - 1),
               (|ids| - 1) * gap, Extent(tiles, gap));
    StackIsContiguous(windows, ids, 0, frame, viewport.y, frame.tiledHeight);
  }

  lemma StackFills(windows: Windows, ids: seq<WindowId>, x: i32, width: u32, viewport: Rect, gap: u32)
    requires AllExist(windows, ids) && ids != [] && Roomy(windows, ids, viewport, gap)
    ensures var frame := StackingFor(windows, ids, x, width, viewport.height, gap);
            && Stack(windows, ids, 0, frame, viewport.y, frame.tiledHeight).Ok?
            && FillsHeight(windows, ids, viewport, gap, Stack(windows, ids, 0, frame, viewport.y, frame.tiledHeight).value)
  {
    var frame := StackingFor(windows, ids, x, width, viewport.height, gap);
    RoomIsTiled(windows, ids, x, width, viewport, gap);
    StackEdges(windows, ids, x, width, viewport, gap);
    assert viewport.height - (|ids| - 1) * gap > 0;
    hide Stack, StackingFor, Wanted, StackedBelow, Roomy, HeightSum, FairFrame, IsShare;
    StackHeights(windows, ids, frame, viewport.y);
  }

  /** Every window has its tile, all but the last with their shares, the last with what they leave. */
  lemma StackHeights(windows: Windows, ids: seq<WindowId>, frame: Stacking, y: i32)
    requires FairFrame(windows, ids, frame) && ids != []
    ensures Stack(windows, ids, 0, frame, y, frame.tiledHeight).Ok?
    ensures var tiles := Stack(windows, ids, 0, frame, y, frame.tiledHeight).value;
            && |tiles| == |ids|
            && (forall k :: 0 <= k < |ids| ==> tiles[k].windowId == ids[k] && tiles[k].layer == windows[ids[k]].layer)
            && (forall k :: 0 <= k < |ids| - 1 ==>
                  IsShare(tiles[k].rect.height, frame.tiledHeight, Max(windows[ids[k]].desiredSize.height, 1), frame.desiredTotal))
            && tiles[|ids| - 1].rect.height == Max(frame.tiledHeight - Taken(windows, ids, frame, |ids| - 1), 1)
  {
    NothingTaken(windows, ids, frame);
    hide Stack, Taken, ExactShare, IsShare, FairFrame;
    forall k: nat | k < |ids|
      ensures Stack(windows, ids, 0, frame, y, frame.tiledHeight).Ok?
      ensures var tiles := Stack(windows, ids, 0, frame, y, frame.tiledHeight).value;
              && |tiles| == |ids| && tiles[k].windowId == ids[k] && tiles[k].layer == windows[ids[k]].layer
              && (k < |ids| - 1 ==>
                    IsShare(tiles[k].rect.height, frame.tiledHeight, Max(windows[ids[k]].desiredSize.height, 1), frame.desiredTotal))
    {
      StackShares(windows, ids, 0, k, frame, y, frame.tiledHeight);
      ExactIsShare(windows, ids, frame, k);
    }
    StackShares(windows, ids, 0, |ids| - 1, frame, y, frame.tiledHeight);
  }

  lemma NothingTaken(windows: Windows, ids: seq<WindowId>, frame: Stacking)
    requires AllExist(windows, ids) && 0 < frame.desiredTotal
    ensures Taken(windows, ids, frame, 0) == 0
  {
  }

  lemma ExactIsShare(windows: Windows, ids: seq<WindowId>, frame: Stacking, k: nat)
    requires FairFrame(windows, ids, frame) && k < |ids|
    ensures IsShare(Max(ExactShare(windows, ids, frame, k), 1), frame.tiledHeight, Max(windows[ids[k]].desiredSize.height, 1), frame.desiredTotal)
  {
    hide IsShare, DesiredSum;
    ShareIsRounded(frame.tiledHeight, DesiredHeight(windows[ids[k]]), frame.desiredTotal);
  }

  /** A column that is not tabbed fills the height of the viewport with its windows. */
  lemma ColumnFillsViewport(s: State, w: WorkspaceId, j: nat) returns (tiles: seq<Geometry>)
    requires WellFormed(s) && w in s.workspaces && j < |s.workspaces[w].strip.orderedColumnIds|
    requires HasMonitor(s, w) && s.workspaces[w].strip.orderedColumnIds[j] in s.columns
    requires s.columns[s.workspaces[w].strip.orderedColumnIds[j]].mode != Tabbed
    requires var ids := s.columns[s.workspaces[w].strip.orderedColumnIds[j]].orderedWindowIds;
             (forall x :: x in ids ==> x in s.windows) && Roomy(s.windows, ids, ViewportOf(s, w), s.config.windowGap)
    ensures AreTilesOf(s, w, j, tiles)
    ensures FillsHeight(s.windows, s.columns[s.workspaces[w].strip.orderedColumnIds[j]].orderedWindowIds,
                        ViewportOf(s, w), s.config.windowGap, tiles)
  {
    var c := s.workspaces[w].strip.orderedColumnIds[j];
    var at := ColumnIsRun(s, w, j);
    tiles := ColumnTiles(s.windows, s.columns[c], at, StripOf(s, w).Width(j), ViewportOf(s, w), s.config.windowGap).value;
    assert ColumnOk(s.windows, s.workspaces, c, s.columns[c]);
    StackFills(s.windows, s.columns[c].orderedWindowIds, at, StripOf(s, w).Width(j), ViewportOf(s, w), s.config.windowGap);
    hide Topo, Members, FillsHeight, AreTilesOf, Roomy, Stack, Wanted;
  }

  // ---- floating windows ------------------------------------------------------------------------------

  /**
   * A floating window lies at the whole work area when it is fullscreen, else where it was last seen, else inside the
   * margin; after the tiles, in the order of the floating layer.
   */
  lemma FloaterIsAt(s: State, w: WorkspaceId, k: nat)
    requires WellFormed(s) && w in s.workspaces && k < |s.workspaces[w].floatingLayer.orderedWindowIds|
    ensures HasMonitor(s, w) && Recompute(s, w).Ok?
    ensures var ids, area := s.workspaces[w].floatingLayer.orderedWindowIds, s.monitors[s.workspaces[w].monitorId].workArea;
            var geometries := Recompute(s, w).value.geometries;
            var i := |geometries| - |ids| + k;
            && 0 <= i < |geometries| && ids[k] in s.windows
            && var window, g := s.windows[ids[k]], geometries[i];
            && g.windowId == ids[k] && g.layer == window.layer
            && (window.layer == Fullscreen || window.isFullscreen ==> g.rect == area)
            && (window.layer != Fullscreen && !window.isFullscreen && window.lastKnownRect.width > 0 && window.lastKnownRect.height > 0
                ==> g.rect == window.lastKnownRect)
            && (window.layer != Fullscreen && !window.isFullscreen && (window.lastKnownRect.width == 0 || window.lastKnownRect.height == 0)
                && EdgesFit(area) && s.config.floatingMargin <= I32_MAX
                ==> var m := s.config.floatingMargin;
                    && g.rect.x == area.x + Min(m, area.width - 1) && g.rect.y == area.y + Min(m, area.height - 1)
                    && g.rect.width == Min(Max(window.desiredSize.width, 1), Max(area.width - 2 * m, 1))
                    && g.rect.height == Min(Max(window.desiredSize.height, 1), Max(area.height - 2 * m, 1)))
  {
    FloatersComeLast(s, w, k);
    hide WellFormed, Recompute;
    var window := s.windows[s.workspaces[w].floatingLayer.orderedWindowIds[k]];
    var area := s.monitors[s.workspaces[w].monitorId].workArea;
    if EdgesFit(area) && s.config.floatingMargin <= I32_MAX {
      var m := s.config.floatingMargin;
      InsetStaysInside(area, EdgeInsets(m, m, m, m));
    }
    hide InsetRect;
  }

  /** What else the layout reports. */
  lemma ProjectionReports(s: State, w: WorkspaceId)
    requires WellFormed(s) && w in s.workspaces
    ensures HasMonitor(s, w) && Recompute(s, w).Ok?
    ensures var projection := Recompute(s, w).value;
            && projection.workspaceId == w && projection.viewport == ViewportOf(s, w)
            && projection.scrollOffset == s.workspaces[w].strip.scrollOffset
            && projection.contentWidth == Min(ContentWidth(s, w), U32_MAX)
            && (forall x :: projection.focusedWindowId == Some(x) <==>
                              s.focus.windowId == Some(x) && x in s.windows && s.windows[x].workspaceId == w)
  {
    LayoutSucceeds(s, w);
    hide WellFormed, StripTiles, FloatingTiles, ContentWidth;
  }

  /** A layout fails for an unknown workspace, an unknown monitor, and a missing column, in this order. */
  lemma LayoutFails(s: State, w: WorkspaceId)
    ensures w !in s.workspaces ==> Recompute(s, w) == Err(WorkspaceMissing(w))
    ensures w in s.workspaces && s.workspaces[w].monitorId !in s.monitors ==> Recompute(s, w) == Err(MonitorMissing)
    ensures HasMonitor(s, w) && (exists c :: c in s.workspaces[w].strip.orderedColumnIds && c !in s.columns) ==>
              Recompute(s, w) == Err(ColumnMissing)
  {
    hide StripTiles, FloatingTiles, ContentWidth;
  }
}
