// Where the columns of a strip are: exact positions, within bounds under which 32 bits suffice.
module StripGeometry {
  import opened Wrappers
  import opened MachineInt
  import opened Domain
  import opened Layout
  import opened Model
  import opened Invariants
  import opened LayoutSoundness
  import opened Reducer

  const LIMIT: int := 0x1000_0000

  ghost predicate HasMonitor(s: State, w: WorkspaceId) {
    w in s.workspaces && s.workspaces[w].monitorId in s.monitors
  }

  /** A workspace whose coordinates are far enough from the ends of the 32-bit range. */
  ghost predicate Fits(s: State, w: WorkspaceId)
    requires HasMonitor(s, w)
  {
    && -LIMIT <= ViewportOf(s, w).x <= LIMIT
    && ViewportOf(s, w).width <= LIMIT
    && ContentWidth(s, w) <= LIMIT
    && s.config.columnGap <= LIMIT
    && -LIMIT <= s.workspaces[w].strip.scrollOffset <= LIMIT
  }

  // ---- offsets in the strip --------------------------------------------------------------------

  lemma {:induction false} OffsetsGrow(strip: Strip, j: nat, k: nat, gap: nat)
    requires j < k <= |strip.ids|
    ensures strip.Offset(j, gap) + strip.Width(j) + gap <= strip.Offset(k, gap)
  {
    if j + 1 < k {
      OffsetsGrow(strip, j, k - 1, gap);
    }
  }

  lemma ColumnWithinSpan(strip: Strip, j: nat, gap: nat)
    requires j < |strip.ids|
    ensures strip.Offset(j, gap) + strip.Width(j) <= strip.Span(|strip.ids|, gap)
  {
    if j < |strip.ids| - 1 {
      OffsetsGrow(strip, j, |strip.ids| - 1, gap);
    }
  }

  // ---- the cursor of the layout loop -----------------------------------------------------------

  lemma CursorIsExact(x: i32, width: u32, gap: u32)
    requires x + width + gap <= I32_MAX && gap <= I32_MAX
    ensures NextX(x, width, gap) == x + width + gap
  {
    WrapAddsLength(x, width);
    WrapFixes(x + width + gap);
  }

  /** Tiles of column j lie at the strip's origin plus the column's offset. */
  ghost predicate PlacedAt(strip: Strip, windows: Windows, tile: Geometry, origin: int, gap: nat) {
    forall j :: 0 <= j < |strip.ids| && tile.windowId in windows && windows[tile.windowId].columnId == Some(strip.ids[j]) ==>
      tile.rect.x == origin + strip.Offset(j, gap) && tile.rect.width == strip.Width(j)
  }

  lemma OwnTilesBelong(strip: Strip, windows: Windows, workspaces: Workspaces, i: nat, x: i32, viewport: Rect, gap: u32)
    requires i < |strip.ids| && GoodStrip(windows, workspaces, strip)
    ensures strip.ids[i] in strip.columns
    ensures var own := ColumnTiles(windows, strip.columns[strip.ids[i]], x, strip.Width(i), viewport, gap);
            && own.Ok? && own.value != [] && AllAt(own.value, x, strip.Width(i))
            && forall k :: 0 <= k < |own.value| ==> BelongsTo(windows, own.value[k], strip.ids[i])
  {
    hide ColumnTiles;
    var c := strip.ids[i];
    var column := strip.columns[c];
    assert c in strip.ids && ColumnOk(windows, workspaces, c, column);
    MembersExist(windows, workspaces, c, column);
    ColumnTilesShow(windows, column, x, strip.Width(i), viewport, gap);
    var own := ColumnTiles(windows, column, x, strip.Width(i), viewport, gap).value;
    forall k | 0 <= k < |own| ensures BelongsTo(windows, own[k], c) {
      assert Ids(own)[k] in ColumnShows(column);
    }
  }

  lemma OwnTilesPlaced(strip: Strip, windows: Windows, workspaces: Workspaces, i: nat, x: i32, viewport: Rect,
                       config: ConfigProjection, origin: int)
    requires i < |strip.ids| && GoodStrip(windows, workspaces, strip)
    requires x == origin + strip.Offset(i, config.columnGap)
    ensures strip.ids[i] in strip.columns
    ensures var own := ColumnTiles(windows, strip.columns[strip.ids[i]], x, strip.Width(i), viewport, config.windowGap);
            && own.Ok? && own.value != []
            && (forall k :: 0 <= k < |own.value| ==> PlacedAt(strip, windows, own.value[k], origin, config.columnGap))
            && (forall k :: 0 <= k < |own.value| ==> BelongsTo(windows, own.value[k], strip.ids[i]))
  {
    hide ColumnTiles, PlacedAt;
    OwnTilesBelong(strip, windows, workspaces, i, x, viewport, config.windowGap);
    var own := ColumnTiles(windows, strip.columns[strip.ids[i]], x, strip.Width(i), viewport, config.windowGap).value;
    forall k | 0 <= k < |own| ensures PlacedAt(strip, windows, own[k], origin, config.columnGap) {
      OwnTilePlaced(strip, windows, own[k], i, origin, config.columnGap);
    }
  }

  lemma OwnTilePlaced(strip: Strip, windows: Windows, tile: Geometry, i: nat, origin: int, gap: nat)
    requires i < |strip.ids| && NoDup(strip.ids) && BelongsTo(windows, tile, strip.ids[i])
    requires tile.rect.x == origin + strip.Offset(i, gap) && tile.rect.width == strip.Width(i)
    ensures PlacedAt(strip, windows, tile, origin, gap)
  {
  }

  lemma {:induction false} TilesPlaced(strip: Strip, windows: Windows, workspaces: Workspaces, i: nat, x: i32,
                                       viewport: Rect, config: ConfigProjection, origin: int)
    requires i <= |strip.ids| && GoodStrip(windows, workspaces, strip)
    requires x == origin + strip.Offset(i, config.columnGap)
    requires origin + strip.Span(|strip.ids|, config.columnGap) + config.columnGap <= I32_MAX && config.columnGap <= I32_MAX
    ensures StripTiles(strip, windows, i, x, viewport, config).Ok?
    ensures forall tile :: tile in StripTiles(strip, windows, i, x, viewport, config).value ==>
              PlacedAt(strip, windows, tile, origin, config.columnGap)
    decreases |strip.ids| - i
  {
    hide ColumnTiles, NextX;
    StripTilesShow(strip, windows, workspaces, i, x, viewport, config);
    if i < |strip.ids| {
      var gap := config.columnGap;
      assert strip.ids[i] in strip.ids;
      OwnTilesPlaced(strip, windows, workspaces, i, x, viewport, config, origin);
      ColumnWithinSpan(strip, i, gap);
      CursorIsExact(x, strip.Width(i), gap);
      var next := NextX(x, strip.Width(i), gap);
      TilesPlaced(strip, windows, workspaces, i + 1, next, viewport, config, origin);
    }
  }

  lemma StripTilesParts(strip: Strip, windows: Windows, i: nat, x: i32, viewport: Rect, config: ConfigProjection)
    requires i < |strip.ids| && strip.ids[i] in strip.columns
    requires StripTiles(strip, windows, i, x, viewport, config).Ok?
    ensures var own := ColumnTiles(windows, strip.columns[strip.ids[i]], x, strip.Width(i), viewport, config.windowGap);
            var rest := StripTiles(strip, windows, i + 1, NextX(x, strip.Width(i), config.columnGap), viewport, config);
            own.Ok? && rest.Ok? && StripTiles(strip, windows, i, x, viewport, config).value == own.value + rest.value
  {
  }

  /** Every column of the strip has a tile. */
  lemma {:induction false} ColumnHasTile(strip: Strip, windows: Windows, workspaces: Workspaces, i: nat, x: i32,
                                         viewport: Rect, config: ConfigProjection, j: nat) returns (tile: Geometry)
    requires i <= j < |strip.ids| && GoodStrip(windows, workspaces, strip)
    ensures StripTiles(strip, windows, i, x, viewport, config).Ok?
    ensures tile in StripTiles(strip, windows, i, x, viewport, config).value && BelongsTo(windows, tile, strip.ids[j])
    decreases |strip.ids| - i
  {
    StripTilesShow(strip, windows, workspaces, i, x, viewport, config);
    assert strip.ids[i] in strip.ids;
    StripTilesParts(strip, windows, i, x, viewport, config);
    if i == j {
      OwnTilesPlaced(strip, windows, workspaces, i, x, viewport, config, x - strip.Offset(i, config.columnGap));
      tile := ColumnTiles(windows, strip.columns[strip.ids[i]], x, strip.Width(i), viewport, config.windowGap).value[0];
    } else {
      tile := ColumnHasTile(strip, windows, workspaces, i + 1, NextX(x, strip.Width(i), config.columnGap), viewport, config, j);
    }
  }

  // ---- the workspace ---------------------------------------------------------------------------

  /** Exact x of column j in the layout of workspace w. */
  function ColumnX(s: State, w: WorkspaceId, j: nat): int
    requires w in s.workspaces && s.workspaces[w].monitorId in s.monitors
    requires j < |s.workspaces[w].strip.orderedColumnIds|
  {
    OriginX(s, w) + StripOf(s, w).Offset(j, s.config.columnGap)
  }

  lemma OriginIsBounded(s: State, w: WorkspaceId)
    requires HasMonitor(s, w) && Fits(s, w)
    ensures -3 * LIMIT <= OriginX(s, w) <= 3 * LIMIT
  {
  }

  lemma FloatersAreNotTiled(s: State, w: WorkspaceId, tile: Geometry)
    requires WellFormed(s) && HasMonitor(s, w) && Recompute(s, w).Ok?
    requires tile in Recompute(s, w).value.geometries && tile.windowId in s.windows && s.windows[tile.windowId].columnId.Some?
    ensures StripTiles(StripOf(s, w), s.windows, 0, OriginX(s, w), ViewportOf(s, w), s.config).Ok?
    ensures tile in StripTiles(StripOf(s, w), s.windows, 0, OriginX(s, w), ViewportOf(s, w), s.config).value
  {
    var floating := s.workspaces[w].floatingLayer.orderedWindowIds;
    var workArea := s.monitors[s.workspaces[w].monitorId].workArea;
    FloatersExist(s, w);
    FloatingTilesShow(s.windows, floating, 0, workArea, s.config);
    var floaters := FloatingTiles(s.windows, floating, 0, workArea, s.config).value;
    forall k | 0 <= k < |floaters| ensures floaters[k] != tile {
      assert Ids(floaters)[k] == floating[k] && floating[k] in floating;
    }
  }

  /** Within the bounds a tile of column j lies at the column's exact position with the column's width. */
  lemma TileIsExact(s: State, w: WorkspaceId, tile: Geometry, j: nat)
    requires WellFormed(s) && HasMonitor(s, w) && Fits(s, w) && j < |s.workspaces[w].strip.orderedColumnIds|
    requires Recompute(s, w).Ok? && tile in Recompute(s, w).value.geometries
    requires BelongsTo(s.windows, tile, s.workspaces[w].strip.orderedColumnIds[j])
    ensures tile.rect.x == ColumnX(s, w, j) && tile.rect.width == StripOf(s, w).Width(j)
  {
    StripIsGood(s, w);
    OriginIsBounded(s, w);
    FloatersAreNotTiled(s, w, tile);
    var strip := StripOf(s, w);
    TilesPlaced(strip, s.windows, s.workspaces, 0, OriginX(s, w), ViewportOf(s, w), s.config, OriginX(s, w));
    assert PlacedAt(strip, s.windows, tile, OriginX(s, w), s.config.columnGap);
  }

  /** Every column is on the layout with at least one tile. */
  lemma ColumnIsLaidOut(s: State, w: WorkspaceId, j: nat) returns (tile: Geometry)
    requires WellFormed(s) && HasMonitor(s, w) && j < |s.workspaces[w].strip.orderedColumnIds|
    ensures Recompute(s, w).Ok? && tile in Recompute(s, w).value.geometries
    ensures BelongsTo(s.windows, tile, s.workspaces[w].strip.orderedColumnIds[j])
  {
    LayoutSucceeds(s, w);
    StripIsGood(s, w);
    tile := ColumnHasTile(StripOf(s, w), s.windows, s.workspaces, 0, OriginX(s, w), ViewportOf(s, w), s.config, j);
  }

  /**
   * Tiles of different columns do not overlap: the gap lies between them, exactly the gap between neighbours,
   * and the whole strip lies within the content width from its origin.
   */
  lemma ColumnsAreDisjoint(s: State, w: WorkspaceId, j: nat, k: nat, left: Geometry, right: Geometry)
    requires WellFormed(s) && HasMonitor(s, w) && Fits(s, w)
    requires j < k < |s.workspaces[w].strip.orderedColumnIds|
    requires Recompute(s, w).Ok?
    requires left in Recompute(s, w).value.geometries && right in Recompute(s, w).value.geometries
    requires BelongsTo(s.windows, left, s.workspaces[w].strip.orderedColumnIds[j])
    requires BelongsTo(s.windows, right, s.workspaces[w].strip.orderedColumnIds[k])
    ensures left.rect.x + left.rect.width + s.config.columnGap <= right.rect.x
    ensures k == j + 1 ==> left.rect.x + left.rect.width + s.config.columnGap == right.rect.x
    ensures OriginX(s, w) <= left.rect.x && right.rect.x + right.rect.width <= OriginX(s, w) + ContentWidth(s, w)
    ensures j == 0 ==> left.rect.x == OriginX(s, w)
    ensures k == |s.workspaces[w].strip.orderedColumnIds| - 1 ==>
              right.rect.x + right.rect.width == OriginX(s, w) + ContentWidth(s, w)
  {
    TileIsExact(s, w, left, j);
    TileIsExact(s, w, right, k);
    OffsetsGrow(StripOf(s, w), j, k, s.config.columnGap);
    ColumnWithinSpan(StripOf(s, w), k, s.config.columnGap);
  }

  /** The projection reports the exact content width. */
  lemma ContentWidthIsExact(s: State, w: WorkspaceId)
    requires WellFormed(s) && HasMonitor(s, w) && Fits(s, w)
    ensures Recompute(s, w).Ok? && Recompute(s, w).value.contentWidth == ContentWidth(s, w)
  {
    LayoutSucceeds(s, w);
  }
}
