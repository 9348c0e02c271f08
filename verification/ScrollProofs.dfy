// Revealing a column and inserting one before the focus: the scroll offset against the layout.
module ScrollProofs {
  import opened Wrappers
  import opened MachineInt
  import opened Domain
  import opened Layout
  import opened Model
  import opened Invariants
  import opened LayoutSoundness
  import opened StripGeometry
  import opened Normalization
  import opened Events
  import opened Reducer
  import opened StepInvariants
  import opened PlacementProofs
  import opened RunInvariants

  // ---- the bounds of the target ----------------------------------------------------------------

  lemma {:induction false} BoundsOfColumn(windows: Windows, geometries: seq<Geometry>, i: nat, c: ColumnId,
                                          found: Option<Bounds>, left: i32, width: u32)
    requires i <= |geometries| && left + width <= I32_MAX && width <= I32_MAX
    requires forall k :: i <= k < |geometries| && BelongsTo(windows, geometries[k], c) ==>
               geometries[k].rect.x == left && geometries[k].rect.width == width
    requires found.None? || found == Some(Bounds(left, left + width))
    requires found.Some? || exists k :: i <= k < |geometries| && BelongsTo(windows, geometries[k], c)
    ensures TargetBounds(windows, geometries, i, c, found) == Some(Bounds(left, left + width))
    decreases |geometries| - i
  {
    if i < |geometries| {
      var next := if BelongsTo(windows, geometries[i], c) then Some(Bounds(left, left + width)) else found;
      BoundsOfColumn(windows, geometries, i + 1, c, next, left, width);
    }
  }

  /** The index j names column c in the strip of workspace w, which fits the bounds. */
  ghost predicate Located(s: State, w: WorkspaceId, c: ColumnId, j: nat) {
    && WellFormed(s) && HasMonitor(s, w) && Fits(s, w)
    && j < |s.workspaces[w].strip.orderedColumnIds|
    && s.workspaces[w].strip.orderedColumnIds[j] == c
  }

  lemma ColumnXIsBounded(s: State, w: WorkspaceId, c: ColumnId, j: nat)
    requires Located(s, w, c, j)
    ensures -3 * LIMIT <= ColumnX(s, w, j) <= 4 * LIMIT
    ensures 0 < StripOf(s, w).Width(j) <= ContentWidth(s, w)
    ensures StripOf(s, w).Offset(j, s.config.columnGap) + StripOf(s, w).Width(j) <= ContentWidth(s, w)
  {
    OriginIsBounded(s, w);
    ColumnWithinSpan(StripOf(s, w), j, s.config.columnGap);
    StripIsGood(s, w);
    assert c in s.workspaces[w].strip.orderedColumnIds;
  }

  /** The reveal measures the column where the layout puts it. */
  lemma TargetIsMeasured(s: State, w: WorkspaceId, c: ColumnId, j: nat)
    requires Located(s, w, c, j)
    ensures Recompute(s, w).Ok?
    ensures I32_MIN <= ColumnX(s, w, j) && ColumnX(s, w, j) + StripOf(s, w).Width(j) <= I32_MAX
    ensures TargetBounds(s.windows, Recompute(s, w).value.geometries, 0, c, None)
         == Some(Bounds(ColumnX(s, w, j), ColumnX(s, w, j) + StripOf(s, w).Width(j)))
  {
    var some := ColumnIsLaidOut(s, w, j);
    ColumnXIsBounded(s, w, c, j);
    var geometries := Recompute(s, w).value.geometries;
    forall k | 0 <= k < |geometries| && BelongsTo(s.windows, geometries[k], c)
      ensures geometries[k].rect.x == ColumnX(s, w, j) && geometries[k].rect.width == StripOf(s, w).Width(j)
    {
      TileIsExact(s, w, geometries[k], j);
    }
    BoundsOfColumn(s.windows, geometries, 0, c, None, ColumnX(s, w, j), StripOf(s, w).Width(j));
  }

  lemma MaxOffsetIsExact(s: State, w: WorkspaceId)
    requires WellFormed(s) && HasMonitor(s, w) && Fits(s, w)
    ensures MaxScrollOffset(s, w) == Ok(Max(ContentWidth(s, w) - ViewportOf(s, w).width, 0))
  {
    StripIsGood(s, w);
  }

  // ---- the closed form of the reveal -----------------------------------------------------------

  /**
   * Where the reveal leaves the offset: nothing scrolls while the strip is narrower than the viewport; a column
   * that fits moves the offset to the nearest one that shows it; a wider column is aligned with the side it
   * was scrolled past.
   */
  function RevealedOffset(offset: int, columnOffset: nat, width: nat, content: nat, viewportWidth: nat): int
    requires columnOffset + width <= content
  {
    if content < viewportWidth then 0
    else if width > viewportWidth then
      if columnOffset < offset then columnOffset else columnOffset + width - viewportWidth
    else Clamp(offset, Max(0, columnOffset + width - viewportWidth), Min(content - viewportWidth, columnOffset))
  }

  function RevealedOffsetOf(s: State, w: WorkspaceId, j: nat): int
    requires HasMonitor(s, w) && j < |s.workspaces[w].strip.orderedColumnIds|
  {
    ColumnWithinSpan(StripOf(s, w), j, s.config.columnGap);
    RevealedOffset(s.workspaces[w].strip.scrollOffset, StripOf(s, w).Offset(j, s.config.columnGap),
                   StripOf(s, w).Width(j), ContentWidth(s, w), ViewportOf(s, w).width)
  }

  lemma DesiredOffsetIs(offset: i32, columnOffset: nat, width: nat, content: nat, viewport: Rect, origin: int, single: bool)
    requires columnOffset + width <= content <= LIMIT && 0 < width
    requires -LIMIT <= offset <= LIMIT && -LIMIT <= viewport.x <= LIMIT && viewport.width <= LIMIT
    requires single ==> width == content
    requires -3 * LIMIT <= origin <= 3 * LIMIT
    requires content >= viewport.width ==> origin == viewport.x - offset
    ensures var max := Max(content - viewport.width, 0);
            var bounds := Bounds(origin + columnOffset, origin + columnOffset + width);
            var desired := Clamp(DesiredOffset(offset, bounds, viewport, single, max), 0, max);
            && desired == RevealedOffset(offset, columnOffset, width, content, viewport.width)
            && Clamp(SatI32(offset + SatI32(desired - offset)), 0, max) == desired
  {
  }

  lemma RevealParts(s: State, w: WorkspaceId, c: ColumnId, projection: Projection, bounds: Bounds, max: i32)
    requires w in s.workspaces && 0 <= max
    requires Recompute(s, w) == Ok(projection) && MaxScrollOffset(s, w) == Ok(max)
    requires TargetBounds(s.windows, projection.geometries, 0, c, None) == Some(bounds)
    ensures var strip := s.workspaces[w].strip;
            var desired := Clamp(DesiredOffset(strip.scrollOffset, bounds, projection.viewport, |strip.orderedColumnIds| == 1, max), 0, max);
            Reveal(s, w, c) == Done(WithOffset(s, w, Clamp(SatI32(strip.scrollOffset + SatI32(desired - strip.scrollOffset)), 0, max)), ())
  {
  }

  lemma ViewportReported(s: State, w: WorkspaceId)
    requires Recompute(s, w).Ok?
    ensures HasMonitor(s, w) && Recompute(s, w).value.viewport == ViewportOf(s, w)
  {
  }

  lemma OverflowIsScrolled(s: State, w: WorkspaceId, c: ColumnId, j: nat)
    requires Located(s, w, c, j)
    ensures ContentWidth(s, w) >= ViewportOf(s, w).width ==> OriginX(s, w) == ViewportOf(s, w).x - s.workspaces[w].strip.scrollOffset
    ensures |s.workspaces[w].strip.orderedColumnIds| == 1 ==> StripOf(s, w).Width(j) == ContentWidth(s, w)
  {
  }

  lemma DesiredIsClosedForm(s: State, w: WorkspaceId, c: ColumnId, j: nat)
    requires Located(s, w, c, j)
    ensures -3 * LIMIT <= ColumnX(s, w, j) && ColumnX(s, w, j) + StripOf(s, w).Width(j) <= I32_MAX
    ensures var strip := s.workspaces[w].strip;
            var bounds := Bounds(ColumnX(s, w, j), ColumnX(s, w, j) + StripOf(s, w).Width(j));
            var max := Max(ContentWidth(s, w) - ViewportOf(s, w).width, 0);
            var desired := Clamp(DesiredOffset(strip.scrollOffset, bounds, ViewportOf(s, w), |strip.orderedColumnIds| == 1, max), 0, max);
            && desired == RevealedOffsetOf(s, w, j)
            && Clamp(SatI32(strip.scrollOffset + SatI32(desired - strip.scrollOffset)), 0, max) == desired
  {
    hide DesiredOffset, RevealedOffset, OriginX, ContentWidth, ViewportOf, WellFormed;
    ColumnXIsBounded(s, w, c, j);
    OriginIsBounded(s, w);
    OverflowIsScrolled(s, w, c, j);
    var strip := s.workspaces[w].strip;
    DesiredOffsetIs(strip.scrollOffset, StripOf(s, w).Offset(j, s.config.columnGap), StripOf(s, w).Width(j),
                    ContentWidth(s, w), ViewportOf(s, w), OriginX(s, w), |strip.orderedColumnIds| == 1);
  }

  /** Revealing a column succeeds and sets the offset to its closed form; nothing else changes. */
  lemma RevealIsClosedForm(s: State, w: WorkspaceId, c: ColumnId, j: nat)
    requires Located(s, w, c, j)
    ensures 0 <= RevealedOffsetOf(s, w, j) <= Max(ContentWidth(s, w) - ViewportOf(s, w).width, 0)
    ensures Reveal(s, w, c) == Done(WithOffset(s, w, RevealedOffsetOf(s, w, j)), ())
  {
    hide Reveal, Recompute, MaxScrollOffset, DesiredOffset, RevealedOffset, OriginX, WellFormed, TargetBounds;
    TargetIsMeasured(s, w, c, j);
    ViewportReported(s, w);
    MaxOffsetIsExact(s, w);
    DesiredIsClosedForm(s, w, c, j);
    RevealParts(s, w, c, Recompute(s, w).value, Bounds(ColumnX(s, w, j), ColumnX(s, w, j) + StripOf(s, w).Width(j)),
                Max(ContentWidth(s, w) - ViewportOf(s, w).width, 0));
  }

  // ---- the reveal is correct and optimal -------------------------------------------------------

  /** The column lies within the viewport. */
  predicate IsVisible(s: State, w: WorkspaceId, j: nat)
    requires HasMonitor(s, w) && j < |s.workspaces[w].strip.orderedColumnIds|
  {
    var viewport := ViewportOf(s, w);
    viewport.x <= ColumnX(s, w, j) && ColumnX(s, w, j) + StripOf(s, w).Width(j) <= viewport.x + viewport.width
  }

  /** The column covers the viewport. */
  predicate Covers(s: State, w: WorkspaceId, j: nat)
    requires HasMonitor(s, w) && j < |s.workspaces[w].strip.orderedColumnIds|
  {
    var viewport := ViewportOf(s, w);
    ColumnX(s, w, j) <= viewport.x && viewport.x + viewport.width <= ColumnX(s, w, j) + StripOf(s, w).Width(j)
  }

  lemma OffsetMovesStrip(s: State, w: WorkspaceId, c: ColumnId, j: nat, offset: i32)
    requires Located(s, w, c, j) && -LIMIT <= offset <= LIMIT
    ensures Located(WithOffset(s, w, offset), w, c, j)
    ensures StripOf(WithOffset(s, w, offset), w) == StripOf(s, w)
    ensures ViewportOf(WithOffset(s, w, offset), w) == ViewportOf(s, w)
    ensures ContentWidth(WithOffset(s, w, offset), w) == ContentWidth(s, w)
  {
    ReplacedWorkspace(s, w, WithOffset(s, w, offset).workspaces[w]);
  }

  /** Where a column is after the offset is set, as long as the strip overflows. */
  lemma ColumnXAfterOffset(s: State, w: WorkspaceId, c: ColumnId, j: nat, offset: i32)
    requires Located(s, w, c, j) && -LIMIT <= offset <= LIMIT
    ensures HasMonitor(WithOffset(s, w, offset), w)
    ensures ContentWidth(s, w) >= ViewportOf(s, w).width ==>
              ColumnX(WithOffset(s, w, offset), w, j) == ViewportOf(s, w).x - offset + StripOf(s, w).Offset(j, s.config.columnGap)
    ensures ContentWidth(s, w) < ViewportOf(s, w).width && offset == 0 ==>
              ViewportOf(s, w).x <= OriginX(WithOffset(s, w, offset), w)
              <= ViewportOf(s, w).x + ViewportOf(s, w).width - ContentWidth(s, w)
  {
    OffsetMovesStrip(s, w, c, j, offset);
  }

  /**
   * After a reveal the column is inside the viewport if it fits, and covers the viewport if it does not,
   * and the offset is between zero and the maximum.
   */
  lemma RevealShowsColumn(s: State, w: WorkspaceId, c: ColumnId, j: nat)
    requires Located(s, w, c, j)
    ensures var s1 := Reveal(s, w, c).state;
            && Reveal(s, w, c).result.Ok?
            && Located(s1, w, c, j)
            && 0 <= s1.workspaces[w].strip.scrollOffset <= Max(ContentWidth(s, w) - ViewportOf(s, w).width, 0)
            && (StripOf(s, w).Width(j) <= ViewportOf(s, w).width ==> IsVisible(s1, w, j))
            && (StripOf(s, w).Width(j) >= ViewportOf(s, w).width ==> Covers(s1, w, j))
  {
    RevealIsClosedForm(s, w, c, j);
    ColumnXIsBounded(s, w, c, j);
    OffsetMovesStrip(s, w, c, j, RevealedOffsetOf(s, w, j));
    ColumnXAfterOffset(s, w, c, j, RevealedOffsetOf(s, w, j));
  }

  /** The same for the tiles of a fresh layout. */
  lemma RevealShowsTiles(s: State, w: WorkspaceId, c: ColumnId, j: nat, tile: Geometry)
    requires Located(s, w, c, j)
    requires var s1 := Reveal(s, w, c).state;
             Recompute(s1, w).Ok? && tile in Recompute(s1, w).value.geometries && BelongsTo(s1.windows, tile, c)
    ensures var viewport := ViewportOf(s, w);
            && (tile.rect.width <= viewport.width ==>
                  viewport.x <= tile.rect.x && tile.rect.x + tile.rect.width <= viewport.x + viewport.width)
            && (tile.rect.width >= viewport.width ==>
                  tile.rect.x <= viewport.x && viewport.x + viewport.width <= tile.rect.x + tile.rect.width)
  {
    RevealShowsColumn(s, w, c, j);
    RevealIsClosedForm(s, w, c, j);
    var s1 := Reveal(s, w, c).state;
    OffsetMovesStrip(s, w, c, j, RevealedOffsetOf(s, w, j));
    TileIsExact(s1, w, tile, j);
  }

  function Distance(a: int, b: int): nat { if a <= b then b - a else a - b }

  /** Of all legal offsets that show the column, the reveal takes the nearest one. */
  lemma RevealIsNearest(s: State, w: WorkspaceId, c: ColumnId, j: nat, other: i32)
    requires Located(s, w, c, j)
    requires ContentWidth(s, w) >= ViewportOf(s, w).width && StripOf(s, w).Width(j) <= ViewportOf(s, w).width
    requires 0 <= other <= ContentWidth(s, w) - ViewportOf(s, w).width
    requires HasMonitor(WithOffset(s, w, other), w) && IsVisible(WithOffset(s, w, other), w, j)
    ensures w in Reveal(s, w, c).state.workspaces
    ensures var offset := s.workspaces[w].strip.scrollOffset;
            Distance(Reveal(s, w, c).state.workspaces[w].strip.scrollOffset, offset) <= Distance(other, offset)
  {
    hide Reveal, OriginX, WellFormed;
    RevealIsClosedForm(s, w, c, j);
    OffsetMovesStrip(s, w, c, j, other);
    ColumnXAfterOffset(s, w, c, j, other);
    ColumnXIsBounded(s, w, c, j);
  }

  lemma SameOffsetSameState(s: State, w: WorkspaceId, offset: i32)
    requires w in s.workspaces
    ensures WithOffset(s, w, offset) == s <==> s.workspaces[w].strip.scrollOffset == offset
  {
    assert WithOffset(s, w, offset).workspaces[w].strip.scrollOffset == offset;
    if s.workspaces[w].strip.scrollOffset == offset {
      assert WithOffset(s, w, offset).workspaces == s.workspaces;
    }
  }

  lemma SecondOffset(s: State, w: WorkspaceId, c: ColumnId, j: nat)
    requires Located(s, w, c, j)
    ensures var o1 := RevealedOffsetOf(s, w, j);
            && -LIMIT <= o1 <= LIMIT
            && Located(WithOffset(s, w, o1), w, c, j)
            && (RevealedOffsetOf(WithOffset(s, w, o1), w, j) == o1 <==> StripOf(s, w).Width(j) <= ViewportOf(s, w).width)
  {
    ColumnXIsBounded(s, w, c, j);
    OffsetMovesStrip(s, w, c, j, RevealedOffsetOf(s, w, j));
  }

  /** A second reveal changes nothing exactly when the column fits; a wider one swings from side to side. */
  lemma RevealTwice(s: State, w: WorkspaceId, c: ColumnId, j: nat)
    requires Located(s, w, c, j)
    ensures Reveal(Reveal(s, w, c).state, w, c).state == Reveal(s, w, c).state
       <==> StripOf(s, w).Width(j) <= ViewportOf(s, w).width
  {
    SecondOffset(s, w, c, j);
    RevealIsClosedForm(s, w, c, j);
    var s1 := WithOffset(s, w, RevealedOffsetOf(s, w, j));
    assert Reveal(s, w, c).state == s1;
    RevealIsClosedForm(s1, w, c, j);
    SameOffsetSameState(s1, w, RevealedOffsetOf(s1, w, j));
  }
}
