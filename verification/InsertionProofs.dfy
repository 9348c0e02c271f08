// A column inserted before the focus against the picture on screen.
module InsertionProofs {
  import opened Wrappers
  import opened MachineInt
  import opened Domain
  import opened Layout
  import opened Model
  import opened Invariants
  import opened LayoutSoundness
  import opened StripGeometry
  import opened Normalization
  import opened Events
  import opened Reducer
  import opened StepInvariants
  import opened PlacementProofs

  // ---- what the insertion does to the strip ----------------------------------------------------

  /** strip1 is strip0 with column c inserted at position k. */
  ghost predicate Inserted(strip0: Strip, strip1: Strip, k: nat, c: ColumnId) {
    && k <= |strip0.ids|
    && strip1.ids == InsertAt(strip0.ids, k, c)
    && strip1.viewportWidth == strip0.viewportWidth
    && forall id :: id in strip0.ids ==> id in strip0.columns && id in strip1.columns && strip1.columns[id] == strip0.columns[id]
  }

  lemma InsertedWidths(strip0: Strip, strip1: Strip, k: nat, c: ColumnId)
    requires Inserted(strip0, strip1, k, c)
    ensures forall j :: 0 <= j < k ==> strip1.Width(j) == strip0.Width(j)
    ensures forall j :: k <= j < |strip0.ids| ==> strip1.Width(j + 1) == strip0.Width(j)
  {
    assert forall j :: 0 <= j < k ==> strip1.ids[j] == strip0.ids[j];
    assert forall j :: k <= j < |strip0.ids| ==> strip1.ids[j + 1] == strip0.ids[j];
  }

  lemma {:induction false} OffsetsBeforeStay(strip0: Strip, strip1: Strip, k: nat, c: ColumnId, j: nat, gap: nat)
    requires Inserted(strip0, strip1, k, c) && j <= k
    ensures strip1.Offset(j, gap) == strip0.Offset(j, gap)
  {
    InsertedWidths(strip0, strip1, k, c);
    if j > 0 {
      OffsetsBeforeStay(strip0, strip1, k, c, j - 1, gap);
    }
  }

  lemma {:induction false} OffsetsAfterShift(strip0: Strip, strip1: Strip, k: nat, c: ColumnId, j: nat, gap: nat)
    requires Inserted(strip0, strip1, k, c) && k <= j <= |strip0.ids|
    ensures strip1.Offset(j + 1, gap) == strip0.Offset(j, gap) + strip1.Width(k) + gap
  {
    InsertedWidths(strip0, strip1, k, c);
    if j == k {
      OffsetsBeforeStay(strip0, strip1, k, c, k, gap);
    } else {
      OffsetsAfterShift(strip0, strip1, k, c, j - 1, gap);
    }
  }

  lemma SpanGrows(strip0: Strip, strip1: Strip, k: nat, c: ColumnId, gap: nat)
    requires Inserted(strip0, strip1, k, c) && k < |strip0.ids|
    ensures strip1.Span(|strip1.ids|, gap) == strip0.Span(|strip0.ids|, gap) + strip1.Width(k) + gap
  {
    InsertedWidths(strip0, strip1, k, c);
    OffsetsAfterShift(strip0, strip1, k, c, |strip0.ids| - 1, gap);
  }

  // ---- alignment -------------------------------------------------------------------------------

  datatype Alignment = Scrolled | Centred | RightPinned

  function AlignmentOf(s: State, w: WorkspaceId): Alignment
    requires HasMonitor(s, w)
  {
    var ids := s.workspaces[w].strip.orderedColumnIds;
    if ContentWidth(s, w) >= ViewportOf(s, w).width || ids == [] then Scrolled
    else if |ids| == 1 then Centred
    else if s.focus.columnId == Some(ids[|ids| - 1]) then RightPinned
    else Scrolled
  }

  /** How far the strip starts from the left edge of the viewport. */
  function Lead(s: State, w: WorkspaceId): int
    requires HasMonitor(s, w)
  {
    var slack := ViewportOf(s, w).width - ContentWidth(s, w);
    match AlignmentOf(s, w)
    case Scrolled => 0 - s.workspaces[w].strip.scrollOffset
    case Centred => slack / 2
    case RightPinned => slack
  }

  lemma OriginIsLead(s: State, w: WorkspaceId)
    requires HasMonitor(s, w) && Fits(s, w)
    ensures OriginX(s, w) == ViewportOf(s, w).x + Lead(s, w)
  {
  }

  // ---- the discovery ---------------------------------------------------------------------------

  /** A window that comes in as a new column before the focused column k while the focus stays. */
  ghost predicate InsertsBefore(s: State, w: WorkspaceId, d: Discovery, k: nat) {
    && Inv(s) && HasMonitor(s, w)
    && d.monitorId in s.monitors && ActiveWorkspace(s, d.monitorId) == Some(w)
    && d.managed && d.layer == Tiled && d.placement.NewColumnBeforeFocus?
    && PreservesFocus(s, w, d)
    && k < |s.workspaces[w].strip.orderedColumnIds|
    && s.focus.columnId == Some(s.workspaces[w].strip.orderedColumnIds[k])
  }

  /** s1 is s with the new column in front of column k and the offset compensated. */
  ghost predicate InsertedBefore(s: State, s1: State, w: WorkspaceId, d: Discovery, k: nat)
    requires d.placement.NewColumnBeforeFocus?
  {
    var c := s.runtime.nextColumnId;
    && HasMonitor(s, w) && HasMonitor(s1, w)
    && Inserted(StripOf(s, w), StripOf(s1, w), k, c)
    && c in s1.columns
    && s1.columns[c].mode == d.placement.mode && s1.columns[c].widthSemantics == d.placement.width && !s1.columns[c].isMaximized
    && ViewportOf(s1, w) == ViewportOf(s, w)
    && s1.config == s.config && s1.focus.columnId == s.focus.columnId
    && s1.workspaces[w].strip.scrollOffset
       == SatI32(SatI32(s.workspaces[w].strip.scrollOffset + ClipToI32(d.placement.width.Resolve(ViewportOf(s, w).width))) + ClipToI32(s.config.columnGap))
  }

  lemma FocusedPosition(ids: seq<ColumnId>, k: nat)
    requires NoDup(ids) && k < |ids|
    ensures IndexOf(ids[k], ids) == Some(k)
  {
  }

  lemma PlacedBefore(s: State, w: WorkspaceId, d: Discovery, k: nat)
    requires InsertsBefore(s, w, d, k)
    ensures var s0 := s.(runtime := s.runtime.(nextWindowId := s.runtime.nextWindowId + 1));
            var placed := Place(s0, w, d, s.runtime.nextWindowId, true);
            placed.result.Ok? && InsertedBefore(s, placed.state, w, d, k)
            && placed.state.monitors == s.monitors && placed.state.focus == s.focus && w in placed.state.workspaces
  {
    var ids := s.workspaces[w].strip.orderedColumnIds;
    assert WorkspaceOk(s.windows, s.columns, w, s.workspaces[w]);
    FocusedPosition(ids, k);
    forall c | c in ids ensures c in s.columns && c != s.runtime.nextColumnId {
      assert StripColumnOk(s.windows, s.columns, w, c);
    }
    var s0 := s.(runtime := s.runtime.(nextWindowId := s.runtime.nextWindowId + 1));
    var request := RequestFor(s0, w, d.placement, true);
    assert FocusedColumnIn(s0, w) == Some(ids[k]);
    assert InsertIndex(ids, request) == k;
    assert Place(s0, w, d, s.runtime.nextWindowId, true).state == InsertNewColumn(s0, w, s.runtime.nextWindowId, request).state;
  }

  lemma DiscoveryInsertsBefore(s: State, w: WorkspaceId, d: Discovery, k: nat)
    requires InsertsBefore(s, w, d, k)
    ensures HandleWindowDiscovered(s, d).result == Ok(Some(w))
    ensures InsertedBefore(s, HandleWindowDiscovered(s, d).state, w, d, k)
    ensures WellFormed(HandleWindowDiscovered(s, d).state)
  {
    DiscoverKeepsWellFormed(s, w, d);
    assert PreservesFocus(s, w, d);
    hide Place, Inserted, Inv, Discover, PreservesFocus;
    PlacedBefore(s, w, d, k);
    DiscoverParts(s, w, d);
    var s1 := Discover(s, w, d).state;
    DiscoveredBefore(s, s1, w, d, k);
    NormalizedStaysInserted(s, s1, w, d, k);
    HandledIsNormalized(s, w, d);
  }

  lemma HandledIsNormalized(s: State, w: WorkspaceId, d: Discovery)
    requires d.monitorId in s.monitors && ActiveWorkspace(s, d.monitorId) == Some(w) && d.managed && PreservesFocus(s, w, d)
    requires Discover(s, w, d).result.Ok?
    ensures HandleWindowDiscovered(s, d) == Done(EnsureTail(Discover(s, w, d).state, d.monitorId), Some(w))
  {
  }

  lemma DiscoveredBefore(s: State, s1: State, w: WorkspaceId, d: Discovery, k: nat)
    requires InsertsBefore(s, w, d, k)
    requires Discover(s, w, d).result.Ok? && s1 == Discover(s, w, d).state
    ensures InsertedBefore(s, s1, w, d, k)
  {
    assert PreservesFocus(s, w, d);
    hide Place, Inserted, Inv, Discover, PreservesFocus;
    PlacedBefore(s, w, d, k);
    DiscoverParts(s, w, d);
  }

  lemma NormalizedStaysInserted(s: State, s1: State, w: WorkspaceId, d: Discovery, k: nat)
    requires d.placement.NewColumnBeforeFocus? && InsertedBefore(s, s1, w, d, k) && WellFormed(s1)
    requires d.monitorId in s1.monitors
    ensures InsertedBefore(s, EnsureTail(s1, d.monitorId), w, d, k)
    ensures WellFormed(EnsureTail(s1, d.monitorId))
  {
    var t := s1.monitors[d.monitorId].workspaceSetId;
    NormalizeKeepsInvariants(s1, t);
    if t in s1.workspaceSets {
      EmptyMeansBare(s1, w);
      NormalizeLosesNothing(s1, t);
    }
  }

  // ---- the picture -----------------------------------------------------------------------------

  lemma NewWidthIsCompensated(s: State, s1: State, w: WorkspaceId, d: Discovery, k: nat)
    requires d.placement.NewColumnBeforeFocus? && InsertedBefore(s, s1, w, d, k) && d.placement.mode != MaximizedColumn
    ensures StripOf(s1, w).Width(k) == d.placement.width.Resolve(ViewportOf(s, w).width)
  {
    assert StripOf(s1, w).ids[k] == s.runtime.nextColumnId;
  }

  /** Every column from the focused one on moves by exactly the change of the alignment. */
  lemma PictureShift(s: State, s1: State, w: WorkspaceId, d: Discovery, k: nat, j: nat)
    requires d.placement.NewColumnBeforeFocus? && InsertedBefore(s, s1, w, d, k)
    requires Fits(s, w) && Fits(s1, w) && k <= j < |s.workspaces[w].strip.orderedColumnIds|
    ensures j + 1 < |s1.workspaces[w].strip.orderedColumnIds|
    ensures ColumnX(s1, w, j + 1) - ColumnX(s, w, j)
         == Lead(s1, w) - Lead(s, w) + StripOf(s1, w).Width(k) + s.config.columnGap
    ensures ContentWidth(s1, w) == ContentWidth(s, w) + StripOf(s1, w).Width(k) + s.config.columnGap
  {
    OriginIsLead(s, w);
    OriginIsLead(s1, w);
    OffsetsAfterShift(StripOf(s, w), StripOf(s1, w), k, s.runtime.nextColumnId, j, s.config.columnGap);
    SpanGrows(StripOf(s, w), StripOf(s1, w), k, s.runtime.nextColumnId, s.config.columnGap);
  }

  lemma OffsetIsCompensated(s: State, s1: State, w: WorkspaceId, d: Discovery, k: nat)
    requires d.placement.NewColumnBeforeFocus? && InsertedBefore(s, s1, w, d, k)
    requires Fits(s, w) && Fits(s1, w)
    ensures s1.workspaces[w].strip.scrollOffset
         == s.workspaces[w].strip.scrollOffset + d.placement.width.Resolve(ViewportOf(s, w).width) + s.config.columnGap
  {
  }

  /** The alignment of the strip once a column of this width has come in before the focus. */
  function AlignmentWith(s: State, w: WorkspaceId, width: u32): Alignment
    requires HasMonitor(s, w) && s.workspaces[w].strip.orderedColumnIds != []
  {
    var ids := s.workspaces[w].strip.orderedColumnIds;
    if ContentWidth(s, w) + width + s.config.columnGap >= ViewportOf(s, w).width then Scrolled
    else if s.focus.columnId == Some(ids[|ids| - 1]) then RightPinned
    else Scrolled
  }

  /** The alignment stays, or the offset happens to equal the alignment that is given up. */
  predicate KeepsPicture(s: State, w: WorkspaceId, width: u32)
    requires HasMonitor(s, w) && s.workspaces[w].strip.orderedColumnIds != []
  {
    AlignmentWith(s, w, width) == AlignmentOf(s, w)
    || (AlignmentWith(s, w, width) == Scrolled && s.workspaces[w].strip.scrollOffset == 0 - Lead(s, w))
  }

  lemma AlignmentAfter(s: State, s1: State, w: WorkspaceId, d: Discovery, k: nat, width: u32)
    requires InsertsBefore(s, w, d, k) && InsertedBefore(s, s1, w, d, k)
    requires ContentWidth(s1, w) == ContentWidth(s, w) + width + s.config.columnGap
    ensures AlignmentOf(s1, w) == AlignmentWith(s, w, width)
    ensures AlignmentOf(s, w) == Scrolled ==> AlignmentOf(s1, w) == Scrolled
  {
    hide Inv, ContentWidth;
    var ids, ids1 := s.workspaces[w].strip.orderedColumnIds, s1.workspaces[w].strip.orderedColumnIds;
    assert ids1[|ids1| - 1] == ids[|ids| - 1];
  }

  /**
   * A focus-preserving insertion before the focus leaves the focused column and every column right of it in
   * place exactly when the strip is aligned the same way before and after, or the offset happens to equal the
   * former alignment. In particular scroll-driven and right-pinned strips stay put.
   */
  lemma InsertBeforeFocusKeepsPicture(s: State, w: WorkspaceId, d: Discovery, k: nat, j: nat)
    requires InsertsBefore(s, w, d, k) && d.placement.mode != MaximizedColumn
    requires var s1 := HandleWindowDiscovered(s, d).state; HasMonitor(s1, w) && Fits(s1, w)
    requires Fits(s, w) && k <= j < |s.workspaces[w].strip.orderedColumnIds|
    ensures var s1 := HandleWindowDiscovered(s, d).state;
            && j + 1 < |s1.workspaces[w].strip.orderedColumnIds|
            && s1.workspaces[w].strip.orderedColumnIds[j + 1] == s.workspaces[w].strip.orderedColumnIds[j]
            && StripOf(s1, w).Width(j + 1) == StripOf(s, w).Width(j)
            && (ColumnX(s1, w, j + 1) == ColumnX(s, w, j) <==> KeepsPicture(s, w, d.placement.width.Resolve(ViewportOf(s, w).width)))
  {
    DiscoveryInsertsBefore(s, w, d, k);
    var s1 := HandleWindowDiscovered(s, d).state;
    PictureStays(s, s1, w, d, k, j);
  }

  lemma PictureStays(s: State, s1: State, w: WorkspaceId, d: Discovery, k: nat, j: nat)
    requires InsertsBefore(s, w, d, k) && d.placement.mode != MaximizedColumn && InsertedBefore(s, s1, w, d, k)
    requires Fits(s, w) && Fits(s1, w) && k <= j < |s.workspaces[w].strip.orderedColumnIds|
    ensures && j + 1 < |s1.workspaces[w].strip.orderedColumnIds|
            && s1.workspaces[w].strip.orderedColumnIds[j + 1] == s.workspaces[w].strip.orderedColumnIds[j]
            && StripOf(s1, w).Width(j + 1) == StripOf(s, w).Width(j)
            && (ColumnX(s1, w, j + 1) == ColumnX(s, w, j) <==> KeepsPicture(s, w, d.placement.width.Resolve(ViewportOf(s, w).width)))
  {
    NewWidthIsCompensated(s, s1, w, d, k);
    PictureShift(s, s1, w, d, k, j);
    InsertedWidths(StripOf(s, w), StripOf(s1, w), k, s.runtime.nextColumnId);
    OffsetIsCompensated(s, s1, w, d, k);
    AlignmentAfter(s, s1, w, d, k, StripOf(s1, w).Width(k));
  }

  /**
   * A maximized column is laid out at the full viewport width but compensated with its resolved width, and it always
   * makes the strip scroll-driven. So the picture shifts by the difference of the two widths plus the alignment that
   * is given up, and stays exactly when these cancel; in a scroll-driven strip, when the two widths agree.
   */
  lemma MaximizedInsertionShifts(s: State, w: WorkspaceId, d: Discovery, k: nat, j: nat)
    requires InsertsBefore(s, w, d, k) && d.placement.mode == MaximizedColumn
    requires var s1 := HandleWindowDiscovered(s, d).state; HasMonitor(s1, w) && Fits(s1, w)
    requires Fits(s, w) && k <= j < |s.workspaces[w].strip.orderedColumnIds|
    ensures var s1 := HandleWindowDiscovered(s, d).state;
            var lost := s.workspaces[w].strip.scrollOffset + Lead(s, w);
            var gained := ViewportOf(s, w).width - d.placement.width.Resolve(ViewportOf(s, w).width);
            && AlignmentOf(s1, w) == Scrolled
            && j + 1 < |s1.workspaces[w].strip.orderedColumnIds|
            && s1.workspaces[w].strip.orderedColumnIds[j + 1] == s.workspaces[w].strip.orderedColumnIds[j]
            && ColumnX(s1, w, j + 1) - ColumnX(s, w, j) == gained - lost
            && (AlignmentOf(s, w) == Scrolled ==> lost == 0)
  {
    DiscoveryInsertsBefore(s, w, d, k);
    MaximizedShift(s, HandleWindowDiscovered(s, d).state, w, d, k, j);
  }

  lemma MaximizedShift(s: State, s1: State, w: WorkspaceId, d: Discovery, k: nat, j: nat)
    requires d.placement.NewColumnBeforeFocus? && d.placement.mode == MaximizedColumn && InsertedBefore(s, s1, w, d, k)
    requires Fits(s, w) && Fits(s1, w) && k <= j < |s.workspaces[w].strip.orderedColumnIds|
    ensures && AlignmentOf(s1, w) == Scrolled
            && j + 1 < |s1.workspaces[w].strip.orderedColumnIds|
            && s1.workspaces[w].strip.orderedColumnIds[j + 1] == s.workspaces[w].strip.orderedColumnIds[j]
            && ColumnX(s1, w, j + 1) - ColumnX(s, w, j)
               == ViewportOf(s, w).width - d.placement.width.Resolve(ViewportOf(s, w).width)
                  - (s.workspaces[w].strip.scrollOffset + Lead(s, w))
  {
    PictureShift(s, s1, w, d, k, j);
    OffsetIsCompensated(s, s1, w, d, k);
    assert StripOf(s1, w).ids[k] == s.runtime.nextColumnId;
    assert StripOf(s1, w).ids[j + 1] == StripOf(s, w).ids[j];
    ContentIsNotNegative(s, w);
  }

  lemma ContentIsNotNegative(s: State, w: WorkspaceId)
    requires HasMonitor(s, w)
    ensures ContentWidth(s, w) >= 0
  {
  }
}
