// Floating windows: where they are laid out, and that the strip's scrolling does not move them.
module FloatingLayout {
  import opened Wrappers
  import opened MachineInt
  import opened Domain
  import opened Layout
  import opened Model
  import opened Invariants
  import opened Reducer
  import opened StepInvariants
  import opened LayoutSoundness

  /** No edge of the rectangle leaves the 32-bit range. */
  predicate EdgesFit(r: Rect) {
    1 <= r.width && 1 <= r.height && r.x + r.width <= I32_MAX && r.y + r.height <= I32_MAX
  }

  predicate Contains(outer: Rect, inner: Rect) {
    && outer.x <= inner.x && inner.x + inner.width <= outer.x + outer.width
    && outer.y <= inner.y && inner.y + inner.height <= outer.y + outer.height
  }

  /** An inset rectangle stays inside, and loses exactly the insets, or all but one pixel. */
  lemma InsetStaysInside(rect: Rect, insets: EdgeInsets)
    requires EdgesFit(rect) && insets.left <= I32_MAX && insets.top <= I32_MAX
    ensures var r := InsetRect(rect, insets);
            && Contains(rect, r)
            && r.width == Max(rect.width - insets.left - insets.right, 1)
            && r.height == Max(rect.height - insets.top - insets.bottom, 1)
            && r.x == rect.x + Min(insets.left, rect.width - 1) && r.y == rect.y + Min(insets.top, rect.height - 1)
  {
  }

  /** A new floating window is placed inside the margin with the size it wants, as far as that fits. */
  lemma FloatingRectFits(window: WindowNode, workArea: Rect, config: ConfigProjection)
    requires EdgesFit(workArea) && config.floatingMargin <= I32_MAX
    requires window.layer != Fullscreen && !window.isFullscreen
    requires window.lastKnownRect.width == 0 || window.lastKnownRect.height == 0
    ensures var m := config.floatingMargin;
            var r := FloatingRect(window, workArea, config);
            && Contains(InsetRect(workArea, EdgeInsets(m, m, m, m)), r) && Contains(workArea, r)
            && r.width == Min(Max(window.desiredSize.width, 1), Max(workArea.width - 2 * m, 1))
            && r.height == Min(Max(window.desiredSize.height, 1), Max(workArea.height - 2 * m, 1))
  {
    var m := config.floatingMargin;
    InsetStaysInside(workArea, EdgeInsets(m, m, m, m));
    hide InsetRect;
  }

  lemma {:induction false} FloatingTilesAt(windows: Windows, ids: seq<WindowId>, i: nat, k: nat, workArea: Rect, config: ConfigProjection)
    requires i <= k < |ids| && FloatingTiles(windows, ids, i, workArea, config).Ok?
    ensures var tiles := FloatingTiles(windows, ids, i, workArea, config).value;
            && |tiles| == |ids| - i && ids[k] in windows
            && tiles[k - i] == Geometry(ids[k], FloatingRect(windows[ids[k]], workArea, config), windows[ids[k]].layer)
    decreases |ids| - i
  {
    hide FloatingRect;
    FloatingTilesCount(windows, ids, i, workArea, config);
    if i < k {
      FloatingTilesAt(windows, ids, i + 1, k, workArea, config);
    }
  }

  lemma {:induction false} FloatingTilesCount(windows: Windows, ids: seq<WindowId>, i: nat, workArea: Rect, config: ConfigProjection)
    requires i <= |ids| && FloatingTiles(windows, ids, i, workArea, config).Ok?
    ensures |FloatingTiles(windows, ids, i, workArea, config).value| == |ids| - i
    decreases |ids| - i
  {
    hide FloatingRect;
    if i < |ids| {
      FloatingTilesCount(windows, ids, i + 1, workArea, config);
    }
  }

  /** The last geometries of a layout are those of the floating layer, in its order. */
  lemma FloatersComeLast(s: State, w: WorkspaceId, k: nat)
    requires WellFormed(s) && w in s.workspaces && k < |s.workspaces[w].floatingLayer.orderedWindowIds|
    ensures s.workspaces[w].monitorId in s.monitors && Recompute(s, w).Ok?
    ensures var ids := s.workspaces[w].floatingLayer.orderedWindowIds;
            var geometries := Recompute(s, w).value.geometries;
            var i := |geometries| - |ids| + k;
            && 0 <= i < |geometries| && ids[k] in s.windows
            && geometries[i] == Geometry(ids[k], FloatingRect(s.windows[ids[k]], s.monitors[s.workspaces[w].monitorId].workArea, s.config),
                                         s.windows[ids[k]].layer)
  {
    LayoutSucceeds(s, w);
    FloatersExist(s, w);
    hide Topo, Members, StripTiles, FloatingRect;
    var ids := s.workspaces[w].floatingLayer.orderedWindowIds;
    FloatingTilesAt(s.windows, ids, 0, k, s.monitors[s.workspaces[w].monitorId].workArea, s.config);
  }

  /** Scrolling the strip does not move a floating window. */
  lemma FloatersIgnoreScroll(s: State, w: WorkspaceId, offset: i32, k: nat)
    requires WellFormed(s) && w in s.workspaces && k < |s.workspaces[w].floatingLayer.orderedWindowIds|
    ensures var s1 := WithOffset(s, w, offset);
            var n := |s.workspaces[w].floatingLayer.orderedWindowIds|;
            && Recompute(s, w).Ok? && Recompute(s1, w).Ok?
            && (var before, after := Recompute(s, w).value.geometries, Recompute(s1, w).value.geometries;
                && 0 <= |before| - n && 0 <= |after| - n
                && after[|after| - n + k] == before[|before| - n + k])
  {
    hide Topo, Members, Recompute, FloatingRect;
    var s1 := WithOffset(s, w, offset);
    ScrollKeepsInvariants(s, s1, w);
    FloatersComeLast(s, w, 0);
    FloatersComeLast(s1, w, 0);
    FloatersComeLast(s, w, k);
    FloatersComeLast(s1, w, k);
  }
}
