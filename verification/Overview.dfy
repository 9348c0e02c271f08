// The overview animation: the interpolation part of apps/core-daemon/src/overview_engine.rs.
module Overview {
  import opened MachineInt
  import opened Domain

  type Milli = p: int | 0 <= p <= 0xFFFF

  datatype WindowPreview = WindowPreview(hwnd: nat, liveRect: Rect, overviewRect: Rect)

  datatype WorkspacePreview = WorkspacePreview(
    workspaceId: WorkspaceId,
    liveRect: Rect,
    canvasRect: Rect,
    frameRect: Rect,
    windows: seq<WindowPreview>)

  datatype Scene = Scene(monitorRect: Rect, workspaces: seq<WorkspacePreview>)

  datatype WindowFrame = WindowFrame(hwnd: nat, rect: Rect)

  datatype WorkspaceFrame = WorkspaceFrame(
    workspaceId: WorkspaceId,
    canvasRect: Rect,
    viewportRect: Rect,
    windows: seq<WindowFrame>)

  datatype Frame = Frame(monitorRect: Rect, workspaces: seq<WorkspaceFrame>)

  datatype Mode = Final | Opening(progress: Milli) | Closing(progress: Milli)

  // ---- interpolation ---------------------------------------------------------------------------

  /** Division by 1000 towards zero. */
  function PerMille(a: int): int { if a >= 0 then a / 1000 else -(-a / 1000) }

  function InterpolateI32(from: i32, to: i32, p: Milli): i32 { SatI32(from + SatI32(PerMille((to - from) * p))) }

  function InterpolateU32(from: u32, to: u32, p: Milli): u32 { Clamp(from + PerMille((to - from) * p), 1, U32_MAX) }

  function InterpolateRect(from: Rect, to: Rect, p: Milli): Rect {
    if p == 0 then from
    else if p >= 1000 then to
    else
      Rect(InterpolateI32(from.x, to.x, p),
           InterpolateI32(from.y, to.y, p),
           InterpolateU32(Max(from.width, 1), Max(to.width, 1), p),
           InterpolateU32(Max(from.height, 1), Max(to.height, 1), p))
  }

  // ---- frames ----------------------------------------------------------------------------------

  function RectForMode(live: Rect, settled: Rect, mode: Mode): Rect {
    match mode
    case Final => settled
    case Opening(p) => InterpolateRect(live, settled, p)
    case Closing(p) => InterpolateRect(settled, live, p)
  }

  function WindowFrames(windows: seq<WindowPreview>, mode: Mode): seq<WindowFrame> {
    seq(|windows|, i requires 0 <= i < |windows| =>
      WindowFrame(windows[i].hwnd, RectForMode(windows[i].liveRect, windows[i].overviewRect, mode)))
  }

  function FrameOfWorkspace(workspace: WorkspacePreview, mode: Mode): WorkspaceFrame {
    WorkspaceFrame(
      workspace.workspaceId,
      RectForMode(workspace.liveRect, workspace.canvasRect, mode),
      RectForMode(workspace.liveRect, workspace.frameRect, mode),
      WindowFrames(workspace.windows, mode))
  }

  function RenderFrame(scene: Scene, mode: Mode): Frame {
    Frame(scene.monitorRect,
          seq(|scene.workspaces|, i requires 0 <= i < |scene.workspaces| => FrameOfWorkspace(scene.workspaces[i], mode)))
  }

  // ---- one coordinate --------------------------------------------------------------------------

  predicate Between(n: int, a: int, b: int) { Min(a, b) <= n <= Max(a, b) }

  /** From `a` to `b` in the direction of `to` as seen from `from`. */
  predicate Towards(from: int, to: int, a: int, b: int) { if from <= to then a <= b else b <= a }

  lemma PerMilleBounds(delta: int, p: Milli)
    requires p <= 1000
    ensures delta >= 0 ==> 0 <= PerMille(delta * p) <= delta
    ensures delta <= 0 ==> delta <= PerMille(delta * p) <= 0
  {
    if delta >= 0 {
      ScaledFits(delta, p);
    } else {
      ScaledFits(-delta, p);
      assert -(delta * p) == -delta * p;
    }
  }

  lemma ScaledFits(delta: nat, p: Milli)
    requires p <= 1000
    ensures 0 <= delta * p <= delta * 1000 && 0 <= delta * p / 1000 <= delta
  {
    ProductGrows(delta, p, 1000);
  }

  lemma ProductGrows(a: nat, b: nat, c: nat)
    requires b <= c
    ensures a * b <= a * c
  {
    assert a * c == a * b + a * (c - b);
  }

  lemma PerMilleGrows(delta: int, p: Milli, q: Milli)
    requires p <= q
    ensures delta >= 0 ==> PerMille(delta * p) <= PerMille(delta * q)
    ensures delta <= 0 ==> PerMille(delta * q) <= PerMille(delta * p)
  {
    if delta >= 0 {
      ProductGrows(delta, p, q);
    } else {
      ProductGrows(-delta, p, q);
      assert -(delta * p) == -delta * p && -(delta * q) == -delta * q;
    }
  }

  /** What rounding towards zero loses over the two halves of the way: nothing or one pixel. */
  function Lost(delta: int, p: Milli): int {
    if delta * p % 1000 == 0 then 0 else if delta > 0 then 1 else -1
  }

  lemma HalvesMeet(delta: int, p: Milli)
    requires p <= 1000
    ensures PerMille(delta * p) + PerMille(delta * (1000 - p)) + Lost(delta, p) == delta
  {
    if delta >= 0 {
      NaturalHalvesMeet(delta, p);
    } else {
      NaturalHalvesMeet(-delta, p);
      assert -(delta * p) == -delta * p && -(delta * (1000 - p)) == -delta * (1000 - p);
      NegatedRemainder(delta * p);
    }
  }

  lemma NegatedRemainder(n: int)
    ensures n % 1000 == 0 <==> -n % 1000 == 0
  {
  }

  lemma NaturalHalvesMeet(delta: nat, p: Milli)
    requires p <= 1000
    ensures delta * p / 1000 + delta * (1000 - p) / 1000 + (if delta * p % 1000 == 0 then 0 else 1) == delta
    ensures delta * p >= 0 && delta * (1000 - p) >= 0
  {
    var part := delta * p;
    assert delta * (1000 - p) == 1000 * delta - part;
    ScaledFits(delta, p);
    ScaledFits(delta, 1000 - p);
  }

  predicate FitsI32(n: int) { I32_MIN <= n <= I32_MAX }

  /** No step of this interpolation, forwards or backwards, is clipped to 32 bits. */
  predicate Unclipped(from: i32, to: i32, p: Milli) {
    p <= 1000 && FitsI32(PerMille((to - from) * p)) && FitsI32(PerMille((from - to) * (1000 - p)))
  }

  /** A position never leaves the segment between its endpoints and only moves forward. */
  lemma PositionIsMonotone(from: i32, to: i32, p: Milli, q: Milli)
    requires p <= q <= 1000
    ensures Between(InterpolateI32(from, to, p), from, to)
    ensures Towards(from, to, InterpolateI32(from, to, p), InterpolateI32(from, to, q))
  {
    PerMilleBounds(to - from, p);
    PerMilleBounds(to - from, q);
    PerMilleGrows(to - from, p, q);
    hide PerMille;
  }

  /**
   * Opening at p and closing at 1000 - p differ by exactly what rounding loses, if and only if no step
   * was clipped.
   */
  lemma PositionMirrors(from: i32, to: i32, p: Milli)
    requires p <= 1000
    ensures InterpolateI32(to, from, 1000 - p) - InterpolateI32(from, to, p) == Lost(to - from, p) <==> Unclipped(from, to, p)
    ensures Max(to - from, from - to) <= I32_MAX ==> Unclipped(from, to, p)
  {
    var delta := to - from;
    HalvesMeet(delta, p);
    PerMilleBounds(delta, p);
    PerMilleBounds(delta, 1000 - p);
    PerMilleOdd(delta, 1000 - p);
    PerMilleBounds(-delta, 1000 - p);
    assert (from - to) * (1000 - p) == -delta * (1000 - p);
    hide PerMille, Lost;
  }

  lemma PerMilleOdd(delta: int, p: Milli)
    ensures PerMille(-delta * p) == -PerMille(delta * p)
  {
    assert -delta * p == -(delta * p);
  }

  /** Across more than half the 32-bit range the mirrored positions drift apart. */
  lemma ClippedPositionsDrift()
    ensures InterpolateI32(I32_MAX, I32_MIN, 250) - InterpolateI32(I32_MIN, I32_MAX, 750) > 1
  {
  }

  /** A size of at least one pixel stays between its endpoints and only moves forward. */
  lemma SizeIsMonotone(from: u32, to: u32, p: Milli, q: Milli)
    requires 1 <= from && 1 <= to && p <= q <= 1000
    ensures Between(InterpolateU32(from, to, p), from, to)
    ensures Towards(from, to, InterpolateU32(from, to, p), InterpolateU32(from, to, q))
  {
    PerMilleBounds(to - from, p);
    PerMilleBounds(to - from, q);
    PerMilleGrows(to - from, p, q);
    hide PerMille;
  }

  lemma SizeMirrors(from: u32, to: u32, p: Milli)
    requires 1 <= from && 1 <= to && p <= 1000
    ensures InterpolateU32(to, from, 1000 - p) - InterpolateU32(from, to, p) == Lost(to - from, p)
  {
    var delta := to - from;
    HalvesMeet(delta, p);
    PerMilleBounds(delta, p);
    PerMilleBounds(-delta, 1000 - p);
    PerMilleOdd(delta, 1000 - p);
    assert (from - to) * (1000 - p) == -delta * (1000 - p);
    hide PerMille, Lost;
  }

  // ---- rectangles and frames -------------------------------------------------------------------

  predicate WithinOnePixel(a: int, b: int) { -1 <= a - b <= 1 }

  ghost predicate NearlyEqual(a: Rect, b: Rect) {
    && WithinOnePixel(a.x, b.x) && WithinOnePixel(a.y, b.y)
    && WithinOnePixel(a.width, b.width) && WithinOnePixel(a.height, b.height)
  }

  /** The distance between the rectangles fits a signed 32-bit integer. */
  predicate ShortWay(a: Rect, b: Rect) {
    Max(a.x - b.x, b.x - a.x) <= I32_MAX && Max(a.y - b.y, b.y - a.y) <= I32_MAX
  }

  lemma RectMirrors(live: Rect, settled: Rect, p: Milli)
    requires p <= 1000 && ShortWay(live, settled)
    ensures NearlyEqual(RectForMode(live, settled, Opening(p)), RectForMode(live, settled, Closing(1000 - p)))
  {
    if 0 < p < 1000 {
      PositionMirrors(live.x, settled.x, p);
      PositionMirrors(live.y, settled.y, p);
      SizeMirrors(Max(live.width, 1), Max(settled.width, 1), p);
      SizeMirrors(Max(live.height, 1), Max(settled.height, 1), p);
      hide InterpolateI32, InterpolateU32;
    }
  }

  ghost predicate Inside(r: Rect, a: Rect, b: Rect) {
    && Between(r.x, a.x, b.x) && Between(r.y, a.y, b.y)
    && Between(r.width, a.width, b.width) && Between(r.height, a.height, b.height)
  }

  ghost predicate Advances(a: Rect, b: Rect, r: Rect, s: Rect) {
    && Towards(a.x, b.x, r.x, s.x) && Towards(a.y, b.y, r.y, s.y)
    && Towards(a.width, b.width, r.width, s.width) && Towards(a.height, b.height, r.height, s.height)
  }

  /** Neither size is zero at both ends. */
  predicate Visible(a: Rect, b: Rect) {
    (a.width > 0 || b.width > 0) && (a.height > 0 || b.height > 0)
  }

  lemma SizeStays(from: u32, to: u32, p: Milli, q: Milli)
    requires 0 < p < 1000 && p <= q < 1000 && (from > 0 || to > 0)
    ensures var r, s := InterpolateU32(Max(from, 1), Max(to, 1), p), InterpolateU32(Max(from, 1), Max(to, 1), q);
            Between(r, from, to) && Towards(from, to, r, s)
  {
    SizeIsMonotone(Max(from, 1), Max(to, 1), p, q);
    hide InterpolateU32;
  }

  /**
   * Throughout the animation a rectangle stays between its endpoints and moves only forward. The
   * minimum size of one pixel breaks this exactly when a side is zero at both ends.
   */
  lemma RectStaysBetween(from: Rect, to: Rect)
    ensures Visible(from, to) <==> forall p: Milli :: p <= 1000 ==> Inside(InterpolateRect(from, to, p), from, to)
    ensures Visible(from, to) ==>
              forall p: Milli, q: Milli :: p <= q ==> Advances(from, to, InterpolateRect(from, to, p), InterpolateRect(from, to, q))
  {
    if Visible(from, to) {
      forall p: Milli | p <= 1000
        ensures Inside(InterpolateRect(from, to, p), from, to)
      {
        RectInside(from, to, p);
      }
      forall p: Milli, q: Milli | p <= q
        ensures Advances(from, to, InterpolateRect(from, to, p), InterpolateRect(from, to, q))
      {
        RectAdvances(from, to, p, q);
      }
    } else {
      FlatRectGrows(from, to);
    }
  }

  lemma FlatRectGrows(from: Rect, to: Rect)
    requires !Visible(from, to)
    ensures !Inside(InterpolateRect(from, to, 500), from, to)
  {
    hide InterpolateI32;
  }

  lemma RectInside(from: Rect, to: Rect, p: Milli)
    requires Visible(from, to)
    ensures Inside(InterpolateRect(from, to, p), from, to)
  {
    if 0 < p < 1000 {
      PositionIsMonotone(from.x, to.x, p, p);
      PositionIsMonotone(from.y, to.y, p, p);
      SizeStays(from.width, to.width, p, p);
      SizeStays(from.height, to.height, p, p);
      hide InterpolateI32, InterpolateU32;
    }
  }

  lemma RectAdvances(from: Rect, to: Rect, p: Milli, q: Milli)
    requires Visible(from, to) && p <= q
    ensures Advances(from, to, InterpolateRect(from, to, p), InterpolateRect(from, to, q))
  {
    hide InterpolateI32, InterpolateU32;
    RectInside(from, to, p);
    RectInside(from, to, q);
    if 0 < p && q < 1000 {
      PositionIsMonotone(from.x, to.x, p, q);
      PositionIsMonotone(from.y, to.y, p, q);
      SizeStays(from.width, to.width, p, q);
      SizeStays(from.height, to.height, p, q);
    }
  }

  ghost predicate NearlyEqualFrames(a: Frame, b: Frame) {
    && a.monitorRect == b.monitorRect
    && |a.workspaces| == |b.workspaces|
    && forall i :: 0 <= i < |a.workspaces| ==> NearlyEqualWorkspaces(a.workspaces[i], b.workspaces[i])
  }

  ghost predicate NearlyEqualWorkspaces(a: WorkspaceFrame, b: WorkspaceFrame) {
    && a.workspaceId == b.workspaceId
    && NearlyEqual(a.canvasRect, b.canvasRect)
    && NearlyEqual(a.viewportRect, b.viewportRect)
    && |a.windows| == |b.windows|
    && forall j :: 0 <= j < |a.windows| ==> a.windows[j].hwnd == b.windows[j].hwnd && NearlyEqual(a.windows[j].rect, b.windows[j].rect)
  }

  ghost predicate ShortWays(workspace: WorkspacePreview) {
    && ShortWay(workspace.liveRect, workspace.canvasRect)
    && ShortWay(workspace.liveRect, workspace.frameRect)
    && forall w :: w in workspace.windows ==> ShortWay(w.liveRect, w.overviewRect)
  }

  lemma WorkspaceMirrors(workspace: WorkspacePreview, p: Milli)
    requires p <= 1000 && ShortWays(workspace)
    ensures NearlyEqualWorkspaces(FrameOfWorkspace(workspace, Opening(p)), FrameOfWorkspace(workspace, Closing(1000 - p)))
  {
    hide RectForMode, NearlyEqual;
    RectMirrors(workspace.liveRect, workspace.canvasRect, p);
    RectMirrors(workspace.liveRect, workspace.frameRect, p);
    forall j | 0 <= j < |workspace.windows|
      ensures var w := workspace.windows[j];
              NearlyEqual(RectForMode(w.liveRect, w.overviewRect, Opening(p)), RectForMode(w.liveRect, w.overviewRect, Closing(1000 - p)))
    {
      assert workspace.windows[j] in workspace.windows;
      RectMirrors(workspace.windows[j].liveRect, workspace.windows[j].overviewRect, p);
    }
  }

  /** The closing animation is the opening one backwards, to within one pixel on every side. */
  lemma ClosingMirrorsOpening(scene: Scene, p: Milli)
    requires p <= 1000 && forall w :: w in scene.workspaces ==> ShortWays(w)
    ensures NearlyEqualFrames(RenderFrame(scene, Opening(p)), RenderFrame(scene, Closing(1000 - p)))
  {
    hide FrameOfWorkspace, NearlyEqualWorkspaces, ShortWays;
    forall i | 0 <= i < |scene.workspaces|
      ensures NearlyEqualWorkspaces(FrameOfWorkspace(scene.workspaces[i], Opening(p)), FrameOfWorkspace(scene.workspaces[i], Closing(1000 - p)))
    {
      assert scene.workspaces[i] in scene.workspaces;
      WorkspaceMirrors(scene.workspaces[i], p);
    }
  }

  // ---- the ends of the animation -------------------------------------------------------------------

  /** Everything is where the desktop has it. */
  ghost predicate ShowsDesktop(frame: Frame, scene: Scene) {
    && frame.monitorRect == scene.monitorRect && |frame.workspaces| == |scene.workspaces|
    && forall i :: 0 <= i < |scene.workspaces| ==>
         var f, w := frame.workspaces[i], scene.workspaces[i];
         && f.workspaceId == w.workspaceId && f.canvasRect == w.liveRect && f.viewportRect == w.liveRect
         && |f.windows| == |w.windows|
         && forall j :: 0 <= j < |w.windows| ==> f.windows[j] == WindowFrame(w.windows[j].hwnd, w.windows[j].liveRect)
  }

  /** Everything is at its place in the overview. */
  ghost predicate ShowsOverview(frame: Frame, scene: Scene) {
    && frame.monitorRect == scene.monitorRect && |frame.workspaces| == |scene.workspaces|
    && forall i :: 0 <= i < |scene.workspaces| ==>
         var f, w := frame.workspaces[i], scene.workspaces[i];
         && f.workspaceId == w.workspaceId && f.canvasRect == w.canvasRect && f.viewportRect == w.frameRect
         && |f.windows| == |w.windows|
         && forall j :: 0 <= j < |w.windows| ==> f.windows[j] == WindowFrame(w.windows[j].hwnd, w.windows[j].overviewRect)
  }

  /** Opening starts at the desktop and ends at the overview, closing the other way round; the final frame is the overview. */
  lemma AnimationEnds(scene: Scene, p: Milli)
    requires 1000 <= p
    ensures ShowsDesktop(RenderFrame(scene, Opening(0)), scene) && ShowsDesktop(RenderFrame(scene, Closing(p)), scene)
    ensures ShowsOverview(RenderFrame(scene, Opening(p)), scene) && ShowsOverview(RenderFrame(scene, Closing(0)), scene)
    ensures ShowsOverview(RenderFrame(scene, Final), scene)
  {
    hide InterpolateI32, InterpolateU32;
  }
}
