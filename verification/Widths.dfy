// How wide a column is: fixed widths, fractions of the viewport, the full viewport.
module Widths {
  import opened Wrappers
  import opened MachineInt
  import opened Domain
  import opened Layout
  import opened Model
  import opened Invariants
  import opened LayoutSoundness
  import opened Reducer
  import opened StripGeometry
  import opened FloatingLayout

  /** w pixels are n/d of the given ones, rounded down. */
  predicate IsFraction(w: int, pixels: nat, n: nat, d: nat) {
    w * d <= pixels * n < (w + 1) * d
  }

  lemma QuotientIsFraction(pixels: nat, n: nat, d: nat) returns (q: nat)
    requires 0 < d
    ensures IsFraction(q, pixels, n, d) && q == pixels * n / d
    ensures n <= d ==> q <= pixels
  {
    q := pixels * n / d;
    var r := pixels * n % d;
    assert pixels * n == q * d + r;
    assert (q + 1) * d == q * d + d;
    if n <= d {
      Mul(pixels, n, d);
      Cancels(d, q, pixels);
    }
  }

  lemma Cancels(d: nat, a: nat, b: nat)
    requires 0 < d && a * d <= b * d
    ensures a <= b
  {
    if a > b {
      Mul(d, b + 1, a);
    }
  }

  lemma Mul(a: nat, b: nat, c: nat)
    requires b <= c
    ensures a * b <= a * c && b * a <= c * a
  {
    assert a * c - a * b == a * (c - b);
  }

  lemma OnlyFraction(w: int, w': int, pixels: nat, n: nat, d: nat)
    requires 0 < d && IsFraction(w, pixels, n, d) && IsFraction(w', pixels, n, d)
    ensures w == w'
  {
    if w < w' {
      Products(d, w + 1, w');
    } else if w' < w {
      Products(d, w' + 1, w);
    }
  }

  lemma Products(d: nat, a: int, b: int)
    requires a <= b
    ensures a * d <= b * d
  {
    assert b * d - a * d == (b - a) * d;
  }

  /**
   * A fraction of the viewport is rounded down and raised to one pixel. Beyond the 32-bit range the rounded width is
   * truncated, which no fraction of at most the whole viewport can reach.
   */
  lemma FractionIsRounded(pixels: u32, n: u32, d: u32) returns (q: nat)
    requires 0 < d
    ensures IsFraction(q, pixels, n, d)
    ensures q <= U32_MAX ==> MonitorFraction(n, d).Resolve(pixels) == Max(q, 1)
    ensures n <= d ==> q <= pixels
    ensures MonitorFraction(n, d).Resolve(pixels) == Max(q % 0x1_0000_0000, 1)
  {
    q := QuotientIsFraction(pixels, n, d);
  }

  /** Width w is what these semantics ask for in a viewport of so many pixels. */
  ghost predicate IsWidth(semantics: WidthSemantics, pixels: u32, w: int) {
    match semantics
    case Fixed(width) => w == Max(width, 1)
    case Full => w == Max(pixels, 1)
    case MonitorFraction(n, d) =>
      if d == 0 then w == Max(pixels, 1)
      else if pixels * n < d then w == 1
      else pixels * n < d * 0x1_0000_0000 ==> IsFraction(w, pixels, n, d)
  }

  /** Every width resolves to what it asks for, and no other number is that. */
  lemma ResolveIsWidth(semantics: WidthSemantics, pixels: u32)
    ensures IsWidth(semantics, pixels, semantics.Resolve(pixels))
  {
    if semantics.MonitorFraction? && semantics.denominator > 0 {
      var n, d := semantics.numerator, semantics.denominator;
      var q := FractionIsRounded(pixels, n, d);
      FractionBounds(q, pixels, n, d);
    }
  }

  lemma FractionBounds(q: nat, pixels: nat, n: nat, d: nat)
    requires 0 < d && IsFraction(q, pixels, n, d)
    ensures pixels * n < d <==> q == 0
    ensures pixels * n < d * 0x1_0000_0000 <==> q <= U32_MAX
  {
    if q > 0 {
      Products(d, 1, q);
    }
    if q > U32_MAX {
      Products(d, 0x1_0000_0000, q);
    } else {
      Products(d, q + 1, 0x1_0000_0000);
    }
  }

  /** The semantics a column is laid out with: a maximized one takes the full viewport. */
  function EffectiveWidth(column: Column): WidthSemantics {
    if column.isMaximized || column.mode == MaximizedColumn then Full else column.widthSemantics
  }

  lemma ColumnIsWidth(column: Column, pixels: u32)
    ensures IsWidth(EffectiveWidth(column), pixels, ResolveWidth(column, pixels))
  {
    hide IsWidth;
    ResolveIsWidth(EffectiveWidth(column), pixels);
  }

  // ---- on the layout -----------------------------------------------------------------------------

  /** The tiled viewport is the work area without the outer padding, at least a pixel each way. */
  lemma ViewportIsPadded(s: State, w: WorkspaceId)
    requires HasMonitor(s, w) && EdgesFit(s.monitors[s.workspaces[w].monitorId].workArea)
    requires s.config.outerPadding.left <= I32_MAX && s.config.outerPadding.top <= I32_MAX
    ensures var area, padding := s.monitors[s.workspaces[w].monitorId].workArea, s.config.outerPadding;
            && ViewportOf(s, w).width == Max(area.width - padding.left - padding.right, 1)
            && ViewportOf(s, w).height == Max(area.height - padding.top - padding.bottom, 1)
            && ViewportOf(s, w).x == area.x + Min(padding.left, area.width - 1)
            && ViewportOf(s, w).y == area.y + Min(padding.top, area.height - 1)
  {
    InsetStaysInside(s.monitors[s.workspaces[w].monitorId].workArea, s.config.outerPadding);
  }

  /** A tile is as wide as its column asks for. */
  lemma TileIsAsWideAsAsked(s: State, w: WorkspaceId, tile: Geometry, j: nat)
    requires WellFormed(s) && HasMonitor(s, w) && Fits(s, w) && j < |s.workspaces[w].strip.orderedColumnIds|
    requires Recompute(s, w).Ok? && tile in Recompute(s, w).value.geometries
    requires BelongsTo(s.windows, tile, s.workspaces[w].strip.orderedColumnIds[j])
    ensures s.workspaces[w].strip.orderedColumnIds[j] in s.columns
    ensures IsWidth(EffectiveWidth(s.columns[s.workspaces[w].strip.orderedColumnIds[j]]), ViewportOf(s, w).width, tile.rect.width)
  {
    StripIsGood(s, w);
    TileIsExact(s, w, tile, j);
    var c := s.workspaces[w].strip.orderedColumnIds[j];
    assert c in StripOf(s, w).ids;
    ColumnIsWidth(s.columns[c], ViewportOf(s, w).width);
    hide IsWidth, ResolveWidth, Recompute;
  }
}
