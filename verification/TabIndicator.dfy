// The tab indicator beside a tabbed column: apps/core-daemon/src/tab_indicator.rs.
module TabIndicator {
  import opened Wrappers
  import opened MachineInt
  import opened Domain

  const WIDTH: u32 := 6
  const SIDE_INSET: i32 := 10
  const GAP: i32 := 4
  const MIN_SEGMENT_HEIGHT: i32 := 6

  datatype IndicatorKind = Active | Inactive

  datatype Segment = Segment(rect: Rect, kind: IndicatorKind)

  /** Integer division as the source has it: towards zero. */
  function TruncDiv(a: int, b: int): int
    requires b != 0
  {
    if a >= 0 then a / b else -(-a / b)
  }

  /** Saturating changes nothing here: the one quotient that does not fit is excluded. */
  function CheckedDiv(a: i32, b: i32): Option<i32> {
    if b == 0 || (a == I32_MIN && b == -1) then None else Some(SatI32(TruncDiv(a, b)))
  }

  /** `saturating_mul` */
  function MulSat(a: i32, b: i32): i32 { SatI32(a * b) }

  lemma MulSatIs(a: i32, b: i32, product: int)
    requires product == a * b && I32_MIN <= product <= I32_MAX
    ensures MulSat(a, b) == product
  {
  }

  function ComputeGap(totalHeight: i32, count: nat): i32 {
    if count <= 1 then 0
    else
      var remaining := SatI32(totalHeight - MulSat(MIN_SEGMENT_HEIGHT, WrapI32(count)));
      if remaining <= 0 then 1
      else
        var between := Max(WrapI32(count - 1), 1);
        Min(GAP, remaining / between)
  }

  /** What the segments of one column share. */
  datatype Division = Division(gap: i32, baseHeight: i32, remainder: i32)
  {
    function Height(i: nat): i32 { if WrapI32(i) < remainder then SatI32(baseHeight + 1) else baseHeight }

    function NextY(y: i32, i: nat): i32 { SatI32(SatI32(y + Height(i)) + gap) }
  }

  function Divide(height: u32, count: nat): Division {
    var total := ClipToI32(height);
    var gap := ComputeGap(total, count);
    var n := WrapI32(count);
    var available := SatI32(total - MulSat(gap, WrapI32(count - 1)));
    var share := CheckedDiv(available, n);
    var base := Max(if share.Some? then share.value else MIN_SEGMENT_HEIGHT, MIN_SEGMENT_HEIGHT);
    Division(gap, base, SatI32(available - MulSat(base, n)))
  }

  function IndicatorX(column: Rect): i32 {
    SatI32(SatI32(SatI32(column.x + ClipToI32(column.width)) - SIDE_INSET) - WIDTH)
  }

  function KindOf(id: WindowId, selected: WindowId): IndicatorKind { if id == selected then Active else Inactive }

  /** The segments from index i on, the first of them at y. */
  function SegmentsFrom(d: Division, ids: seq<WindowId>, selected: WindowId, i: nat, x: i32, y: i32): seq<Segment>
    requires i <= |ids|
    decreases |ids| - i
  {
    if i == |ids| then []
    else
      [Segment(Rect(x, y, WIDTH, Max(d.Height(i), 1)), KindOf(ids[i], selected))]
      + SegmentsFrom(d, ids, selected, i + 1, x, d.NextY(y, i))
  }

  function ColumnSegments(column: Rect, ids: seq<WindowId>, selected: WindowId): seq<Segment> {
    if |ids| < 2 then []
    else SegmentsFrom(Divide(column.height, |ids|), ids, selected, 0, IndicatorX(column), column.y)
  }

  method BuildColumnSegments(column: Rect, ids: seq<WindowId>, selected: WindowId) returns (segments: seq<Segment>)
    ensures segments == ColumnSegments(column, ids, selected)
  {
    if |ids| < 2 {
      return [];
    }
    segments := PlaceSegments(Divide(column.height, |ids|), ids, selected, IndicatorX(column), column.y);
  }

  method PlaceSegments(d: Division, ids: seq<WindowId>, selected: WindowId, x: i32, top: i32) returns (segments: seq<Segment>)
    ensures segments == SegmentsFrom(d, ids, selected, 0, x, top)
  {
    segments := [];
    var y := top;
    for i := 0 to |ids|
      invariant SegmentsFrom(d, ids, selected, 0, x, top) == segments + SegmentsFrom(d, ids, selected, i, x, y)
    {
      var height := d.baseHeight;
      if WrapI32(i) < d.remainder {
        height := SatI32(height as int + 1);
      }
      SegmentsStep(d, ids, selected, i, x, y, segments);
      segments := segments + [Segment(Rect(x, y, WIDTH, Max(height, 1)), if ids[i] == selected then Active else Inactive)];
      y := SatI32(SatI32(y as int + height) + d.gap);
    }
  }

  lemma SegmentsStep(d: Division, ids: seq<WindowId>, selected: WindowId, i: nat, x: i32, y: i32, done: seq<Segment>)
    requires i < |ids|
    ensures done + SegmentsFrom(d, ids, selected, i, x, y)
         == done + [Segment(Rect(x, y, WIDTH, Max(d.Height(i), 1)), KindOf(ids[i], selected))]
            + SegmentsFrom(d, ids, selected, i + 1, x, d.NextY(y, i))
  {
    hide WrapI32;
  }

  // ---- the partition -----------------------------------------------------------------------------

  /** Height left for the segments once the gaps are taken out. */
  ghost predicate DividesExactly(d: Division, height: int, n: nat) {
    && 0 <= d.gap <= GAP
    && MIN_SEGMENT_HEIGHT <= d.baseHeight
    && 0 <= d.remainder < n
    && n * d.baseHeight + d.remainder + (n - 1) * d.gap == height
  }

  lemma GapFits(remaining: nat, spaces: nat, gap: int)
    requires spaces > 0 && gap == Min(GAP, remaining / spaces)
    ensures 0 <= gap <= GAP && 0 <= gap * spaces <= remaining
  {
    QuotientBound(remaining, spaces, gap);
  }

  lemma ShareFits(available: nat, n: nat)
    requires n > 0 && 6 * n <= available
    ensures var base := available / n; 6 <= base <= available && 0 <= available - base * n < n
  {
    var base := available / n;
    assert base * n + available % n == available;
    if base < 6 {
      ProductBound(base, 5, n);
    }
    ProductBound(1, n, base);
  }

  lemma DivisionIsExact(height: u32, n: nat)
    requires 2 <= n && 6 * n < height <= I32_MAX
    ensures DividesExactly(Divide(height, n), height, n)
  {
    WrapFixes(n);
    WrapFixes(n - 1);
    hide WrapI32;
    var gap := ComputeGap(height, n);
    assert ClipToI32(height) == height;
    GapFits(height - 6 * n, n - 1, gap);
    var taken := gap * (n - 1);
    var available := height - taken;
    ShareFits(available, n);
    var base := available / n;
    MulSatIs(gap, n - 1, taken);
    MulSatIs(base, n, base * n);
    CheckedDivIs(available, n, base);
    hide Divide, CheckedDiv, MulSat, ComputeGap;
    DivideUnfolds(height, n, gap, available, base);
  }

  lemma DivideUnfolds(height: u32, n: nat, gap: i32, available: i32, base: i32)
    requires 2 <= n <= I32_MAX && WrapI32(n) == n && WrapI32(n - 1) == n - 1
    requires height <= I32_MAX && gap == ComputeGap(height, n) && gap >= 0
    requires MulSat(gap, n - 1) == height - available
    requires CheckedDiv(available, n) == Some(base) && 6 <= base && I32_MIN <= available - MulSat(base, n) <= I32_MAX
    ensures Divide(height, n) == Division(gap, base, available - MulSat(base, n))
  {
    hide WrapI32, ComputeGap, CheckedDiv, MulSat;
    assert ClipToI32(height) == height;
  }

  lemma CheckedDivIs(a: i32, b: i32, q: int)
    requires 0 <= a && 0 < b && q == a / b && 0 <= q <= a
    ensures CheckedDiv(a, b) == Some(q)
  {
  }

  lemma ProductBound(a: int, b: int, n: nat)
    requires a <= b
    ensures a * n <= b * n
  {
  }

  lemma QuotientBound(a: nat, b: nat, q: nat)
    requires b > 0 && q <= a / b
    ensures q * b <= a
  {
    ProductBound(q, a / b, b);
  }

  /** Too little height: every segment gets the minimum and the gaps one pixel. */
  lemma DivisionOverflows(height: u32, n: nat)
    requires 2 <= n && height <= 6 * n <= I32_MAX
    ensures Divide(height, n).gap == 1 && Divide(height, n).baseHeight == 6 && Divide(height, n).remainder < 0
  {
    WrapFixes(n);
    WrapFixes(n - 1);
    hide WrapI32;
    var available := height - (n - 1);
    assert ClipToI32(height) == height;
    assert ComputeGap(height, n) == 1;
    SmallShare(available, n);
    hide ComputeGap;
    MulSatIs(1, n - 1, n - 1);
    assert CheckedDiv(available, n).Some? && CheckedDiv(available, n).value <= 6;
  }

  lemma SmallShare(available: int, n: nat)
    requires 2 <= n && available <= 5 * n + 1
    ensures TruncDiv(available, n) < 6
  {
    if available >= 0 {
      assert available / n < 6;
    }
  }

  /** Exact distance from the top of the column to segment i. */
  function TopOffset(d: Division, i: nat): int {
    if i == 0 then 0 else TopOffset(d, i - 1) + d.Height(i - 1) + d.gap
  }

  lemma {:induction false} TopOffsetIsLinear(d: Division, i: nat)
    requires i <= I32_MAX && 0 <= d.baseHeight < I32_MAX
    ensures TopOffset(d, i) == i * (d.baseHeight + d.gap) + if d.remainder <= 0 then 0 else Min(i, d.remainder)
  {
    if i > 0 {
      TopOffsetIsLinear(d, i - 1);
      WrapFixes(i - 1);
      assert i * (d.baseHeight + d.gap) == (i - 1) * (d.baseHeight + d.gap) + d.baseHeight + d.gap;
    }
  }

  lemma {:induction false} TopOffsetGrows(d: Division, i: nat, n: nat)
    requires i <= n && 0 <= d.gap && 6 <= d.baseHeight
    ensures TopOffset(d, i) <= TopOffset(d, n)
  {
    hide WrapI32;
    if i < n {
      TopOffsetGrows(d, i, n - 1);
    }
  }

  lemma GapsAddUp(n: nat, base: int, gap: int)
    ensures n * (base + gap) == n * base + (n - 1) * gap + gap
  {
  }

  lemma TotalIsHeight(d: Division, height: int, n: nat)
    requires DividesExactly(d, height, n) && n <= I32_MAX && d.baseHeight < I32_MAX
    ensures TopOffset(d, n) == height + d.gap
  {
    TopOffsetIsLinear(d, n);
    hide WrapI32;
    GapsAddUp(n, d.baseHeight, d.gap);
  }

  lemma OffsetBound(d: Division, height: int, i: nat, n: nat)
    requires DividesExactly(d, height, n) && i < n <= I32_MAX && d.baseHeight < I32_MAX
    ensures 0 <= TopOffset(d, i) && TopOffset(d, i) + d.Height(i) + (if i + 1 < n then d.gap else 0) <= height
    ensures TopOffset(d, n) == height + d.gap
    ensures TopOffset(d, i + 1) == TopOffset(d, i) + d.Height(i) + d.gap && d.Height(i) >= 6
  {
    hide WrapI32;
    TotalIsHeight(d, height, n);
    TopOffsetGrows(d, 0, i);
    TopOffsetGrows(d, i + 1, n);
    assert TopOffset(d, i + 1) == TopOffset(d, i) + d.Height(i) + d.gap;
    if i + 1 < n {
      TopOffsetGrows(d, i + 2, n);
      assert TopOffset(d, i + 2) == TopOffset(d, i + 1) + d.Height(i + 1) + d.gap;
    }
  }

  lemma {:induction false} SegmentsAreAt(d: Division, column: Rect, ids: seq<WindowId>, selected: WindowId, i: nat, k: nat, y: i32)
    requires DividesExactly(d, column.height, |ids|) && |ids| <= I32_MAX && d.baseHeight < I32_MAX
    requires i <= k < |ids| && column.y + column.height <= I32_MAX
    requires y == column.y + TopOffset(d, i)
    ensures var segments := SegmentsFrom(d, ids, selected, i, IndicatorX(column), y);
            && |segments| == |ids| - i
            && segments[k - i] == Segment(Rect(IndicatorX(column), SatI32(column.y + TopOffset(d, k)), WIDTH, d.Height(k)), KindOf(ids[k], selected))
            && SatI32(column.y + TopOffset(d, k)) == column.y + TopOffset(d, k)
    decreases |ids| - i
  {
    hide WrapI32;
    OffsetBound(d, column.height, i, |ids|);
    if i < k {
      OffsetBound(d, column.height, i + 1, |ids|);
      SegmentsAreAt(d, column, ids, selected, i + 1, k, d.NextY(y, i));
    } else {
      SegmentsCount(d, ids, selected, i, IndicatorX(column), y);
    }
  }

  lemma {:induction false} SegmentsCount(d: Division, ids: seq<WindowId>, selected: WindowId, i: nat, x: i32, y: i32)
    requires i <= |ids|
    ensures |SegmentsFrom(d, ids, selected, i, x, y)| == |ids| - i
    decreases |ids| - i
  {
    if i < |ids| {
      SegmentsCount(d, ids, selected, i + 1, x, d.NextY(y, i));
    }
  }

  function Bottom(segment: Segment): int { segment.rect.y + segment.rect.height }

  /** The segments start at the top, end at the bottom, and leave the same gap between neighbours. */
  ghost predicate Partitions(column: Rect, segments: seq<Segment>, gap: int) {
    && segments != []
    && segments[0].rect.y == column.y
    && Bottom(segments[|segments| - 1]) == column.y + column.height
    && (forall i :: 0 <= i < |segments| - 1 ==> segments[i + 1].rect.y == Bottom(segments[i]) + gap)
  }

  /**
   * A column of two or more tabs is covered exactly, by segments at least six pixels high whose heights
   * differ by at most one, if and only if it is more than six pixels per tab high.
   */
  lemma TabsCoverColumn(column: Rect, ids: seq<WindowId>, selected: WindowId)
    requires 2 <= |ids| && 6 * |ids| <= I32_MAX
    requires column.height <= I32_MAX && column.y + Max(column.height, 7 * |ids|) <= I32_MAX
    ensures var segments := ColumnSegments(column, ids, selected);
            && |segments| == |ids|
            && (column.height > 6 * |ids| <==> exists gap :: 0 <= gap && Partitions(column, segments, gap))
            && (column.height > 6 * |ids| ==>
                  && (forall i :: 0 <= i < |ids| ==> segments[i].rect.height >= 6)
                  && (forall i, j :: 0 <= i < j < |ids| ==>
                        0 <= segments[i].rect.height - segments[j].rect.height <= 1))
  {
    var d := Divide(column.height, |ids|);
    var segments := ColumnSegments(column, ids, selected);
    SegmentsCount(d, ids, selected, 0, IndicatorX(column), column.y);
    if column.height > 6 * |ids| {
      DivisionIsExact(column.height, |ids|);
      BaseIsSmall(d, column.height, |ids|);
      CoversWhenHigh(d, column, ids, selected);
      assert Partitions(column, segments, d.gap);
    } else {
      DivisionOverflows(column.height, |ids|);
      forall gap | 0 <= gap
        ensures !Partitions(column, segments, gap)
      {
        MissesWhenLow(d, column, ids, selected);
      }
    }
  }

  lemma BaseIsSmall(d: Division, height: int, n: nat)
    requires DividesExactly(d, height, n) && 2 <= n && height <= I32_MAX
    ensures d.baseHeight < I32_MAX
  {
    ProductBound(2, n, d.baseHeight);
    ProductBound(1, n - 1, d.gap);
  }

  lemma CoversWhenHigh(d: Division, column: Rect, ids: seq<WindowId>, selected: WindowId)
    requires d == Divide(column.height, |ids|) && DividesExactly(d, column.height, |ids|) && d.baseHeight < I32_MAX
    requires 2 <= |ids| <= I32_MAX && column.y + column.height <= I32_MAX
    ensures var segments := ColumnSegments(column, ids, selected);
            && |segments| == |ids|
            && Partitions(column, segments, d.gap)
            && (forall i :: 0 <= i < |ids| ==> segments[i].rect.height == d.Height(i) >= 6)
            && (forall i, j :: 0 <= i < j < |ids| ==>
                  0 <= segments[i].rect.height - segments[j].rect.height <= 1)
  {
    hide Divide, WrapI32, DividesExactly, SegmentsFrom, TopOffset, IndicatorX;
    var segments := ColumnSegments(column, ids, selected);
    AllPlaced(d, column, ids, selected);
    PlacedPartition(d, column, segments);
    HeightsAreEven(d, column.height, |ids|);
  }

  lemma AllPlaced(d: Division, column: Rect, ids: seq<WindowId>, selected: WindowId)
    requires DividesExactly(d, column.height, |ids|) && d.baseHeight < I32_MAX
    requires 2 <= |ids| <= I32_MAX && column.y + column.height <= I32_MAX
    ensures var segments := SegmentsFrom(d, ids, selected, 0, IndicatorX(column), column.y);
            && |segments| == |ids|
            && forall k :: 0 <= k < |segments| ==> IsPlaced(segments[k], column, d, k)
  {
    hide WrapI32, DividesExactly, SegmentsFrom, IndicatorX;
    SegmentsCount(d, ids, selected, 0, IndicatorX(column), column.y);
    var segments := SegmentsFrom(d, ids, selected, 0, IndicatorX(column), column.y);
    forall k | 0 <= k < |segments|
      ensures IsPlaced(segments[k], column, d, k)
    {
      SegmentsAreAt(d, column, ids, selected, 0, k, column.y);
    }
  }

  ghost predicate IsPlaced(segment: Segment, column: Rect, d: Division, k: nat) {
    segment.rect.y == column.y + TopOffset(d, k) && segment.rect.height == d.Height(k)
  }

  lemma PlacedPartition(d: Division, column: Rect, segments: seq<Segment>)
    requires segments != [] && |segments| <= I32_MAX && d.baseHeight < I32_MAX
    requires DividesExactly(d, column.height, |segments|)
    requires forall k :: 0 <= k < |segments| ==> IsPlaced(segments[k], column, d, k)
    ensures Partitions(column, segments, d.gap)
  {
    hide WrapI32, SatI32, DividesExactly;
    var n := |segments|;
    OffsetBound(d, column.height, n - 1, n);
    forall i | 0 <= i < n - 1
      ensures segments[i + 1].rect.y == Bottom(segments[i]) + d.gap
    {
      OffsetBound(d, column.height, i, n);
      assert IsPlaced(segments[i], column, d, i) && IsPlaced(segments[i + 1], column, d, i + 1);
    }
    assert IsPlaced(segments[0], column, d, 0) && IsPlaced(segments[n - 1], column, d, n - 1);
  }

  lemma HeightsAreEven(d: Division, height: int, n: nat)
    requires DividesExactly(d, height, n) && n <= I32_MAX && d.baseHeight < I32_MAX
    ensures forall i :: 0 <= i < n ==> d.Height(i) >= 6
    ensures forall i, j :: 0 <= i < j < n ==> 0 <= d.Height(i) - d.Height(j) <= 1
  {
    forall i, j | 0 <= i < j < n
      ensures 0 <= d.Height(i) - d.Height(j) <= 1
    {
      WrapFixes(i);
      WrapFixes(j);
    }
  }

  lemma MissesWhenLow(d: Division, column: Rect, ids: seq<WindowId>, selected: WindowId)
    requires d == Divide(column.height, |ids|) && d.gap == 1 && d.baseHeight == 6 && d.remainder < 0
    requires 2 <= |ids| && 6 * |ids| <= I32_MAX && column.y + 7 * |ids| <= I32_MAX && column.height <= 6 * |ids|
    ensures var segments := ColumnSegments(column, ids, selected);
            |segments| == |ids| && Bottom(segments[|ids| - 1]) > column.y + column.height
  {
    LowSegmentsAreAt(d, column, ids, selected, 0, column.y);
  }

  lemma {:induction false} LowSegmentsAreAt(d: Division, column: Rect, ids: seq<WindowId>, selected: WindowId, i: nat, y: i32)
    requires d.gap == 1 && d.baseHeight == 6 && d.remainder < 0
    requires i < |ids| && 6 * |ids| <= I32_MAX && column.y + 7 * |ids| <= I32_MAX && y == column.y + 7 * i
    ensures var segments := SegmentsFrom(d, ids, selected, i, IndicatorX(column), y);
            |segments| == |ids| - i && Bottom(segments[|segments| - 1]) == column.y + 7 * |ids| - 1
    decreases |ids| - i
  {
    WrapFixes(i);
    if i + 1 < |ids| {
      LowSegmentsAreAt(d, column, ids, selected, i + 1, d.NextY(y, i));
    } else {
      assert SegmentsFrom(d, ids, selected, i + 1, IndicatorX(column), d.NextY(y, i)) == [];
    }
  }

  /** A segment is marked active exactly when it stands for the selected window. */
  lemma {:induction false} SelectedTabIsActive(column: Rect, ids: seq<WindowId>, selected: WindowId, k: nat)
    requires 2 <= |ids| && k < |ids|
    ensures var segments := ColumnSegments(column, ids, selected);
            |segments| == |ids| && (segments[k].kind == Active <==> ids[k] == selected)
  {
    KindsFollowIds(Divide(column.height, |ids|), ids, selected, 0, k, IndicatorX(column), column.y);
  }

  lemma {:induction false} KindsFollowIds(d: Division, ids: seq<WindowId>, selected: WindowId, i: nat, k: nat, x: i32, y: i32)
    requires i <= k < |ids|
    ensures var segments := SegmentsFrom(d, ids, selected, i, x, y);
            |segments| == |ids| - i && (segments[k - i].kind == Active <==> ids[k] == selected)
    decreases |ids| - i
  {
    SegmentsCount(d, ids, selected, i, x, y);
    if i < k {
      KindsFollowIds(d, ids, selected, i + 1, k, x, d.NextY(y, i));
    }
  }

  /** Neighbouring segments are four pixels apart, or as far as six pixels per tab leave room for. */
  lemma TabsKeepTheirGap(column: Rect, ids: seq<WindowId>, selected: WindowId, i: nat)
    requires 2 <= |ids| && 6 * |ids| < column.height <= I32_MAX && column.y + column.height <= I32_MAX
    requires i < |ids| - 1
    ensures var segments := ColumnSegments(column, ids, selected);
            |segments| == |ids| &&
            segments[i + 1].rect.y - Bottom(segments[i]) == Min(4, (column.height - 6 * |ids|) / (|ids| - 1))
  {
    var d := Divide(column.height, |ids|);
    DivisionIsExact(column.height, |ids|);
    BaseIsSmall(d, column.height, |ids|);
    CoversWhenHigh(d, column, ids, selected);
    WrapFixes(|ids|);
    WrapFixes(|ids| - 1);
    hide WrapI32, ColumnSegments, DividesExactly;
    GapIs(column.height, |ids|);
  }

  lemma GapIs(height: u32, n: nat)
    requires 2 <= n && 6 * n < height <= I32_MAX && WrapI32(n) == n && WrapI32(n - 1) == n - 1
    ensures Divide(height, n).gap == Min(4, (height - 6 * n) / (n - 1))
  {
    hide WrapI32;
    MulSatIs(6, n, 6 * n);
    hide MulSat, CheckedDiv;
  }

  /** The segments are six pixels wide and end ten pixels left of the column's right edge; one window alone has none. */
  lemma TabsSitAtTheEdge(column: Rect, ids: seq<WindowId>, selected: WindowId, i: nat)
    requires column.x + column.width <= I32_MAX && I32_MIN + 16 <= column.x + column.width && column.width <= I32_MAX
    requires i < |ids|
    ensures var segments := ColumnSegments(column, ids, selected);
            if |ids| < 2 then segments == []
            else |segments| == |ids| && segments[i].rect.width == 6 && segments[i].rect.x + 6 + 10 == column.x + column.width
  {
    if |ids| >= 2 {
      AllAtX(Divide(column.height, |ids|), ids, selected, 0, i, IndicatorX(column), column.y);
    }
  }

  lemma {:induction false} AllAtX(d: Division, ids: seq<WindowId>, selected: WindowId, i: nat, k: nat, x: i32, y: i32)
    requires i <= k < |ids|
    ensures var segments := SegmentsFrom(d, ids, selected, i, x, y);
            |segments| == |ids| - i && segments[k - i].rect.x == x && segments[k - i].rect.width == 6
    decreases |ids| - i
  {
    SegmentsCount(d, ids, selected, i, x, y);
    if i < k {
      AllAtX(d, ids, selected, i + 1, k, x, d.NextY(y, i));
    }
  }
}
