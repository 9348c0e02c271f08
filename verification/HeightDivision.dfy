// How a column divides its height among its windows.
module HeightDivision {
  import opened Wrappers
  import opened MachineInt
  import opened Domain
  import opened Layout
  import opened Invariants

  function HeightSum(geometries: seq<Geometry>): nat {
    if geometries == [] then 0 else geometries[0].rect.height + HeightSum(geometries[1..])
  }

  ghost predicate AllExist(windows: Windows, ids: seq<WindowId>) {
    forall x :: x in ids ==> x in windows
  }

  /** The proportional share of window k before it is raised to one pixel. */
  function ExactShare(windows: Windows, ids: seq<WindowId>, frame: Stacking, k: nat): nat
    requires k < |ids| && AllExist(windows, ids) && 0 < frame.desiredTotal
  {
    frame.tiledHeight * DesiredHeight(windows[ids[k]]) / frame.desiredTotal
  }

  function ShareSum(windows: Windows, ids: seq<WindowId>, frame: Stacking, n: nat): nat
    requires n <= |ids| && AllExist(windows, ids) && 0 < frame.desiredTotal
  {
    if n == 0 then 0 else ShareSum(windows, ids, frame, n - 1) + ExactShare(windows, ids, frame, n - 1)
  }

  /** How many of the first n windows have a share that rounds down to zero. */
  function ZeroShares(windows: Windows, ids: seq<WindowId>, frame: Stacking, n: nat): nat
    requires n <= |ids| && AllExist(windows, ids) && 0 < frame.desiredTotal
  {
    if n == 0 then 0
    else ZeroShares(windows, ids, frame, n - 1) + if ExactShare(windows, ids, frame, n - 1) == 0 then 1 else 0
  }

  lemma DivisionRoundsDown(a: nat, t: nat)
    requires 0 < t
    ensures t * (a / t) <= a
  {
  }

  lemma MulMonotone(a: nat, b: nat, c: nat)
    requires b <= c
    ensures a * b <= a * c
  {
    assert a * c - a * b == a * (c - b);
  }

  lemma MulCancels(a: nat, b: nat, c: nat)
    requires 0 < a && a * b < a * c + a
    ensures b <= c
  {
    assert a * (c + 1) == a * c + a;
    if b > c {
      MulMonotone(a, c + 1, b);
    }
  }

  lemma ShareIsExact(tiled: nat, h: nat, t: nat)
    requires 0 < t && h <= t
    ensures 0 <= tiled * h / t <= tiled
  {
    MulMonotone(tiled, h, t);
    DivisionRoundsDown(tiled * h, t);
    MulCancels(t, tiled * h / t, tiled);
  }

  lemma AddShare(t: nat, tiled: nat, f: nat, before: nat, h: nat)
    requires 0 < t && t * f <= tiled * before
    ensures t * (f + tiled * h / t) <= tiled * (before + h)
  {
    DivisionRoundsDown(tiled * h, t);
    assert tiled * (before + h) == tiled * before + tiled * h;
    assert t * (f + tiled * h / t) == t * f + t * (tiled * h / t);
  }

  lemma LeavesOne(t: nat, tiled: nat, f: nat, d: nat)
    requires t * f <= tiled * d && d < t && 0 < tiled
    ensures f < tiled
  {
    MulMonotone(tiled, d + 1, t);
    assert tiled * (d + 1) == tiled * d + tiled;
    assert t * (tiled - 1) == t * tiled - t;
    assert t * f < t * tiled;
    MulCancels(t, f, tiled - 1);
  }

  lemma {:induction false} DesiredSumGrows(windows: Windows, ids: seq<WindowId>, k: nat, n: nat)
    requires k < n <= |ids| && AllExist(windows, ids)
    ensures DesiredSum(windows, ids, k) + DesiredHeight(windows[ids[k]]) <= DesiredSum(windows, ids, n)
  {
    if k + 1 < n {
      DesiredSumGrows(windows, ids, k, n - 1);
    }
  }

  lemma {:induction false} DesiredSumCounts(windows: Windows, ids: seq<WindowId>, n: nat)
    requires n <= |ids| && AllExist(windows, ids)
    ensures n <= DesiredSum(windows, ids, n)
  {
    if n > 0 {
      DesiredSumCounts(windows, ids, n - 1);
    }
  }

  /** The frame of a column whose desired heights add up without overflow. */
  ghost predicate FairFrame(windows: Windows, ids: seq<WindowId>, frame: Stacking) {
    && AllExist(windows, ids)
    && 0 < frame.desiredTotal && 0 < frame.tiledHeight
    && frame.desiredTotal == DesiredSum(windows, ids, |ids|)
  }

  lemma ShareDoesNotWrap(windows: Windows, ids: seq<WindowId>, frame: Stacking, k: nat)
    requires FairFrame(windows, ids, frame) && k < |ids|
    ensures Share(frame, windows[ids[k]]) == ExactShare(windows, ids, frame, k)
  {
    DesiredSumGrows(windows, ids, k, |ids|);
    ShareIsExact(frame.tiledHeight, DesiredHeight(windows[ids[k]]), frame.desiredTotal);
  }

  /** Shares never claim more than their part of the height. */
  lemma {:induction false} SharesAreProportional(windows: Windows, ids: seq<WindowId>, frame: Stacking, n: nat)
    requires FairFrame(windows, ids, frame) && n <= |ids|
    ensures frame.desiredTotal * ShareSum(windows, ids, frame, n) <= frame.tiledHeight * DesiredSum(windows, ids, n)
  {
    if n > 0 {
      SharesAreProportional(windows, ids, frame, n - 1);
      AddShare(frame.desiredTotal, frame.tiledHeight, ShareSum(windows, ids, frame, n - 1),
               DesiredSum(windows, ids, n - 1), DesiredHeight(windows[ids[n - 1]]));
    }
  }

  /** The windows before the last one leave at least a pixel, counting exact shares. */
  lemma SharesLeaveRoom(windows: Windows, ids: seq<WindowId>, frame: Stacking)
    requires FairFrame(windows, ids, frame) && ids != []
    ensures ShareSum(windows, ids, frame, |ids| - 1) < frame.tiledHeight
  {
    var n := |ids| - 1;
    SharesAreProportional(windows, ids, frame, n);
    LeavesOne(frame.desiredTotal, frame.tiledHeight, ShareSum(windows, ids, frame, n), DesiredSum(windows, ids, n));
  }

  /** Heights of the first n windows when none of them is the last one. */
  function Taken(windows: Windows, ids: seq<WindowId>, frame: Stacking, n: nat): nat
    requires n <= |ids| && AllExist(windows, ids) && 0 < frame.desiredTotal
  {
    ShareSum(windows, ids, frame, n) + ZeroShares(windows, ids, frame, n)
  }

  /** The running remainder of the loop is the height not yet taken, and the last window gets what is left. */
  lemma {:induction false} StackTakes(windows: Windows, ids: seq<WindowId>, i: nat, frame: Stacking, y: i32, remaining: u32)
    requires FairFrame(windows, ids, frame) && i < |ids|
    requires remaining == Max(frame.tiledHeight - Taken(windows, ids, frame, i), 0)
    ensures Stack(windows, ids, i, frame, y, remaining).Ok?
    ensures HeightSum(Stack(windows, ids, i, frame, y, remaining).value)
         == Taken(windows, ids, frame, |ids| - 1) - Taken(windows, ids, frame, i)
            + Max(frame.tiledHeight - Taken(windows, ids, frame, |ids| - 1), 1)
    decreases |ids| - i
  {
    var isLast := i == |ids| - 1;
    var height := StackHeight(frame, windows[ids[i]], isLast, remaining);
    ShareDoesNotWrap(windows, ids, frame, i);
    if isLast {
      var rest := Stack(windows, ids, i + 1, frame, NextY(y, height, isLast, frame.gap), SatU32(remaining - height));
      assert rest == Ok([]);
    } else {
      assert height == Taken(windows, ids, frame, i + 1) - Taken(windows, ids, frame, i);
      StackTakes(windows, ids, i + 1, frame, NextY(y, height, isLast, frame.gap), SatU32(remaining - height));
    }
  }

  lemma FrameIsFair(windows: Windows, ids: seq<WindowId>, x: i32, width: u32, viewportHeight: u32, gap: u32)
    requires AllExist(windows, ids) && ids != [] && DesiredSum(windows, ids, |ids|) <= U32_MAX
    ensures FairFrame(windows, ids, StackingFor(windows, ids, x, width, viewportHeight, gap))
  {
    DesiredSumGrows(windows, ids, 0, |ids|);
  }

  /**
   * The heights of a column exceed its tiled height by at most the number of windows, the last one aside, whose
   * share rounds down to zero; they never fall short of it, and they meet it exactly when the windows before the
   * last one leave a pixel.
   */
  lemma HeightsNearlyFill(windows: Windows, ids: seq<WindowId>, x: i32, width: u32, viewport: Rect, gap: u32)
    requires AllExist(windows, ids) && ids != [] && DesiredSum(windows, ids, |ids|) <= U32_MAX
    ensures var frame := StackingFor(windows, ids, x, width, viewport.height, gap);
            var zeros := ZeroShares(windows, ids, frame, |ids| - 1);
            && Stack(windows, ids, 0, frame, viewport.y, frame.tiledHeight).Ok?
            && (var total := HeightSum(Stack(windows, ids, 0, frame, viewport.y, frame.tiledHeight).value);
                && frame.tiledHeight <= total <= frame.tiledHeight + zeros
                && (total == frame.tiledHeight <==> Taken(windows, ids, frame, |ids| - 1) < frame.tiledHeight))
  {
    var frame := StackingFor(windows, ids, x, width, viewport.height, gap);
    FrameIsFair(windows, ids, x, width, viewport.height, gap);
    SharesLeaveRoom(windows, ids, frame);
    StackTakes(windows, ids, 0, frame, viewport.y, frame.tiledHeight);
  }

  lemma {:induction false} NoZeroShares(windows: Windows, ids: seq<WindowId>, frame: Stacking, n: nat)
    requires n <= |ids| && AllExist(windows, ids) && 0 < frame.desiredTotal
    requires forall k :: 0 <= k < n ==> 1 <= ExactShare(windows, ids, frame, k)
    ensures ZeroShares(windows, ids, frame, n) == 0
  {
    if n > 0 {
      NoZeroShares(windows, ids, frame, n - 1);
    }
  }

  /** When the gaps fit and every share is at least a pixel, heights and gaps fill the viewport exactly. */
  lemma HeightsFillExactly(windows: Windows, ids: seq<WindowId>, x: i32, width: u32, viewport: Rect, gap: u32)
    requires AllExist(windows, ids) && ids != [] && DesiredSum(windows, ids, |ids|) <= U32_MAX
    requires (|ids| - 1) * gap < viewport.height
    requires forall k :: 0 <= k < |ids| - 1 ==>
               1 <= ExactShare(windows, ids, StackingFor(windows, ids, x, width, viewport.height, gap), k)
    ensures var frame := StackingFor(windows, ids, x, width, viewport.height, gap);
            && Stack(windows, ids, 0, frame, viewport.y, frame.tiledHeight).Ok?
            && HeightSum(Stack(windows, ids, 0, frame, viewport.y, frame.tiledHeight).value) + (|ids| - 1) * gap == viewport.height
  {
    var frame := StackingFor(windows, ids, x, width, viewport.height, gap);
    HeightsNearlyFill(windows, ids, x, width, viewport, gap);
    NoZeroShares(windows, ids, frame, |ids| - 1);
    DesiredSumCounts(windows, ids, |ids|);
    assert GapTotal(|ids|, gap) == (|ids| - 1) * gap;
  }

  // ---- one below the other ---------------------------------------------------------------------

  /** Each window starts where the one above it and the gap end. */
  ghost predicate StackedBelow(geometries: seq<Geometry>, top: int, gap: nat) {
    && (geometries != [] ==> geometries[0].rect.y == top)
    && forall k {:trigger geometries[k].rect} :: 0 < k < |geometries| ==>
         geometries[k].rect.y == geometries[k - 1].rect.y + geometries[k - 1].rect.height + gap
  }

  /** Heights with a gap below each window. */
  function Extent(geometries: seq<Geometry>, gap: nat): nat {
    if geometries == [] then 0 else geometries[0].rect.height + gap + Extent(geometries[1..], gap)
  }

  lemma NextYIsExact(y: i32, height: u32, gap: u32)
    requires y + height + gap <= I32_MAX && gap <= I32_MAX
    ensures NextY(y, height, false, gap) == y + height + gap
  {
    WrapAddsLength(y, height);
    WrapFixes(y + height + gap);
  }

  /** While the bottom edge fits into 32 bits, the windows are stacked with exactly the gap between them. */
  lemma {:induction false} StackIsContiguous(windows: Windows, ids: seq<WindowId>, i: nat, frame: Stacking, y: i32, remaining: u32)
    requires i <= |ids| && 0 < frame.desiredTotal
    requires Stack(windows, ids, i, frame, y, remaining).Ok?
    requires y + Extent(Stack(windows, ids, i, frame, y, remaining).value, frame.gap) <= I32_MAX && frame.gap <= I32_MAX
    ensures StackedBelow(Stack(windows, ids, i, frame, y, remaining).value, y, frame.gap)
    decreases |ids| - i
  {
    hide NextY, StackHeight;
    if i < |ids| {
      var isLast := i == |ids| - 1;
      var height := StackHeight(frame, windows[ids[i]], isLast, remaining);
      var tiles := Stack(windows, ids, i, frame, y, remaining).value;
      var next := NextY(y, height, isLast, frame.gap);
      var rest := Stack(windows, ids, i + 1, frame, next, SatU32(remaining - height)).value;
      assert tiles[1..] == rest && tiles[0].rect.height == height;
      if !isLast {
        NextYIsExact(y, height, frame.gap);
        StackIsContiguous(windows, ids, i + 1, frame, next, SatU32(remaining - height));
        assert forall k :: 0 < k < |tiles| ==> tiles[k] == rest[k - 1];
      }
    }
  }
}
