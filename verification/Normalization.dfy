// What normalising a workspace set achieves: the theorems about Model.Normalize.
module Normalization {
  import opened Wrappers
  import opened MachineInt
  import opened Domain
  import opened Model
  import opened Invariants

  /** `pos` places xs inside ys without changing the order. */
  ghost predicate Embeds<T>(xs: seq<T>, ys: seq<T>, pos: seq<nat>) {
    && |pos| == |xs|
    && (forall i :: 0 <= i < |xs| ==> pos[i] < |ys| && xs[i] == ys[pos[i]])
    && (forall i, j :: 0 <= i < j < |pos| ==> pos[i] < pos[j])
  }

  lemma EmbedsKeepsNoDup<T>(xs: seq<T>, ys: seq<T>, pos: seq<nat>)
    requires NoDup(ys) && Embeds(xs, ys, pos)
    ensures NoDup(xs)
  {
    forall i, j | 0 <= i < j < |xs| ensures xs[i] != xs[j] {
      assert pos[i] < pos[j];
    }
  }

  // ---- the three loops -------------------------------------------------------------------------

  function Without<T(==)>(ids: seq<T>, i: nat, drop: set<T>): seq<T>
    requires i <= |ids|
    decreases |ids| - i
  {
    if i == |ids| then []
    else if ids[i] in drop then Without(ids, i + 1, drop)
    else [ids[i]] + Without(ids, i + 1, drop)
  }

  lemma {:induction false} WithoutEmbeds<T>(ids: seq<T>, i: nat, drop: set<T>) returns (pos: seq<nat>)
    requires i <= |ids|
    ensures Embeds(Without(ids, i, drop), ids, pos)
    ensures forall k :: 0 <= k < |pos| ==> i <= pos[k]
    decreases |ids| - i
  {
    if i == |ids| {
      pos := [];
    } else {
      pos := WithoutEmbeds(ids, i + 1, drop);
      if ids[i] !in drop {
        pos := [i] + pos;
      }
    }
  }

  lemma {:induction false} WithoutMembers<T>(ids: seq<T>, i: nat, drop: set<T>)
    requires i <= |ids|
    ensures forall x :: x in Without(ids, i, drop) <==> x in ids[i..] && x !in drop
    decreases |ids| - i
  {
    if i < |ids| {
      WithoutMembers(ids, i + 1, drop);
      assert ids[i..] == [ids[i]] + ids[i + 1..];
    }
  }

  ghost function Dropped(columns: Columns, workspaces: Workspaces, ids: seq<WorkspaceId>, i: nat,
                         active: WorkspaceId, tail: WorkspaceId): (r: set<WorkspaceId>)
    requires i <= |ids|
    ensures forall w :: w in r ==> w in ids[i..] && w in workspaces && IsCollapsible(columns, workspaces, w, active, tail)
    ensures forall w :: w in ids[i..] && w !in r ==> !IsCollapsible(columns, workspaces, w, active, tail)
  {
    set w | w in ids[i..] && IsCollapsible(columns, workspaces, w, active, tail)
  }

  /** The collapsing loop filters against the map it started from: no removal changes a later decision. */
  lemma {:induction false} CollapseFilters(columns: Columns, workspaces: Workspaces, ids: seq<WorkspaceId>, i: nat,
                                           active: WorkspaceId, tail: WorkspaceId)
    requires i <= |ids| && NoDup(ids)
    ensures var drop := Dropped(columns, workspaces, ids, i, active, tail);
            Collapse(columns, workspaces, ids, i, active, tail) == (Without(ids, i, drop), workspaces - drop)
    decreases |ids| - i
  {
    var drop := Dropped(columns, workspaces, ids, i, active, tail);
    if i == |ids| {
      assert drop == {} && workspaces - drop == workspaces;
    } else {
      var dropNow := IsCollapsible(columns, workspaces, ids[i], active, tail);
      var next := if dropNow then workspaces - {ids[i]} else workspaces;
      var later := Dropped(columns, next, ids, i + 1, active, tail);
      CollapseFilters(columns, next, ids, i + 1, active, tail);
      assert ids[i..] == [ids[i]] + ids[i + 1..];
      assert ids[i] !in ids[i + 1..];
      assert drop == later + if dropNow then {ids[i]} else {} by {
        forall w | w in ids[i + 1..]
          ensures IsCollapsible(columns, next, w, active, tail) == IsCollapsible(columns, workspaces, w, active, tail)
        {
        }
      }
      assert workspaces - drop == next - later;
      WithoutFrame(ids, i + 1, drop, later);
    }
  }

  lemma {:induction false} WithoutFrame<T>(ids: seq<T>, i: nat, drop1: set<T>, drop2: set<T>)
    requires i <= |ids| && forall k :: i <= k < |ids| ==> (ids[k] in drop1 <==> ids[k] in drop2)
    ensures Without(ids, i, drop1) == Without(ids, i, drop2)
    decreases |ids| - i
  {
    if i < |ids| {
      WithoutFrame(ids, i + 1, drop1, drop2);
    }
  }

  /** The empty workspaces of an order. */
  ghost function Empties(columns: Columns, workspaces: Workspaces, ids: seq<WorkspaceId>): (r: set<WorkspaceId>)
    ensures forall w :: w in r <==> w in ids && IsEmpty(columns, workspaces, w)
  {
    set w | w in ids && IsEmpty(columns, workspaces, w)
  }

  ghost function Elements<T(!new)>(s: seq<T>): (r: set<T>)
    ensures forall x :: x in r <==> x in s
  {
    set x | x in s
  }

  /** The order is cut after position n: what is cut is empty, and what is left has no double empty tail. */
  ghost predicate CutsAt(ids: seq<WorkspaceId>, empties: set<WorkspaceId>, n: nat) {
    && 0 < n <= |ids|
    && (forall k :: n <= k < |ids| ==> ids[k] in empties)
    && (n < |ids| ==> ids[n - 1] in empties)
    && (n > 1 ==> ids[n - 1] !in empties || ids[n - 2] !in empties)
  }

  /** Trimming cuts a suffix of empty workspaces. */
  lemma {:induction false} TrimCutsEmptySuffix(columns: Columns, workspaces: Workspaces, ids: seq<WorkspaceId>,
                                               empties: set<WorkspaceId>) returns (n: nat)
    requires NoDup(ids) && ids != []
    requires forall w :: w in ids ==> (w in empties <==> IsEmpty(columns, workspaces, w))
    ensures CutsAt(ids, empties, n)
    ensures TrimTail(columns, workspaces, ids) == (ids[..n], workspaces - Elements(ids[n..]))
    decreases |ids|
  {
    hide HasNoWindows;
    n := |ids|;
    if HasDoubleEmptyTail(columns, workspaces, ids) {
      var last := |ids| - 1;
      var shorter := workspaces - {ids[last]};
      n := TrimCutsEmptySuffix(columns, shorter, ids[..last], empties);
      assert ids[n..] == ids[..last][n..] + [ids[last]];
      assert ids[..last][..n] == ids[..n];
      assert workspaces - Elements(ids[n..]) == shorter - Elements(ids[..last][n..]);
      forall k | n <= k < |ids| ensures ids[k] in empties {
        assert k < last ==> ids[..last][k] == ids[k];
      }
    } else {
      assert ids[n..] == [] && ids[..n] == ids;
      assert workspaces - Elements(ids[n..]) == workspaces;
    }
  }

  /** Stamping rewrites each workspace of the order once, with its position. */
  lemma {:induction false} StampsEachPosition(columns: Columns, workspaces: Workspaces, ids: seq<WorkspaceId>, i: nat,
                                              monitorId: MonitorId, region: Rect)
    requires i <= |ids| && NoDup(ids) && forall w :: w in ids ==> w in workspaces
    ensures var r := Stamp(columns, workspaces, ids, i, monitorId, region);
            && r.Keys == workspaces.Keys
            && (forall k :: i <= k < |ids| ==>
                  r[ids[k]] == StampOne(columns, workspaces[ids[k]], ids[k], k, k == |ids| - 1, monitorId, region))
            && (forall w :: w in workspaces && w !in ids[i..] ==> r[w] == workspaces[w])
    decreases |ids| - i
  {
    if i < |ids| {
      assert ids[i..] == [ids[i]] + ids[i + 1..];
      var stamped := StampOne(columns, workspaces[ids[i]], ids[i], i, ids[i] == ids[|ids| - 1], monitorId, region);
      StampsEachPosition(columns, workspaces[ids[i] := stamped], ids, i + 1, monitorId, region);
      assert ids[i] !in ids[i + 1..];
      forall k | i < k < |ids| ensures ids[k] != ids[i] && ids[k] in ids[i + 1..] {
        assert ids[i + 1..][k - i - 1] == ids[k];
      }
    }
  }

  // ---- the whole reordering --------------------------------------------------------------------

  /** The order with the removed workspaces taken out: survivors keep their order, the others were empty. */
  ghost predicate Survive(ids: seq<WorkspaceId>, empties: set<WorkspaceId>, survivors: seq<WorkspaceId>) {
    && survivors != []
    && NoDup(survivors)
    && (forall w :: w in survivors ==> w in ids)
    && (forall w :: w in ids && w !in survivors ==> w in empties)
    && (|survivors| > 1 ==> survivors[|survivors| - 1] !in empties || survivors[|survivors| - 2] !in empties)
  }

  /** Only the active workspace, a named one and the tail may be empty and stay; without names the active one does stay. */
  ghost predicate KeepsFew(workspaces: Workspaces, empties: set<WorkspaceId>, ids: seq<WorkspaceId>,
                           survivors: seq<WorkspaceId>, active: WorkspaceId)
    requires survivors != [] && ids != []
    requires forall w :: w in ids ==> w in workspaces
    requires forall w :: w in survivors ==> w in workspaces
  {
    && (forall w :: w in survivors && w in empties && workspaces[w].name.None?
          ==> w == active || (w == ids[|ids| - 1] && w == survivors[|survivors| - 1]))
    && ((forall w :: w in ids ==> workspaces[w].name.None?) && active in ids ==> active in survivors)
  }

  /** The last element of the order survives filtering in last place. */
  lemma LastOfKept<T>(ids: seq<T>, drop: set<T>, kept: seq<T>, pos: seq<nat>)
    requires ids != [] && NoDup(ids) && ids[|ids| - 1] !in drop
    requires kept == Without(ids, 0, drop) && Embeds(kept, ids, pos)
    ensures kept != [] && kept[|kept| - 1] == ids[|ids| - 1]
  {
    WithoutMembers(ids, 0, drop);
    assert ids[0..] == ids;
    var k :| 0 <= k < |kept| && kept[k] == ids[|ids| - 1];
    assert pos[k] == |ids| - 1;
    assert k == |kept| - 1;
  }

  lemma CollapsedShape(columns: Columns, workspaces: Workspaces, ids: seq<WorkspaceId>, active: WorkspaceId)
    returns (kept: seq<WorkspaceId>, pos: seq<nat>, drop: set<WorkspaceId>)
    requires ids != [] && NoDup(ids) && forall w :: w in ids ==> w in workspaces
    ensures Collapse(columns, workspaces, ids, 0, active, ids[|ids| - 1]) == (kept, workspaces - drop)
    ensures kept != [] && kept[|kept| - 1] == ids[|ids| - 1] && NoDup(kept) && Embeds(kept, ids, pos)
    ensures forall w :: w in kept <==> w in ids && w !in drop
    ensures forall w :: w in drop ==> w in ids && w != active && IsEmpty(columns, workspaces, w)
    ensures forall w :: w in kept && IsEmpty(columns, workspaces, w) && workspaces[w].name.None?
              ==> w == active || w == ids[|ids| - 1]
  {
    var tail := ids[|ids| - 1];
    drop := Dropped(columns, workspaces, ids, 0, active, tail);
    assert ids[0..] == ids;
    CollapseFilters(columns, workspaces, ids, 0, active, tail);
    WithoutMembers(ids, 0, drop);
    pos := WithoutEmbeds(ids, 0, drop);
    kept := Without(ids, 0, drop);
    EmbedsKeepsNoDup(kept, ids, pos);
    LastOfKept(ids, drop, kept, pos);
    forall w | w in kept
      ensures IsEmpty(columns, workspaces, w) && workspaces[w].name.None? ==> w == active || w == tail
    {
      assert !IsCollapsible(columns, workspaces, w, active, tail);
    }
  }

  /** Filtering with `drop` and cutting at n, seen as one removal. */
  lemma CutSurvives(ids: seq<WorkspaceId>, empties: set<WorkspaceId>, drop: set<WorkspaceId>, kept: seq<WorkspaceId>, n: nat)
    returns (removed: set<WorkspaceId>)
    requires NoDup(kept) && CutsAt(kept, empties, n) && drop <= empties
    requires forall w :: w in drop ==> w in ids
    requires forall w :: w in kept <==> w in ids && w !in drop
    ensures Survive(ids, empties, kept[..n])
    ensures removed == drop + Elements(kept[n..])
    ensures forall w :: w in removed <==> w in ids && w !in kept[..n]
  {
    assert kept == kept[..n] + kept[n..];
    forall w | w in kept[n..] ensures w in empties && w !in kept[..n] {
      var k :| n <= k < |kept| && kept[k] == w;
    }
    removed := drop + Elements(kept[n..]);
  }

  lemma CutKeepsFew(workspaces: Workspaces, ids: seq<WorkspaceId>, empties: set<WorkspaceId>, kept: seq<WorkspaceId>, n: nat,
                    active: WorkspaceId)
    requires ids != [] && kept != [] && NoDup(kept) && CutsAt(kept, empties, n)
    requires kept[|kept| - 1] == ids[|ids| - 1] && (active in ids ==> active in kept)
    requires forall w :: w in ids ==> w in workspaces
    requires forall w :: w in kept ==> w in ids
    requires forall w :: w in kept && w in empties && workspaces[w].name.None? ==> w == active || w == ids[|ids| - 1]
    ensures KeepsFew(workspaces, empties, ids, kept[..n], active)
  {
    var survivors := kept[..n];
    forall w | w in survivors && w == ids[|ids| - 1] ensures w == survivors[n - 1] {
      var k :| 0 <= k < n && kept[k] == w;
      assert k == |kept| - 1;
    }
    if (forall w :: w in ids ==> workspaces[w].name.None?) && active in ids {
      var k :| 0 <= k < |kept| && kept[k] == active;
      assert kept[n - 1] in kept;
      assert k < n;
      assert survivors[k] == active;
    }
  }

  lemma EmbedsPrefix<T>(xs: seq<T>, ys: seq<T>, pos: seq<nat>, n: nat)
    requires Embeds(xs, ys, pos) && n <= |xs|
    ensures Embeds(xs[..n], ys, pos[..n])
  {
  }

  /** Collapsing and trimming, seen as one removal. */
  lemma CutShape(columns: Columns, workspaces: Workspaces, ids: seq<WorkspaceId>, active: WorkspaceId, empties: set<WorkspaceId>)
    returns (survivors: seq<WorkspaceId>, removed: set<WorkspaceId>, pos: seq<nat>)
    requires ids != [] && NoDup(ids) && forall w :: w in ids ==> w in workspaces
    requires empties == Empties(columns, workspaces, ids)
    ensures Survive(ids, empties, survivors)
    ensures KeepsFew(workspaces, empties, ids, survivors, active)
    ensures Embeds(survivors, ids, pos)
    ensures forall w :: w in removed <==> w in ids && w !in survivors
    ensures var (kept, collapsed) := Collapse(columns, workspaces, ids, 0, active, ids[|ids| - 1]);
            TrimTail(columns, collapsed, kept) == (survivors, workspaces - removed)
  {
    var kept, keptPos, drop := CollapsedShape(columns, workspaces, ids, active);
    var collapsed := workspaces - drop;
    RemovalKeepsEmptiness(columns, workspaces, drop);
    var n := TrimCutsEmptySuffix(columns, collapsed, kept, empties);
    removed := CutSurvives(ids, empties, drop, kept, n);
    CutKeepsFew(workspaces, ids, empties, kept, n, active);
    survivors := kept[..n];
    pos := keptPos[..n];
    EmbedsPrefix(kept, ids, keptPos, n);
    hide Survive, KeepsFew, CutsAt, Embeds, Collapse, TrimTail, IsEmpty;
    assert collapsed - Elements(kept[n..]) == workspaces - removed;
  }

  lemma ReorderedShape(columns: Columns, before: Order, active: WorkspaceId, monitorId: MonitorId, region: Rect,
                       empties: set<WorkspaceId>)
    returns (survivors: seq<WorkspaceId>, removed: set<WorkspaceId>, pos: seq<nat>)
    requires before.ids != [] && NoDup(before.ids)
    requires forall w :: w in before.ids ==> w in before.workspaces
    requires empties == Empties(columns, before.workspaces, before.ids)
    ensures Survive(before.ids, empties, survivors)
    ensures KeepsFew(before.workspaces, empties, before.ids, survivors, active)
    ensures Embeds(survivors, before.ids, pos)
    ensures forall w :: w in removed <==> w in before.ids && w !in survivors
    ensures Reordered(columns, before, active, monitorId, region)
         == if survivors[|survivors| - 1] in empties then Order(before.runtime, survivors, before.workspaces - removed)
            else Grow(before.runtime, before.workspaces - removed, survivors, monitorId, region)
  {
    survivors, removed, pos := CutShape(columns, before.workspaces, before.ids, active, empties);
    var (kept, collapsed) := Collapse(columns, before.workspaces, before.ids, 0, active, before.ids[|before.ids| - 1]);
    ReorderedParts(columns, before, active, monitorId, region, kept, collapsed, survivors, before.workspaces - removed);
    var last := survivors[|survivors| - 1];
    assert last in survivors;
    RemovalKeepsEmptiness(columns, before.workspaces, removed);
  }

  lemma RemovalKeepsEmptiness(columns: Columns, workspaces: Workspaces, removed: set<WorkspaceId>)
    ensures forall w :: w in workspaces && w !in removed ==>
              (IsEmpty(columns, workspaces - removed, w) <==> IsEmpty(columns, workspaces, w))
  {
    forall w | w in workspaces && w !in removed ensures (workspaces - removed)[w] == workspaces[w] {}
  }

  lemma ReorderedParts(columns: Columns, before: Order, active: WorkspaceId, monitorId: MonitorId, region: Rect,
                       kept: seq<WorkspaceId>, collapsed: Workspaces, survivors: seq<WorkspaceId>, remaining: Workspaces)
    requires before.ids != [] && survivors != []
    requires Collapse(columns, before.workspaces, before.ids, 0, active, before.ids[|before.ids| - 1]) == (kept, collapsed)
    requires TrimTail(columns, collapsed, kept) == (survivors, remaining)
    ensures Reordered(columns, before, active, monitorId, region)
         == if IsEmpty(columns, remaining, survivors[|survivors| - 1]) then Order(before.runtime, survivors, remaining)
            else Grow(before.runtime, remaining, survivors, monitorId, region)
  {
  }

  // ---- the state after normalisation -----------------------------------------------------------

  /** Two versions of a workspace that hold the same windows and scroll alike. */
  ghost predicate SameContents(before: Workspace, after: Workspace) {
    && after.id == before.id
    && after.name == before.name
    && after.rememberedWindowId == before.rememberedWindowId
    && after.rememberedColumnId == before.rememberedColumnId
    && after.strip.orderedColumnIds == before.strip.orderedColumnIds
    && after.strip.scrollOffset == before.strip.scrollOffset
    && after.floatingLayer.orderedWindowIds == before.floatingLayer.orderedWindowIds
    && after.floatingLayer.zHints == before.floatingLayer.zHints
  }

  ghost predicate IsBare(workspace: Workspace) {
    workspace.strip.orderedColumnIds == [] && workspace.floatingLayer.orderedWindowIds == []
  }

  /** How the workspaces change when, of the order `ids`, the `survivors` stay and a fresh tail may come. */
  ghost predicate WorkspacesFollow(before: Workspaces, after: Workspaces, ids: seq<WorkspaceId>, survivors: seq<WorkspaceId>,
                                   grown: bool, freshId: WorkspaceId, monitorId: MonitorId)
  {
    && (forall w :: w in after <==>
          (w in before && (w in ids ==> w in survivors)) || (grown && w == freshId))
    && (forall w :: w in before && w in after ==>
          SameContents(before[w], after[w]) && after[w].monitorId == before[w].monitorId)
    && (grown ==> IsBare(after[freshId]) && after[freshId].id == freshId && after[freshId].monitorId == monitorId)
  }

  /** How s1 comes out of s0 when set t is normalised and `survivors` stay. */
  ghost predicate Normalizes(s0: State, s1: State, t: WorkspaceSetId, survivors: seq<WorkspaceId>, grown: bool)
    requires t in s0.workspaceSets && survivors != []
  {
    var set0 := s0.workspaceSets[t];
    var freshId := s0.runtime.nextWorkspaceId;
    var ids := survivors + (if grown then [freshId] else []);
    var active := if set0.activeWorkspaceId in ids then set0.activeWorkspaceId else ids[0];
    && NoDup(ids)
    && t in s1.workspaceSets
    && WorkspacesFollow(s0.workspaces, s1.workspaces, set0.orderedWorkspaceIds, survivors, grown, freshId, set0.monitorId)
    && s1 == s0.(runtime := s0.runtime.(nextWorkspaceId := if grown then freshId + 1 else freshId),
                 workspaces := s1.workspaces,
                 workspaceSets := s0.workspaceSets[t := s1.workspaceSets[t]],
                 focus := s0.focus.(activeByMonitor := s0.focus.activeByMonitor[set0.monitorId := active]))
    && s1.workspaceSets[t] == set0.(orderedWorkspaceIds := ids, activeWorkspaceId := active,
                                    lastNonEmptyWorkspaceId := s1.workspaceSets[t].lastNonEmptyWorkspaceId)
  }

  /** The order and the map that normalisation writes back, from the survivors alone. */
  ghost function Regrown(s: State, t: WorkspaceSetId, survivors: seq<WorkspaceId>, removed: set<WorkspaceId>, grown: bool): (r: Order)
    requires t in s.workspaceSets && survivors != []
    ensures r.ids != []
  {
    var set0 := s.workspaceSets[t];
    if grown then Grow(s.runtime, s.workspaces - removed, survivors, set0.monitorId, RegionOf(s, set0.monitorId))
    else Order(s.runtime, survivors, s.workspaces - removed)
  }

  lemma NormalizeParts(s: State, t: WorkspaceSetId)
    returns (survivors: seq<WorkspaceId>, removed: set<WorkspaceId>, grown: bool, pos: seq<nat>)
    requires t in s.workspaceSets && SetOk(s.monitors, s.workspaces, t, s.workspaceSets[t])
    ensures Survive(s.workspaceSets[t].orderedWorkspaceIds,
                    Empties(s.columns, s.workspaces, s.workspaceSets[t].orderedWorkspaceIds), survivors)
    ensures KeepsFew(s.workspaces, Empties(s.columns, s.workspaces, s.workspaceSets[t].orderedWorkspaceIds),
                     s.workspaceSets[t].orderedWorkspaceIds, survivors, s.workspaceSets[t].activeWorkspaceId)
    ensures Embeds(survivors, s.workspaceSets[t].orderedWorkspaceIds, pos)
    ensures forall w :: w in removed <==> w in s.workspaceSets[t].orderedWorkspaceIds && w !in survivors
    ensures grown <==> !IsEmpty(s.columns, s.workspaces, survivors[|survivors| - 1])
    ensures Normalize(s, t) == WriteBack(s, t, Regrown(s, t, survivors, removed, grown))
  {
    var set0 := s.workspaceSets[t];
    var before := Order(s.runtime, set0.orderedWorkspaceIds, s.workspaces);
    var empties := Empties(s.columns, s.workspaces, before.ids);
    survivors, removed, pos := ReorderedShape(s.columns, before, set0.activeWorkspaceId, set0.monitorId,
                                              RegionOf(s, set0.monitorId), empties);
    grown := survivors[|survivors| - 1] !in empties;
    assert Seeded(s, set0) == before;
  }

  lemma RegrownIds(s: State, t: WorkspaceSetId, survivors: seq<WorkspaceId>, removed: set<WorkspaceId>, grown: bool)
    requires t in s.workspaceSets && SetOk(s.monitors, s.workspaces, t, s.workspaceSets[t]) && s.runtime.nextWorkspaceId !in s.workspaces
    requires survivors != [] && NoDup(survivors)
    requires forall w :: w in survivors ==> w in s.workspaceSets[t].orderedWorkspaceIds
    requires forall w :: w in removed <==> w in s.workspaceSets[t].orderedWorkspaceIds && w !in survivors
    ensures var r := Regrown(s, t, survivors, removed, grown);
            NoDup(r.ids) && forall w :: w in r.ids ==> w in r.workspaces
  {
  }

  /** Stamping changes no contents. */
  lemma StampedContents(columns: Columns, order: Order, monitorId: MonitorId, region: Rect)
    requires NoDup(order.ids) && forall w :: w in order.ids ==> w in order.workspaces
    ensures var r := Stamp(columns, order.workspaces, order.ids, 0, monitorId, region);
            && r.Keys == order.workspaces.Keys
            && (forall w :: w in order.workspaces ==> SameContents(order.workspaces[w], r[w]))
            && (forall w :: w in order.workspaces ==>
                  r[w].monitorId == if w in order.ids then monitorId else order.workspaces[w].monitorId)
  {
    StampsEachPosition(columns, order.workspaces, order.ids, 0, monitorId, region);
    assert order.ids[0..] == order.ids;
    var r := Stamp(columns, order.workspaces, order.ids, 0, monitorId, region);
    forall w | w in order.ids
      ensures SameContents(order.workspaces[w], r[w]) && r[w].monitorId == monitorId
    {
      var k :| 0 <= k < |order.ids| && order.ids[k] == w;
    }
  }

  lemma StampedFollow(s: State, t: WorkspaceSetId, survivors: seq<WorkspaceId>, removed: set<WorkspaceId>, grown: bool)
    requires t in s.workspaceSets && SetOk(s.monitors, s.workspaces, t, s.workspaceSets[t]) && s.runtime.nextWorkspaceId !in s.workspaces
    requires Survive(s.workspaceSets[t].orderedWorkspaceIds,
                     Empties(s.columns, s.workspaces, s.workspaceSets[t].orderedWorkspaceIds), survivors)
    requires forall w :: w in removed <==> w in s.workspaceSets[t].orderedWorkspaceIds && w !in survivors
    ensures var set0 := s.workspaceSets[t];
            var order := Regrown(s, t, survivors, removed, grown);
            && NoDup(order.ids)
            && WorkspacesFollow(s.workspaces,
                                Stamp(s.columns, order.workspaces, order.ids, 0, set0.monitorId, RegionOf(s, set0.monitorId)),
                                set0.orderedWorkspaceIds, survivors, grown, s.runtime.nextWorkspaceId, set0.monitorId)
  {
    RegrownIds(s, t, survivors, removed, grown);
    var order := Regrown(s, t, survivors, removed, grown);
    var set0 := s.workspaceSets[t];
    StampedContents(s.columns, order, set0.monitorId, RegionOf(s, set0.monitorId));
  }

  lemma NormalizeShape(s: State, t: WorkspaceSetId)
    returns (survivors: seq<WorkspaceId>, grown: bool, pos: seq<nat>)
    requires t in s.workspaceSets && SetOk(s.monitors, s.workspaces, t, s.workspaceSets[t]) && s.runtime.nextWorkspaceId !in s.workspaces
    ensures Survive(s.workspaceSets[t].orderedWorkspaceIds,
                    Empties(s.columns, s.workspaces, s.workspaceSets[t].orderedWorkspaceIds), survivors)
    ensures KeepsFew(s.workspaces, Empties(s.columns, s.workspaces, s.workspaceSets[t].orderedWorkspaceIds),
                     s.workspaceSets[t].orderedWorkspaceIds, survivors, s.workspaceSets[t].activeWorkspaceId)
    ensures Embeds(survivors, s.workspaceSets[t].orderedWorkspaceIds, pos)
    ensures grown <==> !IsEmpty(s.columns, s.workspaces, survivors[|survivors| - 1])
    ensures Normalizes(s, Normalize(s, t), t, survivors, grown)
  {
    hide Survive, KeepsFew, Embeds, Empties, SetOk, Normalize, IsEmpty, Stamp;
    var removed;
    survivors, removed, grown, pos := NormalizeParts(s, t);
    StampedFollow(s, t, survivors, removed, grown);
  }

  // ---- what normalisation keeps ----------------------------------------------------------------

  ghost predicate Shape(s0: State, s1: State, t: WorkspaceSetId, survivors: seq<WorkspaceId>, grown: bool) {
    && t in s0.workspaceSets
    && Survive(s0.workspaceSets[t].orderedWorkspaceIds,
               Empties(s0.columns, s0.workspaces, s0.workspaceSets[t].orderedWorkspaceIds), survivors)
    && Normalizes(s0, s1, t, survivors, grown)
  }

  /** A workspace with something in it stays, with its contents. */
  lemma NonEmptyStays(s0: State, s1: State, t: WorkspaceSetId, survivors: seq<WorkspaceId>, grown: bool, w: WorkspaceId)
    requires Shape(s0, s1, t, survivors, grown) && w in s0.workspaces
    requires !IsEmpty(s0.columns, s0.workspaces, w)
    ensures w in s1.workspaces && SameContents(s0.workspaces[w], s1.workspaces[w])
            && s1.workspaces[w].monitorId == s0.workspaces[w].monitorId
  {
  }

  lemma MembershipFollows(s0: State, s1: State, t: WorkspaceSetId, survivors: seq<WorkspaceId>, grown: bool)
    requires Membership(s0) && Shape(s0, s1, t, survivors, grown)
    ensures Membership(s1)
  {
    forall w | w in s1.workspaces ensures WorkspaceOk(s1.windows, s1.columns, w, s1.workspaces[w]) {
      if w in s0.workspaces {
        assert WorkspaceOk(s0.windows, s0.columns, w, s0.workspaces[w]);
        forall c | c in s1.workspaces[w].strip.orderedColumnIds ensures StripColumnOk(s1.windows, s1.columns, w, c) {
          assert StripColumnOk(s0.windows, s0.columns, w, c);
        }
        forall x | x in s1.workspaces[w].floatingLayer.orderedWindowIds ensures FloatsIn(s1.windows, w, x) {
          assert FloatsIn(s0.windows, w, x);
        }
      }
    }
    forall c | c in s1.columns ensures ColumnOk(s1.windows, s1.workspaces, c, s1.columns[c]) {
      assert ColumnOk(s0.windows, s0.workspaces, c, s0.columns[c]);
      forall x | x in s0.columns[c].orderedWindowIds ensures TiledIn(s1.windows, s1.workspaces, c, x) {
        assert TiledIn(s0.windows, s0.workspaces, c, x);
        NonEmptyStays(s0, s1, t, survivors, grown, s0.windows[x].workspaceId);
      }
    }
    forall x | x in s1.windows ensures WindowOk(s1.columns, s1.workspaces, x, s1.windows[x]) {
      assert WindowOk(s0.columns, s0.workspaces, x, s0.windows[x]);
      if s0.windows[x].isManaged {
        ManagedWorkspaceStays(s0, s1, t, survivors, grown, x);
      }
    }
  }

  lemma ManagedWorkspaceStays(s0: State, s1: State, t: WorkspaceSetId, survivors: seq<WorkspaceId>, grown: bool, x: WindowId)
    requires Membership(s0) && Shape(s0, s1, t, survivors, grown)
    requires x in s0.windows && s0.windows[x].isManaged
    ensures var w := s0.windows[x].workspaceId;
            && w in s0.workspaces && !IsEmpty(s0.columns, s0.workspaces, w)
            && w in s1.workspaces && SameContents(s0.workspaces[w], s1.workspaces[w])
            && s1.workspaces[w].monitorId == s0.workspaces[w].monitorId
  {
    assert WindowOk(s0.columns, s0.workspaces, x, s0.windows[x]);
    var w := s0.windows[x].workspaceId;
    match s0.windows[x].columnId {
      case Some(c) => assert ColumnOk(s0.windows, s0.workspaces, c, s0.columns[c]) && TiledIn(s0.windows, s0.workspaces, c, x);
      case None =>
    }
    NonEmptyStays(s0, s1, t, survivors, grown, w);
  }

  lemma OwnSetFollows(s0: State, s1: State, t: WorkspaceSetId, survivors: seq<WorkspaceId>, grown: bool)
    requires t in s0.workspaceSets && SetOk(s0.monitors, s0.workspaces, t, s0.workspaceSets[t]) && Shape(s0, s1, t, survivors, grown)
    ensures SetOk(s1.monitors, s1.workspaces, t, s1.workspaceSets[t])
  {
    var ids := s1.workspaceSets[t].orderedWorkspaceIds;
    assert survivors[0] == ids[0];
    forall w | w in ids
      ensures w in s1.workspaces && s1.workspaces[w].monitorId == s0.workspaceSets[t].monitorId
    {
      assert w in survivors || (grown && w == s0.runtime.nextWorkspaceId);
    }
  }

  lemma OtherSetFollows(s0: State, s1: State, t: WorkspaceSetId, survivors: seq<WorkspaceId>, grown: bool, t': WorkspaceSetId)
    requires t in s0.workspaceSets && SetOk(s0.monitors, s0.workspaces, t, s0.workspaceSets[t]) && Shape(s0, s1, t, survivors, grown)
    requires t' in s0.workspaceSets && SetOk(s0.monitors, s0.workspaces, t', s0.workspaceSets[t']) && t' != t
    ensures t' in s1.workspaceSets && SetOk(s1.monitors, s1.workspaces, t', s1.workspaceSets[t'])
  {
    assert s1.workspaceSets[t'] == s0.workspaceSets[t'];
    forall w | w in s0.workspaceSets[t'].orderedWorkspaceIds
      ensures w in s1.workspaces && s1.workspaces[w].monitorId == s0.workspaceSets[t'].monitorId
    {
      assert w !in s0.workspaceSets[t].orderedWorkspaceIds;
    }
  }

  lemma MonitorsFollow(s0: State, s1: State, t: WorkspaceSetId, survivors: seq<WorkspaceId>, grown: bool)
    requires t in s0.workspaceSets && SetOk(s0.monitors, s0.workspaces, t, s0.workspaceSets[t]) && Shape(s0, s1, t, survivors, grown)
    requires forall m :: m in s0.monitors ==> MonitorOk(s0.workspaceSets, s0.focus.activeByMonitor, m, s0.monitors[m])
    ensures forall m :: m in s1.monitors ==> MonitorOk(s1.workspaceSets, s1.focus.activeByMonitor, m, s1.monitors[m])
    ensures s1.focus.activeByMonitor.Keys == s0.focus.activeByMonitor.Keys
    ensures s1.monitors == s0.monitors
  {
    assert MonitorOk(s0.workspaceSets, s0.focus.activeByMonitor, s0.workspaceSets[t].monitorId, s0.monitors[s0.workspaceSets[t].monitorId]);
    forall m | m in s1.monitors ensures MonitorOk(s1.workspaceSets, s1.focus.activeByMonitor, m, s1.monitors[m]) {
      assert MonitorOk(s0.workspaceSets, s0.focus.activeByMonitor, m, s0.monitors[m]);
    }
  }

  lemma HomesFollow(s0: State, s1: State, t: WorkspaceSetId, survivors: seq<WorkspaceId>, grown: bool)
    requires t in s0.workspaceSets && SetOk(s0.monitors, s0.workspaces, t, s0.workspaceSets[t]) && Shape(s0, s1, t, survivors, grown)
    requires forall w :: w in s0.workspaces ==> HomeOk(s0.monitors, s0.workspaceSets, w, s0.workspaces[w])
    ensures forall w :: w in s1.workspaces ==> HomeOk(s1.monitors, s1.workspaceSets, w, s1.workspaces[w])
  {
    forall w | w in s1.workspaces ensures HomeOk(s1.monitors, s1.workspaceSets, w, s1.workspaces[w]) {
      assert w in s0.workspaces ==> HomeOk(s0.monitors, s0.workspaceSets, w, s0.workspaces[w]);
    }
  }

  lemma SetsFollow(s0: State, s1: State, t: WorkspaceSetId, survivors: seq<WorkspaceId>, grown: bool)
    requires t in s0.workspaceSets && Shape(s0, s1, t, survivors, grown)
    requires forall t' :: t' in s0.workspaceSets ==> SetOk(s0.monitors, s0.workspaces, t', s0.workspaceSets[t'])
    ensures forall t' :: t' in s1.workspaceSets ==> SetOk(s1.monitors, s1.workspaces, t', s1.workspaceSets[t'])
  {
    assert s1.workspaceSets.Keys == s0.workspaceSets.Keys;
    forall t' | t' in s0.workspaceSets ensures t' in s1.workspaceSets && SetOk(s1.monitors, s1.workspaces, t', s1.workspaceSets[t']) {
      if t' == t {
        OwnSetFollows(s0, s1, t, survivors, grown);
      } else {
        OtherSetFollows(s0, s1, t, survivors, grown, t');
      }
    }
  }

  lemma TopologyFollows(s0: State, s1: State, t: WorkspaceSetId, survivors: seq<WorkspaceId>, grown: bool)
    requires Topology(s0) && Shape(s0, s1, t, survivors, grown)
    ensures Topology(s1)
  {
    assert SetOk(s0.monitors, s0.workspaces, t, s0.workspaceSets[t]);
    SetsFollow(s0, s1, t, survivors, grown);
    MonitorsFollow(s0, s1, t, survivors, grown);
    HomesFollow(s0, s1, t, survivors, grown);
  }

  lemma FocusFollows(s0: State, s1: State, t: WorkspaceSetId, survivors: seq<WorkspaceId>, grown: bool)
    requires Topology(s0) && Membership(s0) && FocusOk(s0) && Shape(s0, s1, t, survivors, grown)
    ensures FocusOk(s1)
  {
    var set0 := s0.workspaceSets[t];
    assert SetOk(s0.monitors, s0.workspaces, t, s0.workspaceSets[t]) && MonitorOk(s0.workspaceSets, s0.focus.activeByMonitor, set0.monitorId, s0.monitors[set0.monitorId]);
    if s0.focus.windowId.Some? && s0.windows[s0.focus.windowId.value].isManaged {
      var w := s0.windows[s0.focus.windowId.value].workspaceId;
      ManagedWorkspaceStays(s0, s1, t, survivors, grown, s0.focus.windowId.value);
      if s0.workspaces[w].monitorId == set0.monitorId {
        assert w in survivors;
      }
    }
  }

  lemma FreshFollows(s0: State, s1: State, t: WorkspaceSetId, survivors: seq<WorkspaceId>, grown: bool)
    requires Fresh(s0) && Shape(s0, s1, t, survivors, grown)
    ensures Fresh(s1)
  {
  }

  lemma InvariantsFollow(s0: State, s1: State, t: WorkspaceSetId, survivors: seq<WorkspaceId>, grown: bool)
    requires WellFormed(s0) && Shape(s0, s1, t, survivors, grown)
    ensures WellFormed(s1)
    ensures FocusOk(s0) ==> FocusOk(s1)
  {
    TopologyFollows(s0, s1, t, survivors, grown);
    MembershipFollows(s0, s1, t, survivors, grown);
    FreshFollows(s0, s1, t, survivors, grown);
    if FocusOk(s0) {
      FocusFollows(s0, s1, t, survivors, grown);
    }
  }

  /** Normalising keeps every invariant; windows, columns, monitors and configuration are untouched. */
  lemma NormalizeKeepsInvariants(s: State, t: WorkspaceSetId)
    requires WellFormed(s)
    ensures WellFormed(Normalize(s, t))
    ensures FocusOk(s) ==> FocusOk(Normalize(s, t))
    ensures FocusShown(s) <==> FocusShown(Normalize(s, t))
    ensures Normalize(s, t).windows == s.windows && Normalize(s, t).columns == s.columns
    ensures Normalize(s, t).monitors == s.monitors && Normalize(s, t).config == s.config
  {
    if t in s.workspaceSets {
      assert SetOk(s.monitors, s.workspaces, t, s.workspaceSets[t]);
      var survivors, grown, _ := NormalizeShape(s, t);
      InvariantsFollow(s, Normalize(s, t), t, survivors, grown);
    }
  }

  // ---- the normal form -------------------------------------------------------------------------

  /** The derived fields of a set's workspaces agree with their positions. */
  ghost predicate Stamped(s: State, t: WorkspaceSetId)
    requires t in s.workspaceSets
  {
    var set0 := s.workspaceSets[t];
    var ids := set0.orderedWorkspaceIds;
    forall k :: 0 <= k < |ids| ==>
      ids[k] in s.workspaces &&
      s.workspaces[ids[k]] == StampOne(s.columns, s.workspaces[ids[k]], ids[k], k, k == |ids| - 1,
                                       set0.monitorId, RegionOf(s, set0.monitorId))
  }

  lemma NormalizeStamps(s: State, t: WorkspaceSetId)
    requires t in s.workspaceSets && SetOk(s.monitors, s.workspaces, t, s.workspaceSets[t]) && s.runtime.nextWorkspaceId !in s.workspaces
    ensures t in Normalize(s, t).workspaceSets && Stamped(Normalize(s, t), t)
  {
    var set0 := s.workspaceSets[t];
    var survivors, removed, grown, _ := NormalizeParts(s, t);
    RegrownIds(s, t, survivors, removed, grown);
    var order := Regrown(s, t, survivors, removed, grown);
    StampsEachPosition(s.columns, order.workspaces, order.ids, 0, set0.monitorId, RegionOf(s, set0.monitorId));
  }

  /** What last_non_empty_workspace_id means. */
  lemma {:induction false} LastNonEmptyIsLast(columns: Columns, workspaces: Workspaces, ids: seq<WorkspaceId>)
    ensures match LastNonEmpty(columns, workspaces, ids)
            case None => forall w :: w in ids ==> IsEmpty(columns, workspaces, w)
            case Some(w) =>
              exists k :: 0 <= k < |ids| && ids[k] == w && !IsEmpty(columns, workspaces, w)
                          && forall j :: k < j < |ids| ==> IsEmpty(columns, workspaces, ids[j])
    decreases |ids|
  {
    if ids != [] {
      var n := |ids| - 1;
      assert ids == ids[..n] + [ids[n]];
      if IsEmpty(columns, workspaces, ids[n]) {
        LastNonEmptyIsLast(columns, workspaces, ids[..n]);
        if LastNonEmpty(columns, workspaces, ids[..n]).Some? {
          var w := LastNonEmpty(columns, workspaces, ids[..n]).value;
          var k :| 0 <= k < n && ids[..n][k] == w && !IsEmpty(columns, workspaces, w)
                   && forall j :: k < j < n ==> IsEmpty(columns, workspaces, ids[..n][j]);
          assert ids[k] == w;
          forall j | k < j < |ids| ensures IsEmpty(columns, workspaces, ids[j]) {
            assert j < n ==> ids[..n][j] == ids[j];
          }
        }
      }
    }
  }

  lemma {:induction false} LastNonEmptyFrame(columns: Columns, before: Workspaces, after: Workspaces, ids: seq<WorkspaceId>)
    requires forall w :: w in ids ==> (IsEmpty(columns, before, w) <==> IsEmpty(columns, after, w))
    ensures LastNonEmpty(columns, before, ids) == LastNonEmpty(columns, after, ids)
    decreases |ids|
  {
    if ids != [] && IsEmpty(columns, before, ids[|ids| - 1]) {
      LastNonEmptyFrame(columns, before, after, ids[..|ids| - 1]);
    }
  }

  lemma ShapeIsNormal(s0: State, s1: State, t: WorkspaceSetId, survivors: seq<WorkspaceId>, grown: bool)
    requires t in s0.workspaceSets && SetOk(s0.monitors, s0.workspaces, t, s0.workspaceSets[t]) && Shape(s0, s1, t, survivors, grown)
    requires s0.runtime.nextWorkspaceId !in s0.workspaces
    requires KeepsFew(s0.workspaces, Empties(s0.columns, s0.workspaces, s0.workspaceSets[t].orderedWorkspaceIds),
                      s0.workspaceSets[t].orderedWorkspaceIds, survivors, s0.workspaceSets[t].activeWorkspaceId)
    requires grown <==> !IsEmpty(s0.columns, s0.workspaces, survivors[|survivors| - 1])
    ensures SetIsNormal(s1, t)
  {
    var ids := s1.workspaceSets[t].orderedWorkspaceIds;
    forall w | w in survivors
      ensures w in s0.workspaces && w in s1.workspaces && s1.workspaces[w].name == s0.workspaces[w].name
      ensures IsEmpty(s1.columns, s1.workspaces, w) <==> IsEmpty(s0.columns, s0.workspaces, w)
    {
      assert SameContents(s0.workspaces[w], s1.workspaces[w]);
    }
    var n := |survivors|;
    assert survivors[n - 1] in survivors && (n > 1 ==> survivors[n - 2] in survivors);
  }

  /**
   * Normalising a set: the order ends in one empty tail with a non-empty workspace before it, every other
   * empty unnamed workspace is the active one, no non-empty workspace is lost, the order is kept, positions
   * and the active workspace are recorded.
   */
  lemma NormalizeEstablishesNormalForm(s: State, t: WorkspaceSetId)
    requires WellFormed(s) && t in s.workspaceSets
    ensures var s1 := Normalize(s, t);
            && SetIsNormal(s1, t)
            && Stamped(s1, t)
            && s1.workspaceSets[t].activeWorkspaceId in s1.workspaceSets[t].orderedWorkspaceIds
            && ActiveWorkspace(s1, s.workspaceSets[t].monitorId) == Some(s1.workspaceSets[t].activeWorkspaceId)
            && (if s.workspaceSets[t].activeWorkspaceId in s1.workspaceSets[t].orderedWorkspaceIds
                then s1.workspaceSets[t].activeWorkspaceId == s.workspaceSets[t].activeWorkspaceId
                else s1.workspaceSets[t].activeWorkspaceId == s1.workspaceSets[t].orderedWorkspaceIds[0])
  {
    assert SetOk(s.monitors, s.workspaces, t, s.workspaceSets[t]);
    var survivors, grown, _ := NormalizeShape(s, t);
    ShapeIsNormal(s, Normalize(s, t), t, survivors, grown);
    NormalizeStamps(s, t);
    InvariantsFollow(s, Normalize(s, t), t, survivors, grown);
    var s1 := Normalize(s, t);
    assert SetOk(s1.monitors, s1.workspaces, t, s1.workspaceSets[t]);
    assert MonitorOk(s1.workspaceSets, s1.focus.activeByMonitor, s1.workspaceSets[t].monitorId, s1.monitors[s1.workspaceSets[t].monitorId]);
  }

  /** No non-empty workspace disappears, contents stay, at most one workspace comes, and the order is kept. */
  lemma NormalizeLosesNothing(s: State, t: WorkspaceSetId)
    requires WellFormed(s) && t in s.workspaceSets
    ensures var s1 := Normalize(s, t);
            var ids0 := s.workspaceSets[t].orderedWorkspaceIds;
            var ids1 := s1.workspaceSets[t].orderedWorkspaceIds;
            && (forall w :: w in s.workspaces && !IsEmpty(s.columns, s.workspaces, w) ==>
                  w in s1.workspaces && SameContents(s.workspaces[w], s1.workspaces[w])
                  && s1.workspaces[w].monitorId == s.workspaces[w].monitorId && (w in ids0 ==> w in ids1))
            && (forall w :: w in s1.workspaces && w !in s.workspaces ==> w == s.runtime.nextWorkspaceId && IsBare(s1.workspaces[w]))
            && exists kept, pos :: Embeds(kept, ids0, pos) && (ids1 == kept || ids1 == kept + [s.runtime.nextWorkspaceId])
  {
    assert SetOk(s.monitors, s.workspaces, t, s.workspaceSets[t]);
    var survivors, grown, pos := NormalizeShape(s, t);
    var ids1 := Normalize(s, t).workspaceSets[t].orderedWorkspaceIds;
    assert Embeds(survivors, s.workspaceSets[t].orderedWorkspaceIds, pos);
    assert ids1 == survivors || ids1 == survivors + [s.runtime.nextWorkspaceId];
  }

  // ---- normalising twice -----------------------------------------------------------------------

  lemma {:induction false} StampOfStamped(columns: Columns, workspaces: Workspaces, ids: seq<WorkspaceId>, i: nat,
                                          monitorId: MonitorId, region: Rect)
    requires i <= |ids| && NoDup(ids)
    requires forall w :: w in ids ==> w in workspaces
    requires forall k :: i <= k < |ids| ==>
               workspaces[ids[k]] == StampOne(columns, workspaces[ids[k]], ids[k], k, k == |ids| - 1, monitorId, region)
    ensures Stamp(columns, workspaces, ids, i, monitorId, region) == workspaces
    decreases |ids| - i
  {
    if i < |ids| {
      assert workspaces[ids[i] := workspaces[ids[i]]] == workspaces;
      StampOfStamped(columns, workspaces, ids, i + 1, monitorId, region);
    }
  }

  lemma {:induction false} WithoutNothing<T>(ids: seq<T>, i: nat)
    requires i <= |ids|
    ensures Without(ids, i, {}) == ids[i..]
    decreases |ids| - i
  {
    if i < |ids| {
      WithoutNothing(ids, i + 1);
    }
  }

  lemma NormalOrderStays(s: State, t: WorkspaceSetId)
    requires t in s.workspaceSets && SetOk(s.monitors, s.workspaces, t, s.workspaceSets[t]) && SetIsNormal(s, t)
    ensures var set0 := s.workspaceSets[t];
            var order := Order(s.runtime, set0.orderedWorkspaceIds, s.workspaces);
            Reordered(s.columns, order, set0.activeWorkspaceId, set0.monitorId, RegionOf(s, set0.monitorId)) == order
  {
    var set0 := s.workspaceSets[t];
    var ids := set0.orderedWorkspaceIds;
    var tail := ids[|ids| - 1];
    CollapseFilters(s.columns, s.workspaces, ids, 0, set0.activeWorkspaceId, tail);
    assert ids[0..] == ids;
    assert Dropped(s.columns, s.workspaces, ids, 0, set0.activeWorkspaceId, tail) == {};
    WithoutNothing(ids, 0);
    assert s.workspaces - {} == s.workspaces;
  }

  /** A set in normal form with its records up to date is left alone. */
  lemma NormalFormIsFixed(s: State, t: WorkspaceSetId)
    requires t in s.workspaceSets && SetOk(s.monitors, s.workspaces, t, s.workspaceSets[t]) && SetIsNormal(s, t) && Stamped(s, t)
    requires MonitorOk(s.workspaceSets, s.focus.activeByMonitor, s.workspaceSets[t].monitorId, s.monitors[s.workspaceSets[t].monitorId])
    requires s.workspaceSets[t].lastNonEmptyWorkspaceId
          == LastNonEmpty(s.columns, s.workspaces, s.workspaceSets[t].orderedWorkspaceIds)
    ensures Normalize(s, t) == s
  {
    var set0 := s.workspaceSets[t];
    NormalOrderStays(s, t);
    StampOfStamped(s.columns, s.workspaces, set0.orderedWorkspaceIds, 0, set0.monitorId, RegionOf(s, set0.monitorId));
    assert s.workspaceSets[t := set0] == s.workspaceSets;
    assert s.focus.activeByMonitor[set0.monitorId := set0.activeWorkspaceId] == s.focus.activeByMonitor;
  }

  lemma NormalizeRecordsLast(s: State, t: WorkspaceSetId)
    requires t in s.workspaceSets && SetOk(s.monitors, s.workspaces, t, s.workspaceSets[t]) && s.runtime.nextWorkspaceId !in s.workspaces
    ensures var s1 := Normalize(s, t);
            t in s1.workspaceSets && s1.workspaceSets[t].lastNonEmptyWorkspaceId
              == LastNonEmpty(s1.columns, s1.workspaces, s1.workspaceSets[t].orderedWorkspaceIds)
  {
    var set0 := s.workspaceSets[t];
    var survivors, removed, grown, _ := NormalizeParts(s, t);
    RegrownIds(s, t, survivors, removed, grown);
    var order := Regrown(s, t, survivors, removed, grown);
    StampedContents(s.columns, order, set0.monitorId, RegionOf(s, set0.monitorId));
    var stamped := Stamp(s.columns, order.workspaces, order.ids, 0, set0.monitorId, RegionOf(s, set0.monitorId));
    forall w | w in order.ids
      ensures IsEmpty(s.columns, order.workspaces, w) <==> IsEmpty(s.columns, stamped, w)
    {
      assert SameContents(order.workspaces[w], stamped[w]);
    }
    LastNonEmptyFrame(s.columns, order.workspaces, stamped, order.ids);
  }

  /** The tail a monitor is given is an empty workspace of it. */
  lemma EnsuredTailIsEmpty(s: State, m: MonitorId)
    requires WellFormed(s) && m in s.monitors
    ensures var s1 := EnsureTail(s, m);
            var tail := TailOf(s1, m);
            && tail.Some? && tail.value in s1.workspaces && s1.workspaces[tail.value].monitorId == m
            && IsEmpty(s1.columns, s1.workspaces, tail.value)
  {
    assert MonitorOk(s.workspaceSets, s.focus.activeByMonitor, m, s.monitors[m]);
    var t := s.monitors[m].workspaceSetId;
    hide Topo, Members, Normalize;
    NormalizeEstablishesNormalForm(s, t);
    NormalizeKeepsInvariants(s, t);
    NormalTailIsEmpty(Normalize(s, t), t, m);
  }

  lemma NormalTailIsEmpty(s: State, t: WorkspaceSetId, m: MonitorId)
    requires Topology(s) && m in s.monitors && s.monitors[m].workspaceSetId == t && t in s.workspaceSets && SetIsNormal(s, t)
    ensures var tail := TailOf(s, m);
            && tail.Some? && tail.value in s.workspaces && s.workspaces[tail.value].monitorId == m
            && IsEmpty(s.columns, s.workspaces, tail.value)
  {
    assert MonitorOk(s.workspaceSets, s.focus.activeByMonitor, m, s.monitors[m]);
    assert SetOk(s.monitors, s.workspaces, t, s.workspaceSets[t]);
    hide IsEmpty;
  }

  /** Normalising twice is normalising once. */
  lemma NormalizeIsIdempotent(s: State, t: WorkspaceSetId)
    requires WellFormed(s)
    ensures Normalize(Normalize(s, t), t) == Normalize(s, t)
  {
    if t in s.workspaceSets {
      NormalizeEstablishesNormalForm(s, t);
      NormalizeKeepsInvariants(s, t);
      assert SetOk(s.monitors, s.workspaces, t, s.workspaceSets[t]);
      NormalizeRecordsLast(s, t);
      var s1 := Normalize(s, t);
      var m := s1.workspaceSets[t].monitorId;
      assert SetOk(s1.monitors, s1.workspaces, t, s1.workspaceSets[t]);
      assert MonitorOk(s1.workspaceSets, s1.focus.activeByMonitor, m, s1.monitors[m]);
      NormalFormIsFixed(Normalize(s, t), t);
    }
  }
}
