// Exactly which workspaces survive a normalisation, and what it writes into them.
module NormalizationExact {
  import opened Wrappers
  import opened MachineInt
  import opened Domain
  import opened Model
  import opened Invariants
  import opened Normalization
  import opened RunInvariants

  // ---- which workspaces survive ------------------------------------------------------------------

  /** Workspace i of the set holds a window. */
  ghost predicate Inhabited(s: State, ids: seq<WorkspaceId>, i: nat)
    requires i < |ids|
  {
    !IsEmpty(s.columns, s.workspaces, ids[i])
  }

  /** Not dropped for being empty: inhabited, active, named, or the last one. */
  ghost predicate Stays(s: State, ids: seq<WorkspaceId>, active: WorkspaceId, i: nat)
    requires i < |ids|
  {
    || Inhabited(s, ids, i)
    || ids[i] == active
    || i == |ids| - 1
    || (ids[i] in s.workspaces && s.workspaces[ids[i]].name.Some?)
  }

  /** Some inhabited workspace comes after i. */
  ghost predicate InhabitedAfter(s: State, ids: seq<WorkspaceId>, i: nat)
    requires i < |ids|
  {
    exists j :: i < j < |ids| && Inhabited(s, ids, j)
  }

  /** Of the empty workspaces that stay behind the last inhabited one before i, i is the first. */
  ghost predicate FirstOfTail(s: State, ids: seq<WorkspaceId>, active: WorkspaceId, i: nat)
    requires i < |ids|
  {
    forall j :: 0 <= j < i && Stays(s, ids, active, j) ==> InhabitedBetween(s, ids, j, i)
  }

  /** Workspace j or one after it, up to i, is inhabited. */
  ghost predicate InhabitedBetween(s: State, ids: seq<WorkspaceId>, j: nat, i: nat)
    requires j <= i < |ids|
  {
    exists k :: j <= k <= i && Inhabited(s, ids, k)
  }

  /** The order a normalisation starts from, filtered and cut. */
  lemma CutKeeps(ids: seq<WorkspaceId>, empties: set<WorkspaceId>, drop: set<WorkspaceId>, kept: seq<WorkspaceId>,
                 pos: seq<nat>, n: nat, i: nat)
    requires NoDup(ids) && Embeds(kept, ids, pos) && CutsAt(kept, empties, n) && i < |ids|
    requires forall w :: w in kept <==> w in ids && w !in drop
    requires forall w :: w in drop ==> w in empties
    ensures (
      ids[i] in kept[..n] <==>
      && ids[i] !in drop
      && ((exists j :: i < j < |ids| && ids[j] !in empties)
          || forall j :: 0 <= j < i && ids[j] !in drop ==> exists k :: j <= k <= i && ids[k] !in empties))
  {
    if ids[i] !in drop {
      var p := PositionOf(ids, kept, pos, i);
      EmbedsKeepsNoDup(kept, ids, pos);
      InPrefix(kept, n, p);
      if p < n {
        if p < n - 1 {
          var q := if kept[n - 1] !in empties then n - 1 else n - 2;
          assert kept[q] !in empties;
          if q > p {
            assert pos[p] < pos[q] && ids[pos[q]] !in empties;
          }
        }
        if !exists j :: i < j < |ids| && ids[j] !in empties {
          PrefixIsFirst(ids, empties, drop, kept, pos, n, i, p);
        }
      } else {
        SuffixIsNot(ids, empties, drop, kept, pos, n, i, p);
      }
    }
  }

  lemma InPrefix(kept: seq<WorkspaceId>, n: nat, p: nat)
    requires NoDup(kept) && n <= |kept| && p < |kept|
    ensures kept[p] in kept[..n] <==> p < n
  {
    if p < n {
      assert kept[..n][p] == kept[p];
    }
  }

  lemma PositionOf(ids: seq<WorkspaceId>, kept: seq<WorkspaceId>, pos: seq<nat>, i: nat) returns (p: nat)
    requires NoDup(ids) && Embeds(kept, ids, pos) && i < |ids| && ids[i] in kept
    ensures p < |kept| && kept[p] == ids[i] && pos[p] == i
  {
    p :| 0 <= p < |kept| && kept[p] == ids[i];
  }

  /** Before the cut: an inhabited one follows, or none that is empty stays before. */
  lemma PrefixIsFirst(ids: seq<WorkspaceId>, empties: set<WorkspaceId>, drop: set<WorkspaceId>, kept: seq<WorkspaceId>,
                      pos: seq<nat>, n: nat, i: nat, p: nat)
    requires NoDup(ids) && Embeds(kept, ids, pos) && CutsAt(kept, empties, n) && i < |ids|
    requires forall w :: w in kept <==> w in ids && w !in drop
    requires p < n && kept[p] == ids[i] && pos[p] == i
    requires !exists j :: i < j < |ids| && ids[j] !in empties
    ensures forall j :: 0 <= j < i && ids[j] !in drop ==> exists k :: j <= k <= i && ids[k] !in empties
  {
    forall j: nat | j < i && ids[j] !in drop
      ensures exists k :: j <= k <= i && ids[k] !in empties
    {
      var q := PositionOf(ids, kept, pos, j);
      assert q < p by {
        if p < q {
          assert false;
        }
      }
      NothingAfter(ids, empties, kept, pos, n, i, p);
      if kept[p] !in empties {
        assert ids[i] !in empties;
      } else {
        assert p == n - 1 && kept[n - 2] !in empties;
        assert pos[n - 2] < pos[p] && (q < n - 2 ==> pos[q] < pos[n - 2]);
        assert ids[pos[n - 2]] !in empties;
      }
    }
  }

  lemma NothingAfter(ids: seq<WorkspaceId>, empties: set<WorkspaceId>, kept: seq<WorkspaceId>, pos: seq<nat>, n: nat, i: nat, p: nat)
    requires Embeds(kept, ids, pos) && i < |ids| && n <= |kept| && p < n && pos[p] == i
    requires !exists j :: i < j < |ids| && ids[j] !in empties
    ensures forall q :: p < q < |kept| ==> kept[q] in empties
  {
    forall q | p < q < |kept|
      ensures kept[q] in empties
    {
      assert pos[p] < pos[q] && ids[pos[q]] == kept[q];
    }
  }

  /** Behind the cut: no inhabited one follows, and an empty one stays right before the cut. */
  lemma SuffixIsNot(ids: seq<WorkspaceId>, empties: set<WorkspaceId>, drop: set<WorkspaceId>, kept: seq<WorkspaceId>,
                    pos: seq<nat>, n: nat, i: nat, p: nat)
    requires NoDup(ids) && Embeds(kept, ids, pos) && CutsAt(kept, empties, n) && i < |ids|
    requires forall w :: w in kept <==> w in ids && w !in drop
    requires forall w :: w in drop ==> w in empties
    requires n <= p < |kept| && kept[p] == ids[i] && pos[p] == i
    ensures forall j :: i < j < |ids| ==> ids[j] in empties
    ensures exists j :: 0 <= j < i && ids[j] !in drop && forall k :: j <= k <= i ==> ids[k] in empties
  {
    forall j: nat | pos[n - 1] <= j < |ids|
      ensures ids[j] in empties
    {
      if ids[j] !in drop {
        var q := PositionOf(ids, kept, pos, j);
        if q < n - 1 {
          assert false;
        }
      }
    }
    assert pos[n - 1] < pos[p];
    assert ids[pos[n - 1]] == kept[n - 1] && kept[n - 1] in kept;
  }

  /** Collapsing filters, trimming cuts, and at most a fresh workspace is added. */
  lemma ReorderedIs(s: State, ids: seq<WorkspaceId>, active: WorkspaceId, m: MonitorId, region: Rect)
    returns (drop: set<WorkspaceId>, empties: set<WorkspaceId>, kept: seq<WorkspaceId>, pos: seq<nat>, n: nat)
    requires ids != [] && NoDup(ids) && forall w :: w in ids ==> w in s.workspaces
    ensures forall w :: w in empties <==> w in ids && IsEmpty(s.columns, s.workspaces, w)
    ensures forall w :: w in drop <==> w in ids && IsCollapsible(s.columns, s.workspaces, w, active, ids[|ids| - 1])
    ensures forall w :: w in kept <==> w in ids && w !in drop
    ensures forall w :: w in drop ==> w in empties
    ensures Embeds(kept, ids, pos) && CutsAt(kept, empties, n)
    ensures var r := Reordered(s.columns, Order(s.runtime, ids, s.workspaces), active, m, region);
            r.ids == kept[..n] || r.ids == kept[..n] + [s.runtime.nextWorkspaceId]
  {
    var tail := ids[|ids| - 1];
    drop := Dropped(s.columns, s.workspaces, ids, 0, active, tail);
    assert ids[0..] == ids;
    CollapseFilters(s.columns, s.workspaces, ids, 0, active, tail);
    WithoutMembers(ids, 0, drop);
    pos := WithoutEmbeds(ids, 0, drop);
    kept := Without(ids, 0, drop);
    EmbedsKeepsNoDup(kept, ids, pos);
    LastOfKept(ids, drop, kept, pos);
    empties := Empties(s.columns, s.workspaces, ids);
    var left := s.workspaces - drop;
    forall w | w in kept
      ensures w in empties <==> IsEmpty(s.columns, left, w)
    {
    }
    hide IsEmpty, IsCollapsible, Without, Embeds, Reordered;
    n := TrimCutsEmptySuffix(s.columns, left, kept, empties);
    assert n > 0;
    hide CutsAt, TrimTail, Collapse;
    CutIsReordered(s, ids, active, m, region, kept, left, n);
  }

  lemma CutIsReordered(s: State, ids: seq<WorkspaceId>, active: WorkspaceId, m: MonitorId, region: Rect,
                       kept: seq<WorkspaceId>, left: Workspaces, n: nat)
    requires ids != [] && 0 < n <= |kept|
    requires Collapse(s.columns, s.workspaces, ids, 0, active, ids[|ids| - 1]) == (kept, left)
    requires TrimTail(s.columns, left, kept).0 == kept[..n]
    ensures var r := Reordered(s.columns, Order(s.runtime, ids, s.workspaces), active, m, region);
            r.ids == kept[..n] || r.ids == kept[..n] + [s.runtime.nextWorkspaceId]
  {
    hide Collapse, TrimTail, IsEmpty;
  }

  lemma ReorderedKeeps(s: State, ids: seq<WorkspaceId>, active: WorkspaceId, m: MonitorId, region: Rect, i: nat)
    requires ids != [] && NoDup(ids) && (forall w :: w in ids ==> w in s.workspaces) && i < |ids|
    requires s.runtime.nextWorkspaceId !in s.workspaces
    ensures var r := Reordered(s.columns, Order(s.runtime, ids, s.workspaces), active, m, region);
            ids[i] in r.ids <==> Stays(s, ids, active, i) && (InhabitedAfter(s, ids, i) || FirstOfTail(s, ids, active, i))
  {
    hide Inhabited, Stays, IsCollapsible, IsEmpty, CutsAt, Reordered, InhabitedAfter, FirstOfTail, Embeds;
    var drop, empties, kept, pos, n := ReorderedIs(s, ids, active, m, region);
    CutKeeps(ids, empties, drop, kept, pos, n, i);
    InTermsOfStays(s, ids, active, empties, drop, i);
    assert ids[i] in ids && ids[i] != s.runtime.nextWorkspaceId;
  }

  lemma InTermsOfStays(s: State, ids: seq<WorkspaceId>, active: WorkspaceId, empties: set<WorkspaceId>, drop: set<WorkspaceId>, i: nat)
    requires NoDup(ids) && i < |ids| && (forall w :: w in ids ==> w in s.workspaces)
    requires forall w :: w in empties <==> w in ids && IsEmpty(s.columns, s.workspaces, w)
    requires forall w :: w in drop <==> w in ids && IsCollapsible(s.columns, s.workspaces, w, active, ids[|ids| - 1])
    ensures ids[i] !in drop <==> Stays(s, ids, active, i)
    ensures (exists j :: i < j < |ids| && ids[j] !in empties) <==> InhabitedAfter(s, ids, i)
    ensures (forall j :: 0 <= j < i && ids[j] !in drop ==> exists k :: j <= k <= i && ids[k] !in empties) <==> FirstOfTail(s, ids, active, i)
  {
    forall j: nat | j < |ids|
      ensures ids[j] !in drop <==> Stays(s, ids, active, j)
      ensures ids[j] !in empties <==> Inhabited(s, ids, j)
    {
      hide IsEmpty;
    }
    hide Stays, Inhabited;
    forall j: nat | j < i
      ensures (exists k :: j <= k <= i && ids[k] !in empties) <==> InhabitedBetween(s, ids, j, i)
    {
    }
    hide InhabitedBetween;
  }

  /**
   * A workspace of a set survives normalisation exactly when it is inhabited, active, named or last, and it is either
   * followed by an inhabited one or the first of the empty ones at the end.
   */
  lemma SurvivesExactly(s: State, t: WorkspaceSetId, i: nat)
    requires WellFormed(s) && t in s.workspaceSets && i < |s.workspaceSets[t].orderedWorkspaceIds|
    ensures t in Normalize(s, t).workspaceSets
    ensures var ids, active := s.workspaceSets[t].orderedWorkspaceIds, s.workspaceSets[t].activeWorkspaceId;
            ids[i] in Normalize(s, t).workspaceSets[t].orderedWorkspaceIds <==>
            Stays(s, ids, active, i) && (InhabitedAfter(s, ids, i) || FirstOfTail(s, ids, active, i))
  {
    var set0 := s.workspaceSets[t];
    assert SetOk(s.monitors, s.workspaces, t, set0);
    assert s.runtime.nextWorkspaceId !in s.workspaces;
    hide WellFormed, Stays, InhabitedAfter, FirstOfTail, Reordered, Stamp, LastNonEmpty;
    ReorderedKeeps(s, set0.orderedWorkspaceIds, set0.activeWorkspaceId, set0.monitorId, RegionOf(s, set0.monitorId), i);
  }

  // ---- what is written into them -----------------------------------------------------------------

  /** Each workspace of a normalised set records its monitor, its position, the region of the monitor and whether it is the empty tail. */
  lemma NormalizeWritesRecords(s: State, t: WorkspaceSetId, k: nat)
    requires WellFormed(s) && t in s.workspaceSets
    ensures t in Normalize(s, t).workspaceSets
    ensures var s1 := Normalize(s, t);
            var ids, m := s1.workspaceSets[t].orderedWorkspaceIds, s.workspaceSets[t].monitorId;
            k < |ids| ==>
              && ids[k] in s1.workspaces && m in s.monitors
              && var workspace := s1.workspaces[ids[k]];
              && workspace.monitorId == m && workspace.verticalIndex == k
              && workspace.strip.visibleRegion == s.monitors[m].workArea
              && workspace.floatingLayer.workspaceId == ids[k]
              && (workspace.isEmptyTail <==> k == |ids| - 1)
  {
    assert SetOk(s.monitors, s.workspaces, t, s.workspaceSets[t]);
    NormalizeEstablishesNormalForm(s, t);
    NormalizeKeepsInvariants(s, t);
    NormalizeKeepsSet(s, t);
    hide Normalize, Topo, Members, SetIsNormal, Stamped;
    StampedMeans(Normalize(s, t), t, k);
  }

  lemma StampedMeans(s: State, t: WorkspaceSetId, k: nat)
    requires t in s.workspaceSets && Stamped(s, t) && SetIsNormal(s, t)
    ensures var ids, m := s.workspaceSets[t].orderedWorkspaceIds, s.workspaceSets[t].monitorId;
            k < |ids| ==>
              && ids[k] in s.workspaces
              && var workspace := s.workspaces[ids[k]];
              && workspace.monitorId == m && workspace.verticalIndex == k
              && workspace.strip.visibleRegion == (if m in s.monitors then s.monitors[m].workArea else Rect(0, 0, 0, 0))
              && workspace.floatingLayer.workspaceId == ids[k]
              && (workspace.isEmptyTail <==> k == |ids| - 1)
  {
  }

  lemma NormalizeKeepsSet(s: State, t: WorkspaceSetId)
    requires t in s.workspaceSets
    ensures t in Normalize(s, t).workspaceSets && Normalize(s, t).workspaceSets[t].monitorId == s.workspaceSets[t].monitorId
  {
    hide Reordered, Stamp, LastNonEmpty;
  }

  /**
   * A new monitor comes with one workspace set holding one empty, active workspace; it gets the focus if no monitor has
   * it; everything that was there stays.
   */
  lemma MonitorArrival(s: State, workArea: Rect, isPrimary: bool)
    requires Inv(s)
    ensures var f := AddMonitor(s, workArea, isPrimary);
            var m, t, w := s.runtime.nextMonitorId, s.runtime.nextWorkspaceSetId, s.runtime.nextWorkspaceId;
            f == s.(runtime := s.runtime.(nextMonitorId := m + 1, nextWorkspaceSetId := t + 1, nextWorkspaceId := w + 1),
                    monitors := s.monitors[m := Monitor(m, Some("monitor-" + Decimal(m)), workArea, t, isPrimary)],
                    workspaceSets := s.workspaceSets[t := WorkspaceSet(t, m, [w], w, None)],
                    workspaces := s.workspaces[w := Workspace(w, m, 0, None, None, ScrollingStrip([], 0, workArea),
                                                              FloatingLayer(w, [], map[]), None, true)],
                    focus := s.focus.(activeByMonitor := s.focus.activeByMonitor[m := w],
                                      monitorId := if s.focus.monitorId.None? then Some(m) else s.focus.monitorId))
  {
    WithMonitorKeeps(s, workArea, isPrimary);
    var s1, t, m := WithMonitor(s, workArea, isPrimary), s.runtime.nextWorkspaceSetId, s.runtime.nextMonitorId;
    assert SetOk(s1.monitors, s1.workspaces, t, s1.workspaceSets[t]);
    assert MonitorOk(s1.workspaceSets, s1.focus.activeByMonitor, m, s1.monitors[m]);
    hide Topo, Members, Normalize;
    NormalFormIsFixed(s1, t);
  }

  /** The tail a normalisation adds is a fresh workspace: no window, no name, nothing remembered, not scrolled. */
  lemma FreshTailIsBlank(s: State, t: WorkspaceSetId)
    requires WellFormed(s) && t in s.workspaceSets
    ensures var s1, tail := Normalize(s, t), s.runtime.nextWorkspaceId;
            tail in s1.workspaces ==>
              && t in s1.workspaceSets && s.workspaceSets[t].monitorId in s.monitors
              && var ids, m := s1.workspaceSets[t].orderedWorkspaceIds, s.workspaceSets[t].monitorId;
              && ids != [] && ids[|ids| - 1] == tail && s1.runtime.nextWorkspaceId == tail + 1
              && s1.workspaces[tail] == Workspace(tail, m, |ids| - 1, None, None, ScrollingStrip([], 0, s.monitors[m].workArea),
                                                   FloatingLayer(tail, [], map[]), None, true)
  {
    assert SetOk(s.monitors, s.workspaces, t, s.workspaceSets[t]);
    assert s.runtime.nextWorkspaceId !in s.workspaces;
    var survivors, removed, grown, pos := NormalizeParts(s, t);
    hide WellFormed, Normalize, Stamp, LastNonEmpty, Survive, KeepsFew, Embeds;
    RegrownIds(s, t, survivors, removed, grown);
    BlankIsStamped(s, t, survivors, removed, grown);
  }

  lemma BlankIsStamped(s: State, t: WorkspaceSetId, survivors: seq<WorkspaceId>, removed: set<WorkspaceId>, grown: bool)
    requires t in s.workspaceSets && survivors != []
    requires SetOk(s.monitors, s.workspaces, t, s.workspaceSets[t]) && s.runtime.nextWorkspaceId !in s.workspaces
    requires var r := Regrown(s, t, survivors, removed, grown); NoDup(r.ids) && forall w :: w in r.ids ==> w in r.workspaces
    ensures var set0, tail, r := s.workspaceSets[t], s.runtime.nextWorkspaceId, Regrown(s, t, survivors, removed, grown);
            var stamped := Stamp(s.columns, r.workspaces, r.ids, 0, set0.monitorId, RegionOf(s, set0.monitorId));
            && (tail in stamped <==> grown)
            && (grown ==>
                  && r.ids[|r.ids| - 1] == tail && r.runtime.nextWorkspaceId == tail + 1
                  && stamped[tail] == Workspace(tail, set0.monitorId, |r.ids| - 1, None, None, ScrollingStrip([], 0, s.monitors[set0.monitorId].workArea),
                                                 FloatingLayer(tail, [], map[]), None, true))
  {
    var set0, r := s.workspaceSets[t], Regrown(s, t, survivors, removed, grown);
    StampsEachPosition(s.columns, r.workspaces, r.ids, 0, set0.monitorId, RegionOf(s, set0.monitorId));
    hide Stamp;
    assert r.ids[0..] == r.ids;
  }
}
