// A window leaving: links, focus and the workspace it leaves behind.
module RemovalProofs {
  import opened Wrappers
  import opened MachineInt
  import opened Domain
  import opened Layout
  import opened Model
  import opened Invariants
  import opened Normalization
  import opened Events
  import opened Reducer
  import opened StepInvariants

  lemma {:induction false} RemoveKeepsNoDup<T(!new)>(s: seq<T>, x: T)
    requires NoDup(s)
    ensures NoDup(Remove(s, x))
  {
    if s != [] {
      assert NoDup(s[1..]);
      RemoveKeepsNoDup(s[1..], x);
      assert s[0] !in s[1..];
    }
  }

  /** A column without x does not notice that x is gone. */
  lemma OtherColumnStays(windows: Windows, columns: Columns, workspaces: Workspaces, x: WindowId, c: ColumnId)
    requires Members(windows, columns, workspaces) && x in windows && c in columns && windows[x].columnId != Some(c)
    ensures ColumnOk(windows - {x}, workspaces, c, columns[c])
  {
    assert ColumnOk(windows, workspaces, c, columns[c]);
    forall y | y in columns[c].orderedWindowIds ensures TiledIn(windows - {x}, workspaces, c, y) {
      assert TiledIn(windows, workspaces, c, y);
    }
  }

  lemma DetachedColumnStays(windows: Windows, columns: Columns, workspaces: Workspaces, x: WindowId, c: ColumnId)
    requires Members(windows, columns, workspaces) && x in windows && c in columns
    requires Detached(columns[c], x).orderedWindowIds != []
    ensures ColumnOk(windows - {x}, workspaces, c, Detached(columns[c], x))
  {
    assert ColumnOk(windows, workspaces, c, columns[c]);
    RemoveKeepsNoDup(columns[c].orderedWindowIds, x);
    forall y | y in Detached(columns[c], x).orderedWindowIds ensures TiledIn(windows - {x}, workspaces, c, y) {
      assert TiledIn(windows, workspaces, c, y);
    }
  }

  lemma LeavesColumn(windows: Windows, columns: Columns, workspaces: Workspaces, x: WindowId, c: ColumnId)
    requires Members(windows, columns, workspaces) && x in windows && windows[x].columnId == Some(c) && c in columns
    requires Detached(columns[c], x).orderedWindowIds != []
    ensures Members(windows - {x}, columns[c := Detached(columns[c], x)], workspaces)
  {
    var windows1, columns1 := windows - {x}, columns[c := Detached(columns[c], x)];
    assert WindowOk(columns, workspaces, x, windows[x]);
    forall w | w in workspaces ensures WorkspaceOk(windows1, columns1, w, workspaces[w]) {
      assert WorkspaceOk(windows, columns, w, workspaces[w]);
      forall c' | c' in workspaces[w].strip.orderedColumnIds ensures StripColumnOk(windows1, columns1, w, c') {
        assert StripColumnOk(windows, columns, w, c');
        assert ColumnOk(windows, workspaces, c', columns[c']);
        forall y | y in columns1[c'].orderedWindowIds ensures y in windows1 {
          assert TiledIn(windows, workspaces, c', y);
        }
      }
      forall y | y in workspaces[w].floatingLayer.orderedWindowIds ensures FloatsIn(windows1, w, y) {
        assert FloatsIn(windows, w, y);
      }
    }
    forall c' | c' in columns1 ensures ColumnOk(windows1, workspaces, c', columns1[c']) {
      if c' == c {
        DetachedColumnStays(windows, columns, workspaces, x, c);
      } else {
        OtherColumnStays(windows, columns, workspaces, x, c');
      }
    }
    forall y | y in windows1 ensures WindowOk(columns1, workspaces, y, windows1[y]) {
      assert WindowOk(columns, workspaces, y, windows[y]);
    }
  }

  lemma LeavesLastColumn(windows: Windows, columns: Columns, workspaces: Workspaces, x: WindowId, c: ColumnId, w: WorkspaceId)
    requires Members(windows, columns, workspaces) && x in windows && windows[x].columnId == Some(c) && c in columns
    requires Detached(columns[c], x).orderedWindowIds == []
    requires w == windows[x].workspaceId && w in workspaces
    ensures Members(windows - {x}, columns - {c}, workspaces[w := WithoutColumn(workspaces[w], c)])
  {
    var windows1, columns1, workspaces1 := windows - {x}, columns - {c}, workspaces[w := WithoutColumn(workspaces[w], c)];
    assert WindowOk(columns, workspaces, x, windows[x]) && ColumnOk(windows, workspaces, c, columns[c]);
    assert forall y :: y in columns[c].orderedWindowIds ==> y == x by {
      assert forall y :: y in columns[c].orderedWindowIds && y != x ==> y in Remove(columns[c].orderedWindowIds, x);
    }
    forall w' | w' in workspaces1 ensures WorkspaceOk(windows1, columns1, w', workspaces1[w']) {
      assert WorkspaceOk(windows, columns, w', workspaces[w']);
      RemoveKeepsNoDup(workspaces[w'].strip.orderedColumnIds, c);
      forall c' | c' in workspaces1[w'].strip.orderedColumnIds ensures StripColumnOk(windows1, columns1, w', c') {
        assert StripColumnOk(windows, columns, w', c');
        assert ColumnOk(windows, workspaces, c', columns[c']);
        forall y | y in columns[c'].orderedWindowIds ensures y in windows1 {
          assert TiledIn(windows, workspaces, c', y);
        }
      }
      forall y | y in workspaces1[w'].floatingLayer.orderedWindowIds ensures FloatsIn(windows1, w', y) {
        assert FloatsIn(windows, w', y);
      }
    }
    forall c' | c' in columns1 ensures ColumnOk(windows1, workspaces1, c', columns1[c']) {
      OtherColumnStays(windows, columns, workspaces, x, c');
      forall y | y in columns[c'].orderedWindowIds ensures TiledIn(windows1, workspaces1, c', y) {
        assert TiledIn(windows1, workspaces, c', y);
      }
    }
    forall y | y in windows1 ensures WindowOk(columns1, workspaces1, y, windows1[y]) {
      assert WindowOk(columns, workspaces, y, windows[y]);
      assert y in columns[c].orderedWindowIds ==> y == x;
    }
  }

  lemma LeavesFloating(windows: Windows, columns: Columns, workspaces: Workspaces, x: WindowId, w: WorkspaceId)
    requires Members(windows, columns, workspaces) && x in windows && windows[x].columnId == None
    requires w == windows[x].workspaceId && w in workspaces
    ensures Members(windows - {x}, columns, workspaces[w := WithoutFloating(workspaces[w], x)])
  {
    var windows1, workspaces1 := windows - {x}, workspaces[w := WithoutFloating(workspaces[w], x)];
    forall w' | w' in workspaces1 ensures WorkspaceOk(windows1, columns, w', workspaces1[w']) {
      assert WorkspaceOk(windows, columns, w', workspaces[w']);
      RemoveKeepsNoDup(workspaces[w'].floatingLayer.orderedWindowIds, x);
      forall c | c in workspaces[w'].strip.orderedColumnIds ensures StripColumnOk(windows1, columns, w', c) {
        assert StripColumnOk(windows, columns, w', c) && ColumnOk(windows, workspaces, c, columns[c]);
        forall y | y in columns[c].orderedWindowIds ensures y in windows1 {
          assert TiledIn(windows, workspaces, c, y);
        }
      }
      forall y | y in workspaces1[w'].floatingLayer.orderedWindowIds ensures FloatsIn(windows1, w', y) {
        assert FloatsIn(windows, w', y);
      }
    }
    forall c | c in columns ensures ColumnOk(windows1, workspaces1, c, columns[c]) {
      OtherColumnStays(windows, columns, workspaces, x, c);
      forall y | y in columns[c].orderedWindowIds ensures TiledIn(windows1, workspaces1, c, y) {
        assert TiledIn(windows1, workspaces, c, y);
      }
    }
    forall y | y in windows1 ensures WindowOk(columns, workspaces1, y, windows1[y]) {
      assert WindowOk(columns, workspaces, y, windows[y]);
    }
  }

  /** What RemoveWindow leaves. */
  ghost predicate Removed(s: State, s1: State, x: WindowId)
    requires x in s.windows && s.windows[x].workspaceId in s.workspaces
  {
    var w := s.windows[x].workspaceId;
    && s1.windows == s.windows - {x}
    && s1 == s.(windows := s1.windows, columns := s1.columns, workspaces := s1.workspaces)
    && s1.workspaces.Keys == s.workspaces.Keys
    && (forall w' :: w' in s.workspaces && w' != w ==> s1.workspaces[w'] == s.workspaces[w'])
    && s1.workspaces[w].id == s.workspaces[w].id
    && s1.workspaces[w].monitorId == s.workspaces[w].monitorId
    && s1.workspaces[w].name == s.workspaces[w].name
    && (forall c :: c in s1.columns ==> c in s.columns && s1.columns[c] == if s.windows[x].columnId == Some(c) then Detached(s.columns[c], x) else s.columns[c])
  }

  lemma DetachKeepsLinks(s: State, x: WindowId)
    requires Membership(s) && x in s.windows && s.windows[x].workspaceId in s.workspaces
    ensures DetachWindow(s, x).result.Ok?
    ensures var s1 := DetachWindow(s, x).state;
            Members(s.windows - {x}, s1.columns, s1.workspaces) && Removed(s, s1.(windows := s.windows - {x}), x)
    ensures forall w :: w in s.workspaces ==> SameMemory(s.workspaces[w], DetachWindow(s, x).state.workspaces[w])
  {
    var w := s.windows[x].workspaceId;
    assert WindowOk(s.columns, s.workspaces, x, s.windows[x]);
    if s.windows[x].columnId.Some? {
      var c := s.windows[x].columnId.value;
      if Detached(s.columns[c], x).orderedWindowIds != [] {
        LeavesColumn(s.windows, s.columns, s.workspaces, x, c);
      } else {
        LeavesLastColumn(s.windows, s.columns, s.workspaces, x, c, w);
      }
    } else {
      LeavesFloating(s.windows, s.columns, s.workspaces, x, w);
    }
  }

  /** Detaching does not touch what a workspace remembers. */
  ghost predicate SameMemory(w0: Workspace, w1: Workspace) {
    w1.rememberedWindowId == w0.rememberedWindowId && w1.rememberedColumnId == w0.rememberedColumnId
  }

  lemma DetachedIsWellFormed(s: State, x: WindowId)
    requires WellFormed(s) && x in s.windows && s.windows[x].workspaceId in s.workspaces
    ensures DetachWindow(s, x).result.Ok? && DetachWindow(s, x).state.windows == s.windows
    ensures var s2 := DetachWindow(s, x).state.(windows := s.windows - {x}); WellFormed(s2) && Removed(s, s2, x)
  {
    DetachKeepsLinks(s, x);
    EditedTopo(s, DetachWindow(s, x).state.(windows := s.windows - {x}), s.windows[x].workspaceId);
  }

  lemma ForgettingKeepsRemoved(s: State, s2: State, x: WindowId)
    requires x in s.windows && s.windows[x].workspaceId in s.workspaces && Removed(s, s2, x)
    ensures var w := s.windows[x].workspaceId;
            Removed(s, WithWorkspace(s2, w, Forgotten(s2.workspaces[w], x, s.windows[x].columnId)), x)
  {
  }

  lemma RemoveWindowKeeps(s: State, x: WindowId)
    requires WellFormed(s) && x in s.windows && s.windows[x].workspaceId in s.workspaces
    ensures RemoveWindow(s, x).result.Ok?
    ensures var s1 := RemoveWindow(s, x).state; WellFormed(s1) && Removed(s, s1, x)
  {
    DetachedIsWellFormed(s, x);
    var w := s.windows[x].workspaceId;
    var s2 := DetachWindow(s, x).state.(windows := s.windows - {x});
    ForgettingKeepsRemoved(s, s2, x);
    hide DetachWindow, WellFormed;
    ReplacedWorkspace(s2, w, Forgotten(s2.workspaces[w], x, s.windows[x].columnId));
  }

  lemma EditedTopo(s: State, s1: State, w: WorkspaceId)
    requires Topology(s) && w in s.workspaces && s1.workspaces.Keys == s.workspaces.Keys
    requires s1.monitors == s.monitors && s1.workspaceSets == s.workspaceSets && s1.focus == s.focus
    requires forall w' :: w' in s.workspaces && w' != w ==> s1.workspaces[w'] == s.workspaces[w']
    requires s1.workspaces[w].id == s.workspaces[w].id && s1.workspaces[w].monitorId == s.workspaces[w].monitorId
    ensures Topology(s1)
  {
    forall t | t in s.workspaceSets ensures SetOk(s.monitors, s1.workspaces, t, s.workspaceSets[t]) {
      assert SetOk(s.monitors, s.workspaces, t, s.workspaceSets[t]);
    }
    forall w' | w' in s1.workspaces ensures HomeOk(s.monitors, s.workspaceSets, w', s1.workspaces[w']) {
      assert HomeOk(s.monitors, s.workspaceSets, w', s.workspaces[w']);
    }
  }

  /** Focus elsewhere stays correct, and stays on what its column shows. */
  lemma RemovalKeepsOtherFocus(s: State, s1: State, x: WindowId)
    requires WellFormed(s) && FocusOk(s) && x in s.windows && s.windows[x].workspaceId in s.workspaces
    requires Removed(s, s1, x) && s.focus.windowId != Some(x)
    ensures FocusOk(s1)
    ensures FocusShown(s) ==> FocusShown(s1)
  {
    if s.focus.columnId.Some? && s.focus.columnId.value in s.columns {
      var c := s.focus.columnId.value;
      assert ColumnOk(s.windows, s.workspaces, c, s.columns[c]);
    }
  }

  // ---- where the focus goes --------------------------------------------------------------------

  /** A window with the column that navigation reports for it. */
  ghost predicate IsTarget(s: State, w: WorkspaceId, target: (WindowId, Option<ColumnId>)) {
    target.0 in s.windows && s.windows[target.0].isManaged && s.windows[target.0].workspaceId == w && s.windows[target.0].columnId == target.1
  }

  lemma ColumnTargetWorks(s: State, w: WorkspaceId, c: ColumnId)
    requires Membership(s) && w in s.workspaces && c in s.workspaces[w].strip.orderedColumnIds
    ensures ColumnTarget(s, c).Some? && IsTarget(s, w, ColumnTarget(s, c).value)
    ensures ColumnTarget(s, c).value.0 in s.columns[c].orderedWindowIds
  {
    assert WorkspaceOk(s.windows, s.columns, w, s.workspaces[w]) && StripColumnOk(s.windows, s.columns, w, c);
    assert ColumnOk(s.windows, s.workspaces, c, s.columns[c]);
    assert TiledIn(s.windows, s.workspaces, c, ColumnTarget(s, c).value.0);
  }

  lemma {:induction false} FirstColumnTargetWorks(s: State, w: WorkspaceId, ids: seq<ColumnId>, skip: Option<ColumnId>)
    requires Membership(s) && w in s.workspaces
    requires forall c :: c in ids ==> c in s.workspaces[w].strip.orderedColumnIds
    ensures var target := FirstColumnTarget(s, ids, skip);
            && (target.Some? ==> IsTarget(s, w, target.value))
            && (target.None? <==> forall c :: c in ids ==> Some(c) == skip)
  {
    if ids != [] {
      ColumnTargetWorks(s, w, ids[0]);
      assert ids[0] in ids && (forall c :: c in ids[1..] ==> c in ids);
      FirstColumnTargetWorks(s, w, ids[1..], skip);
      assert ids == [ids[0]] + ids[1..];
    }
  }

  /** The next focus is a managed window of the workspace, and there is none exactly when it is bare. */
  lemma NextFocusWorks(s: State, w: WorkspaceId, preferred: Option<ColumnId>)
    requires Membership(s) && w in s.workspaces
    requires preferred.Some? && preferred.value in s.columns ==> preferred.value in s.workspaces[w].strip.orderedColumnIds
    ensures var target := NextFocus(s, s.workspaces[w], preferred);
            && (target.Some? ==> IsTarget(s, w, target.value))
            && (target.None? <==> IsBare(s.workspaces[w]))
  {
    FirstColumnTargetWorks(s, w, s.workspaces[w].strip.orderedColumnIds, preferred);
    assert WorkspaceOk(s.windows, s.columns, w, s.workspaces[w]);
    if preferred.Some? && preferred.value in s.columns {
      ColumnTargetWorks(s, w, preferred.value);
    }
    var ids := s.workspaces[w].strip.orderedColumnIds;
    if ids != [] {
      assert ids[0] in ids && StripColumnOk(s.windows, s.columns, w, ids[0]);
    }
    var floating := s.workspaces[w].floatingLayer.orderedWindowIds;
    if floating != [] {
      assert floating[0] in floating && FloatsIn(s.windows, w, floating[0]);
    }
  }

  lemma FocusToTarget(s: State, m: MonitorId, w: WorkspaceId, target: (WindowId, Option<ColumnId>), origin: FocusOrigin)
    requires WellFormed(s) && w in s.workspaces && s.workspaces[w].monitorId == m
    requires target.0 in s.windows && s.windows[target.0].workspaceId == w && s.windows[target.0].columnId == target.1
    ensures var s1 := RevealIfTiled(SetFocus(s, m, w, target.0, target.1, origin), w, target.1).state;
            && Inv(s1) && FocusShown(s1)
            && OnlyFocused(s, s1, target.0, target.1)
  {
    SetFocusEstablishes(s, m, w, target.0, target.1, origin);
    RevealKeepsFocused(s, SetFocus(s, m, w, target.0, target.1, origin), w, target);
  }

  lemma RevealKeepsFocused(s: State, s1: State, w: WorkspaceId, target: (WindowId, Option<ColumnId>))
    requires Inv(s1) && FocusShown(s1) && OnlyFocused(s, s1, target.0, target.1)
    ensures var s2 := RevealIfTiled(s1, w, target.1).state;
            && Inv(s2) && FocusShown(s2)
            && OnlyFocused(s, s2, target.0, target.1)
  {
    ScrollersOnlyScroll(s1, w, target.1, 0);
    ScrollKeepsInvariants(s1, RevealIfTiled(s1, w, target.1).state, w);
  }

  lemma ManagedHasPlace(s: State, y: WindowId)
    requires Membership(s) && y in s.windows && s.windows[y].isManaged
    ensures s.windows[y].workspaceId in s.workspaces && !IsBare(s.workspaces[s.windows[y].workspaceId])
  {
    assert WindowOk(s.columns, s.workspaces, y, s.windows[y]);
    if s.windows[y].columnId.Some? {
      assert ColumnOk(s.windows, s.workspaces, s.windows[y].columnId.value, s.columns[s.windows[y].columnId.value]);
      assert TiledIn(s.windows, s.workspaces, s.windows[y].columnId.value, y);
    }
  }

  /** A bare workspace is one without managed windows. */
  lemma BareMeansUninhabited(s: State, w: WorkspaceId)
    requires Membership(s) && w in s.workspaces
    ensures IsBare(s.workspaces[w]) <==> !exists y :: y in s.windows && s.windows[y].isManaged && s.windows[y].workspaceId == w
  {
    assert WorkspaceOk(s.windows, s.columns, w, s.workspaces[w]);
    var ids := s.workspaces[w].strip.orderedColumnIds;
    var floating := s.workspaces[w].floatingLayer.orderedWindowIds;
    if ids != [] {
      ColumnTargetWorks(s, w, ids[0]);
    } else if floating != [] {
      assert floating[0] in floating && FloatsIn(s.windows, w, floating[0]);
    }
    if y :| y in s.windows && s.windows[y].isManaged && s.windows[y].workspaceId == w {
      ManagedHasPlace(s, y);
    }
  }

  /** What retargeting the focus leaves alone when w is already active. */
  ghost predicate OnlyRetargeted(s: State, s1: State) {
    && s1.windows == s.windows && s1.runtime == s.runtime && s1.config == s.config && s1.monitors == s.monitors
    && SameWorkspaces(s.workspaces, s1.workspaces)
    && s1.workspaceSets.Keys == s.workspaceSets.Keys
    && (forall t :: t in s.workspaceSets ==> s1.workspaceSets[t].orderedWorkspaceIds == s.workspaceSets[t].orderedWorkspaceIds)
  }

  lemma RetargetEstablishes(s: State, w: WorkspaceId, preferred: Option<ColumnId>)
    requires WellFormed(s) && w in s.workspaces
    requires preferred.Some? && preferred.value in s.columns ==> preferred.value in s.workspaces[w].strip.orderedColumnIds
    ensures var s1 := RetargetFocus(s, w, preferred).state;
            && RetargetFocus(s, w, preferred).state == s1
            && Inv(s1) && FocusShown(s1)
            && (s1.focus.windowId.None? <==> IsBare(s.workspaces[w]))
            && OnlyRetargeted(s, s1)
            && (s1.focus.activeByMonitor == s.focus.activeByMonitor
                || s1.focus.activeByMonitor == s.focus.activeByMonitor[s.workspaces[w].monitorId := w])
  {
    NextFocusWorks(s, w, preferred);
    match NextFocus(s, s.workspaces[w], preferred) {
      case None =>
      case Some(target) =>
        FocusToTarget(s, s.workspaces[w].monitorId, w, target, ReducerDefault);
    }
  }
}
