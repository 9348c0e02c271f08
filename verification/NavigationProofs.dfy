// Moving the focus along the strip and through the tabs of a column.
module NavigationProofs {
  import opened Wrappers
  import opened MachineInt
  import opened Domain
  import opened Layout
  import opened Model
  import opened Invariants
  import opened LayoutSoundness
  import opened Normalization
  import opened Events
  import opened Reducer
  import opened StepInvariants
  import opened RemovalProofs
  import opened RunInvariants
  import opened DestroyProofs

  function StripIds(s: State, w: WorkspaceId): seq<ColumnId>
    requires w in s.workspaces
  {
    s.workspaces[w].strip.orderedColumnIds
  }

  /** The focus is on column i of workspace w, on the window that the column shows. */
  ghost predicate FocusedAt(s: State, w: WorkspaceId, i: nat) {
    && Inv(s) && w in s.workspaces && i < |StripIds(s, w)|
    && s.focus.columnId == Some(StripIds(s, w)[i])
    && StripIds(s, w)[i] in s.columns
    && s.focus.windowId == Representative(s.columns[StripIds(s, w)[i]])
  }

  /** No column shows another window than before. */
  ghost predicate SameRepresentatives(s0: State, s1: State) {
    s1.columns.Keys == s0.columns.Keys &&
    forall c :: c in s0.columns ==> Representative(s1.columns[c]) == Representative(s0.columns[c])
  }

  function Neighbour(i: nat, n: nat, forward: bool): nat
    requires i < n
  {
    if forward then Min(i + 1, n - 1) else Max(i - 1, 0)
  }

  // ---- the strip -------------------------------------------------------------------------------

  lemma TargetsOfStrip(s: State, w: WorkspaceId)
    requires Inv(s) && w in s.workspaces && StripIds(s, w) != []
    ensures NavigationSequence(s, w).Ok?
    ensures var targets := NavigationSequence(s, w).value;
            && |targets| == |StripIds(s, w)|
            && forall j :: 0 <= j < |targets| ==> Some(targets[j]) == ColumnTarget(s, StripIds(s, w)[j]) && IsTarget(s, w, targets[j])
  {
    StripTargetsWork(s, w, StripIds(s, w));
  }

  lemma RepresentativesDiffer(s: State, w: WorkspaceId, i: nat, j: nat)
    requires Inv(s) && w in s.workspaces && i < j < |StripIds(s, w)|
    ensures ColumnTarget(s, StripIds(s, w)[i]).Some? && ColumnTarget(s, StripIds(s, w)[j]).Some?
    ensures ColumnTarget(s, StripIds(s, w)[i]).value.0 != ColumnTarget(s, StripIds(s, w)[j]).value.0
  {
    assert WorkspaceOk(s.windows, s.columns, w, s.workspaces[w]);
    ColumnTargetWorks(s, w, StripIds(s, w)[i]);
    ColumnTargetWorks(s, w, StripIds(s, w)[j]);
  }

  lemma {:induction false} FoundAt<T>(x: T, s: seq<T>, i: nat)
    requires i < |s| && s[i] == x && forall j :: 0 <= j < i ==> s[j] != x
    ensures IndexOf(x, s) == Some(i)
  {
    if i > 0 {
      assert s[0] != x && forall j :: 0 <= j < i - 1 ==> s[1..][j] == s[j + 1];
      FoundAt(x, s[1..], i - 1);
    }
  }

  lemma FocusIsFoundAt(s: State, w: WorkspaceId, i: nat)
    requires FocusedAt(s, w, i)
    ensures s.focus.windowId.Some? && FocusedWindowIn(s, w) == s.focus.windowId
    ensures NavigationSequence(s, w).Ok?
    ensures IndexOf(s.focus.windowId.value, WindowIds(NavigationSequence(s, w).value)) == Some(i)
    ensures CommandWorkspace(s) == Ok(w)
  {
    TargetsOfStrip(s, w);
    var targets := NavigationSequence(s, w).value;
    forall j | 0 <= j < i ensures WindowIds(targets)[j] != WindowIds(targets)[i] {
      RepresentativesDiffer(s, w, j, i);
    }
    FoundAt(s.focus.windowId.value, WindowIds(targets), i);
  }

  lemma FocusKeepsRepresentatives(s: State, w: WorkspaceId, target: (WindowId, Option<ColumnId>), m: MonitorId, origin: FocusOrigin)
    requires target.1.Some? && target.1.value in s.columns && Representative(s.columns[target.1.value]) == Some(target.0)
    ensures SameRepresentatives(s, SetFocus(s, m, w, target.0, target.1, origin))
  {
  }

  lemma RevealKeepsColumns(s: State, w: WorkspaceId, column: Option<ColumnId>)
    ensures RevealIfTiled(s, w, column).state.columns == s.columns
  {
  }

  /** Focusing what a column shows moves the focus there and changes no representative. */
  lemma FocusColumn(s: State, w: WorkspaceId, j: nat)
    requires Inv(s) && w in s.workspaces && j < |StripIds(s, w)|
    ensures ColumnTarget(s, StripIds(s, w)[j]).Some?
    ensures var target := ColumnTarget(s, StripIds(s, w)[j]).value;
            var step := FocusTo(s, w, target.0, target.1);
            && step.result.Ok? && FocusedAt(step.state, w, j) && SameRepresentatives(s, step.state)
            && StripIds(step.state, w) == StripIds(s, w)
  {
    var c := StripIds(s, w)[j];
    ColumnTargetWorks(s, w, c);
    var target := ColumnTarget(s, c).value;
    var m := s.workspaces[w].monitorId;
    FocusToTarget(s, m, w, target, UserCommand);
    FocusKeepsRepresentatives(s, w, target, m, UserCommand);
    SetFocusEstablishes(s, m, w, target.0, target.1, UserCommand);
    var focused := SetFocus(s, m, w, target.0, target.1, UserCommand);
    RevealKeepsColumns(focused, w, target.1);
    RevealSucceeds(focused, w, target.1);
    var s1 := RevealIfTiled(focused, w, target.1).state;
    assert SamePlaces(s.workspaces[w], s1.workspaces[w]);
  }

  lemma NavigateStripParts(s: State, w: WorkspaceId, forward: bool, i: nat)
    requires FocusedAt(s, w, i)
    ensures ColumnTarget(s, StripIds(s, w)[Neighbour(i, |StripIds(s, w)|, forward)]).Some?
    ensures var target := ColumnTarget(s, StripIds(s, w)[Neighbour(i, |StripIds(s, w)|, forward)]).value;
            NavigateStrip(s, w, forward) == FocusTo(s, w, target.0, target.1)
  {
    TargetsOfStrip(s, w);
    FocusIsFoundAt(s, w, i);
    var targets := NavigationSequence(s, w).value;
    assert NextIndex(targets, FocusedWindowIn(s, w), forward) == Neighbour(i, |targets|, forward);
  }

  function FocusEvent(forward: bool, scope: NavigationScope): Event {
    if forward then CmdFocusNext(scope) else CmdFocusPrev(scope)
  }

  lemma CommandParts(s: State, w: WorkspaceId, forward: bool, scope: NavigationScope)
    requires CommandWorkspace(s) == Ok(w)
    ensures var step := Navigate(s, w, forward, scope);
            step.result.Ok? ==> Dispatch(s, FocusEvent(forward, scope)) == Commit(step.state, Some(w))
  {
    hide CommandWorkspace, Navigate, Commit;
  }

  lemma StripScopeNavigates(s: State, w: WorkspaceId, forward: bool)
    ensures Navigate(s, w, forward, WorkspaceStrip) == NavigateStrip(s, w, forward)
  {
  }

  lemma CommitKeepsFocus(s: State, w: WorkspaceId, i: nat)
    requires FocusedAt(s, w, i)
    ensures var step := Commit(s, Some(w));
            && step.result.Ok? && FocusedAt(step.state, w, i)
            && step.state.columns == s.columns && step.state.workspaces == s.workspaces
  {
    CommitSucceeds(s, w);
  }

  /** One step along the strip. */
  lemma StripStep(s: State, w: WorkspaceId, i: nat, forward: bool)
    requires FocusedAt(s, w, i)
    ensures var step := Dispatch(s, FocusEvent(forward, WorkspaceStrip));
            && step.result.Ok?
            && FocusedAt(step.state, w, Neighbour(i, |StripIds(s, w)|, forward))
            && SameRepresentatives(s, step.state)
            && StripIds(step.state, w) == StripIds(s, w)
  {
    hide Dispatch, CommandWorkspace, Navigate, NavigateStrip, FocusTo, Commit;
    var j := Neighbour(i, |StripIds(s, w)|, forward);
    FocusIsFoundAt(s, w, i);
    NavigateStripParts(s, w, forward, i);
    FocusColumn(s, w, j);
    CommandParts(s, w, forward, WorkspaceStrip);
    StripScopeNavigates(s, w, forward);
    var target := ColumnTarget(s, StripIds(s, w)[j]).value;
    CommitKeepsFocus(FocusTo(s, w, target.0, target.1).state, w, j);
  }

  /** k times the same focus command. */
  ghost function Repeat(s: State, forward: bool, scope: NavigationScope, k: nat): State {
    if k == 0 then s else Dispatch(Repeat(s, forward, scope, k - 1), FocusEvent(forward, scope)).state
  }

  /** k times focus-next reaches column min(i + k, last) and changes no representative. */
  lemma {:induction false} FocusNextReaches(s: State, w: WorkspaceId, i: nat, k: nat)
    requires FocusedAt(s, w, i)
    ensures var s1 := Repeat(s, true, WorkspaceStrip, k);
            && FocusedAt(s1, w, Min(i + k, |StripIds(s, w)| - 1))
            && SameRepresentatives(s, s1) && StripIds(s1, w) == StripIds(s, w)
  {
    hide Dispatch, Inv;
    if k > 0 {
      FocusNextReaches(s, w, i, k - 1);
      StripStep(Repeat(s, true, WorkspaceStrip, k - 1), w, Min(i + k - 1, |StripIds(s, w)| - 1), true);
    }
  }

  /** k times focus-prev reaches column max(i - k, 0). */
  lemma {:induction false} FocusPrevReaches(s: State, w: WorkspaceId, i: nat, k: nat)
    requires FocusedAt(s, w, i)
    ensures var s1 := Repeat(s, false, WorkspaceStrip, k);
            && FocusedAt(s1, w, Max(i - k, 0))
            && SameRepresentatives(s, s1) && StripIds(s1, w) == StripIds(s, w)
  {
    hide Dispatch;
    if k > 0 {
      FocusPrevReaches(s, w, i, k - 1);
      StripStep(Repeat(s, false, WorkspaceStrip, k - 1), w, Max(i - (k - 1), 0), false);
    }
  }

  /** Next then prev restores window and column exactly when the focus is not at the end of a longer strip. */
  lemma NextThenPrev(s: State, w: WorkspaceId, i: nat)
    requires FocusedAt(s, w, i)
    ensures var next := Dispatch(s, FocusEvent(true, WorkspaceStrip)).state;
            var back := Dispatch(next, FocusEvent(false, WorkspaceStrip)).state;
            (back.focus.windowId == s.focus.windowId && back.focus.columnId == s.focus.columnId)
            <==> (i < |StripIds(s, w)| - 1 || |StripIds(s, w)| == 1)
  {
    hide Dispatch;
    StripStep(s, w, i, true);
    var next := Dispatch(s, FocusEvent(true, WorkspaceStrip)).state;
    var j := Neighbour(i, |StripIds(s, w)|, true);
    StripStep(next, w, j, false);
    assert WorkspaceOk(s.windows, s.columns, w, s.workspaces[w]);
    assert StripIds(s, w)[i] in s.columns;
  }

  // ---- tabs ------------------------------------------------------------------------------------

  /** The focused column c of workspace w is tabbed, has several tabs and selects tab i. */
  ghost predicate TabAt(s: State, w: WorkspaceId, c: ColumnId, i: nat) {
    && Inv(s) && w in s.workspaces && c in StripIds(s, w)
    && s.focus.columnId == Some(c)
    && CyclesTabs(s, c)
    && i < |s.columns[c].orderedWindowIds|
    && s.columns[c].tabSelection == Some(s.columns[c].orderedWindowIds[i])
  }

  lemma TabIsFoundAt(s: State, w: WorkspaceId, c: ColumnId, i: nat)
    requires TabAt(s, w, c, i)
    ensures CurrentTab(s, w, s.columns[c]) == i
    ensures FocusedColumnIn(s, w) == Some(c)
    ensures CommandWorkspace(s) == Ok(w)
  {
    assert ColumnOk(s.windows, s.workspaces, c, s.columns[c]);
    FoundAt(s.columns[c].orderedWindowIds[i], s.columns[c].orderedWindowIds, i);
    var x := s.focus.windowId.value;
    assert WindowOk(s.columns, s.workspaces, x, s.windows[x]);
    assert TiledIn(s.windows, s.workspaces, c, x);
    assert WorkspaceOk(s.windows, s.columns, w, s.workspaces[w]) && StripColumnOk(s.windows, s.columns, w, c);
  }

  /** The column after one step through its tabs. */
  ghost predicate StepsTab(s: State, s1: State, c: ColumnId, j: nat)
    requires c in s.columns && j < |s.columns[c].orderedWindowIds|
  {
    var x := s.columns[c].orderedWindowIds[j];
    && s1.columns == s.columns[c := s.columns[c].(tabSelection := Some(x), activeWindowId := Some(x))]
    && s1.focus.windowId == Some(x) && s1.focus.columnId == Some(c)
  }

  lemma CycleTabSteps(s: State, w: WorkspaceId, c: ColumnId, i: nat, forward: bool)
    requires TabAt(s, w, c, i)
    ensures var j := StepTab(|s.columns[c].orderedWindowIds|, i, forward);
            var step := CycleTab(s, w, c, forward);
            && step.result.Ok? && TabAt(step.state, w, c, j) && StepsTab(s, step.state, c, j)
  {
    hide FocusTo, Topo, FocusShown;
    TabIsFoundAt(s, w, c, i);
    CycleTabKeeps(s, w, c, forward);
    var column := s.columns[c];
    var j := StepTab(|column.orderedWindowIds|, i, forward);
    var x := column.orderedWindowIds[j];
    assert ColumnOk(s.windows, s.workspaces, c, column);
    assert x in column.orderedWindowIds && TiledIn(s.windows, s.workspaces, c, x);
    assert WorkspaceOk(s.windows, s.columns, w, s.workspaces[w]) && StripColumnOk(s.windows, s.columns, w, c);
    var selected := column.(tabSelection := Some(x));
    ReplacedColumn(s, c, selected);
    var s0 := s.(columns := s.columns[c := selected]);
    TabFocused(s0, w, c, x);
    assert StripIds(FocusTo(s0, w, x, Some(c)).state, w) == StripIds(s, w);
  }

  lemma TabFocused(s: State, w: WorkspaceId, c: ColumnId, x: WindowId)
    requires WellFormed(s) && w in s.workspaces && c in s.columns && s.columns[c].mode == Tabbed
    requires x in s.windows && s.windows[x].workspaceId == w && s.windows[x].columnId == Some(c)
    ensures var step := FocusTo(s, w, x, Some(c));
            && step.result.Ok? && w in step.state.workspaces
            && step.state.columns == s.columns[c := s.columns[c].(tabSelection := Some(x), activeWindowId := Some(x))]
            && step.state.focus.windowId == Some(x) && step.state.focus.columnId == Some(c)
            && StripIds(step.state, w) == StripIds(s, w)
  {
    hide Topo, Members;
    var m := s.workspaces[w].monitorId;
    SetFocusEstablishes(s, m, w, x, Some(c), UserCommand);
    var focused := SetFocus(s, m, w, x, Some(c), UserCommand);
    assert SamePlaces(s.workspaces[w], focused.workspaces[w]);
    RevealSucceeds(focused, w, Some(c));
    ScrollersOnlyScroll(focused, w, Some(c), 0);
  }

  lemma TabScopeCycles(s: State, w: WorkspaceId, c: ColumnId, forward: bool)
    requires FocusedColumnIn(s, w) == Some(c) && CyclesTabs(s, c)
    ensures Navigate(s, w, forward, ColumnTabs) == CycleTab(s, w, c, forward)
  {
  }

  /** One step through the tabs. */
  lemma TabStep(s: State, w: WorkspaceId, c: ColumnId, i: nat, forward: bool)
    requires TabAt(s, w, c, i)
    ensures var j := StepTab(|s.columns[c].orderedWindowIds|, i, forward);
            var step := Dispatch(s, FocusEvent(forward, ColumnTabs));
            && step.result.Ok? && TabAt(step.state, w, c, j) && StepsTab(s, step.state, c, j)
  {
    hide Dispatch, CommandWorkspace, Navigate, CycleTab, Commit;
    TabIsFoundAt(s, w, c, i);
    CycleTabSteps(s, w, c, i, forward);
    CommandParts(s, w, forward, ColumnTabs);
    TabScopeCycles(s, w, c, forward);
    CommitSucceeds(CycleTab(s, w, c, forward).state, w);
  }

  /** Tab-forward and tab-back undo each other: the same tab is selected and focused again. */
  lemma TabStepsAreInverse(s: State, w: WorkspaceId, c: ColumnId, i: nat, forward: bool)
    requires TabAt(s, w, c, i)
    ensures var there := Dispatch(s, FocusEvent(forward, ColumnTabs)).state;
            var back := Dispatch(there, FocusEvent(!forward, ColumnTabs)).state;
            && TabAt(back, w, c, i)
            && back.focus.windowId == Some(s.columns[c].orderedWindowIds[i])
            && c in back.columns && back.columns[c].tabSelection == s.columns[c].tabSelection
            && (forall c' :: c' in s.columns && c' != c ==> c' in back.columns && back.columns[c'] == s.columns[c'])
  {
    hide Dispatch, Inv;
    TabStep(s, w, c, i, forward);
    var there := Dispatch(s, FocusEvent(forward, ColumnTabs)).state;
    var n := |s.columns[c].orderedWindowIds|;
    var j := StepTab(n, i, forward);
    assert StepTab(n, j, !forward) == i;
    TabStep(there, w, c, j, !forward);
    hide StepTab;
    assert c in s.columns && c in there.columns && i < n && j < n;
    hide TabAt, StepsTab;
    StepsTabTwice(s, there, Dispatch(there, FocusEvent(!forward, ColumnTabs)).state, c, i, j);
  }

  lemma StepsTabTwice(s: State, there: State, back: State, c: ColumnId, i: nat, j: nat)
    requires c in s.columns && i < |s.columns[c].orderedWindowIds| && j < |s.columns[c].orderedWindowIds|
    requires s.columns[c].tabSelection == Some(s.columns[c].orderedWindowIds[i])
    requires StepsTab(s, there, c, j) && c in there.columns && i < |there.columns[c].orderedWindowIds| && StepsTab(there, back, c, i)
    ensures back.focus.windowId == Some(s.columns[c].orderedWindowIds[i])
    ensures c in back.columns && back.columns[c].tabSelection == s.columns[c].tabSelection
    ensures forall c' :: c' in s.columns && c' != c ==> c' in back.columns && back.columns[c'] == s.columns[c']
  {
  }

  /** k times tab-forward selects and focuses tab (i + k) mod n. */
  lemma {:induction false} TabForwardReaches(s: State, w: WorkspaceId, c: ColumnId, i: nat, k: nat)
    requires TabAt(s, w, c, i)
    ensures var n := |s.columns[c].orderedWindowIds|;
            var s1 := Repeat(s, true, ColumnTabs, k);
            && TabAt(s1, w, c, (i + k) % n)
            && s1.columns[c].orderedWindowIds == s.columns[c].orderedWindowIds
            && (k > 0 ==> s1.focus.windowId == Some(s.columns[c].orderedWindowIds[(i + k) % n]))
  {
    hide Dispatch, Inv, StepTab;
    var n := |s.columns[c].orderedWindowIds|;
    if k == 0 {
      WrapOnce(i, 0, n);
    } else {
      TabForwardReaches(s, w, c, i, k - 1);
      TabStep(Repeat(s, true, ColumnTabs, k - 1), w, c, (i + k - 1) % n, true);
      NextTab(i, k, n);
    }
  }

  lemma NextTab(i: nat, k: nat, n: nat)
    requires 1 < n && 0 < k
    ensures StepTab(n, (i + k - 1) % n, true) == (i + k) % n
  {
    NextModulo(i + k - 1, n);
  }

  lemma Distributes(n: nat, q: nat)
    ensures n * (q + 1) == n * q + n
  {
  }

  lemma NextModulo(a: nat, n: nat)
    requires 1 < n
    ensures (a % n + 1) % n == (a + 1) % n
  {
    var q, r := a / n, a % n;
    assert a == n * q + r;
    if r + 1 < n {
      ModuloIs(r + 1, n, 0, r + 1);
      ModuloIs(a + 1, n, q, r + 1);
    } else {
      Distributes(n, q);
      ModuloIs(r + 1, n, 1, 0);
      ModuloIs(a + 1, n, q + 1, 0);
    }
  }

  lemma ModuloIs(a: nat, n: nat, q: nat, r: nat)
    requires 0 < n && r < n && a == n * q + r
    ensures a % n == r
  {
    QuotientIs(n, q, r, a / n, a % n);
  }

  lemma QuotientIs(n: nat, q: nat, r: nat, q': nat, r': nat)
    requires r < n && r' < n && n * q + r == n * q' + r'
    ensures r == r'
  {
    assert n * (q + 1) == n * q + n;
    assert n * (q' + 1) == n * q' + n;
    if q < q' {
      MulGrows(n, q + 1, q');
    } else if q' < q {
      MulGrows(n, q' + 1, q);
    }
  }

  lemma MulGrows(a: nat, b: nat, c: nat)
    requires b <= c
    ensures a * b <= a * c
  {
    assert a * c - a * b == a * (c - b);
  }

  /** In a full round of n steps every tab is reached exactly once, and the round ends where it began. */
  lemma TabRoundVisitsEach(s: State, w: WorkspaceId, c: ColumnId, i: nat, tab: nat) returns (k: nat)
    requires TabAt(s, w, c, i) && tab < |s.columns[c].orderedWindowIds|
    ensures var n := |s.columns[c].orderedWindowIds|;
            && k < n
            && (forall k' :: 0 <= k' < n ==> (TabAt(Repeat(s, true, ColumnTabs, k'), w, c, tab) <==> k' == k))
            && TabAt(Repeat(s, true, ColumnTabs, n), w, c, i)
  {
    hide Dispatch, Repeat;
    var n := |s.columns[c].orderedWindowIds|;
    k := if i <= tab then tab - i else tab + n - i;
    forall k' | 0 <= k' < n
      ensures TabAt(Repeat(s, true, ColumnTabs, k'), w, c, tab) <==> k' == k
    {
      ReachesTab(s, w, c, i, tab, k');
    }
    ReachesTab(s, w, c, i, i, n);
  }

  lemma ReachesTab(s: State, w: WorkspaceId, c: ColumnId, i: nat, tab: nat, k: nat)
    requires TabAt(s, w, c, i) && tab < |s.columns[c].orderedWindowIds| && k <= |s.columns[c].orderedWindowIds|
    ensures var n := |s.columns[c].orderedWindowIds|;
            TabAt(Repeat(s, true, ColumnTabs, k), w, c, tab) <==> tab == if i + k < n then i + k else i + k - n
  {
    hide Dispatch, Repeat;
    TabForwardReaches(s, w, c, i, k);
    WrapOnce(i, k, |s.columns[c].orderedWindowIds|);
    var s1 := Repeat(s, true, ColumnTabs, k);
    assert ColumnOk(s1.windows, s1.workspaces, c, s1.columns[c]);
  }

  lemma WrapOnce(i: nat, k: nat, n: nat)
    requires i < n && k <= n
    ensures (i + k) % n == if i + k < n then i + k else i + k - n
  {
    if i + k < n {
      ModuloIs(i + k, n, 0, i + k);
    } else {
      ModuloIs(i + k, n, 1, i + k - n);
    }
  }
}
