// What destroying a window does, exactly.
module DestroyProofs {
  import opened Wrappers
  import opened MachineInt
  import opened Domain
  import opened Layout
  import opened Model
  import opened Invariants
  import opened LayoutSoundness
  import opened Normalization
  import opened Events
  import opened Reducer
  import opened StepInvariants
  import opened RemovalProofs
  import opened RunInvariants

  /** Another managed window shares the workspace of x. */
  ghost predicate HasNeighbour(s: State, x: WindowId)
    requires x in s.windows
  {
    exists y :: y in s.windows && y != x && s.windows[y].isManaged && s.windows[y].workspaceId == s.windows[x].workspaceId
  }

  /** The workspace set of x is in normal form and has no named workspaces. */
  ghost predicate SettledHome(s: State, x: WindowId, t: WorkspaceSetId) {
    && Inv(s) && x in s.windows && s.windows[x].isManaged
    && s.windows[x].workspaceId in s.workspaces
    && s.workspaces[s.windows[x].workspaceId].monitorId in s.monitors
    && t == s.monitors[s.workspaces[s.windows[x].workspaceId].monitorId].workspaceSetId
    && t in s.workspaceSets && SetIsNormal(s, t)
    && forall w :: w in s.workspaceSets[t].orderedWorkspaceIds ==> w in s.workspaces && s.workspaces[w].name.None?
  }

  ghost predicate Refocuses(s: State, s1: State, s2: State, x: WindowId)
    requires x in s.windows && s.windows[x].workspaceId in s.workspaces
  {
    var w := s.windows[x].workspaceId;
    && Removed(s, s1, x) && WellFormed(s1)
    && OnlyRetargeted(s1, s2)
    && s2.focus.activeByMonitor == s.focus.activeByMonitor
    && (s.focus.windowId == Some(x) ==> (s2.focus.windowId.None? <==> IsBare(s1.workspaces[w])))
  }

  lemma StillActive(s: State, x: WindowId)
    requires FocusOk(s) && s.focus.windowId == Some(x) && s.windows[x].isManaged
    ensures var w := s.windows[x].workspaceId;
            s.focus.activeByMonitor[s.workspaces[w].monitorId := w] == s.focus.activeByMonitor
  {
  }

  lemma RetargetedFrame(s: State, s1: State, x: WindowId)
    requires Inv(s) && x in s.windows && s.windows[x].isManaged && s.windows[x].workspaceId in s.workspaces
    requires Removed(s, s1, x) && WellFormed(s1) && s.focus.windowId == Some(x)
    ensures Refocuses(s, s1, RetargetFocus(s1, s.windows[x].workspaceId, s.windows[x].columnId).state, x)
  {
    var w := s.windows[x].workspaceId;
    if s.windows[x].columnId.Some? && s.windows[x].columnId.value in s1.columns {
      PreferredStaysInStrip(s, s1, x, w, s.windows[x].columnId.value);
    }
    RetargetEstablishes(s1, w, s.windows[x].columnId);
    StillActive(s, x);
  }

  lemma RefocusedFrame(s: State, x: WindowId)
    requires Inv(s) && x in s.windows && s.windows[x].isManaged && s.windows[x].workspaceId in s.workspaces
    ensures RemoveWindow(s, x).result.Ok?
    ensures Refocuses(s, RemoveWindow(s, x).state, Refocused(s, x).state, x)
    ensures Inv(Refocused(s, x).state)
  {
    RemoveWindowKeeps(s, x);
    RefocusedKeeps(s, x);
    var s1 := RemoveWindow(s, x).state;
    if s.focus.windowId == Some(x) {
      RetargetedFrame(s, s1, x);
    }
  }

  lemma BareAfterRemoval(s: State, s1: State, x: WindowId)
    requires x in s.windows && s.windows[x].workspaceId in s.workspaces && Removed(s, s1, x) && WellFormed(s1)
    ensures IsBare(s1.workspaces[s.windows[x].workspaceId]) <==> !HasNeighbour(s, x)
  {
    BareMeansUninhabited(s1, s.windows[x].workspaceId);
    if HasNeighbour(s, x) {
      var y :| y in s.windows && y != x && s.windows[y].isManaged && s.windows[y].workspaceId == s.windows[x].workspaceId;
      assert y in s1.windows;
    }
  }

  /** Whether the workspace is still there after normalisation: it is inhabited or active. */
  lemma HomeSurvives(s: State, s2: State, x: WindowId, t: WorkspaceSetId)
    requires SettledHome(s, x, t) && WellFormed(s2)
    requires s2.workspaces.Keys == s.workspaces.Keys && s2.workspaceSets.Keys == s.workspaceSets.Keys
    requires s2.workspaceSets[t].orderedWorkspaceIds == s.workspaceSets[t].orderedWorkspaceIds
    requires forall w :: w in s.workspaces ==> s2.workspaces[w].name == s.workspaces[w].name
    requires s2.monitors == s.monitors && s2.focus.activeByMonitor == s.focus.activeByMonitor
    ensures var w := s.windows[x].workspaceId;
            w in Normalize(s2, t).workspaces <==> !IsBare(s2.workspaces[w]) || s.focus.activeByMonitor[s.workspaces[w].monitorId] == w
  {
    var w := s.windows[x].workspaceId;
    var m := s.workspaces[w].monitorId;
    assert HomeOk(s.monitors, s.workspaceSets, w, s.workspaces[w]);
    assert MonitorOk(s2.workspaceSets, s2.focus.activeByMonitor, m, s2.monitors[m]);
    assert SetOk(s2.monitors, s2.workspaces, t, s2.workspaceSets[t]);
    TailIsElsewhere(s, x, t);
    EmptyMeansBare(s2, w);
    var survivors, grown, _ := NormalizeShape(s2, t);
  }

  /** The workspace of a managed window is not the empty tail. */
  lemma TailIsElsewhere(s: State, x: WindowId, t: WorkspaceSetId)
    requires SettledHome(s, x, t)
    ensures var ids := s.workspaceSets[t].orderedWorkspaceIds; ids[|ids| - 1] != s.windows[x].workspaceId
  {
    var w := s.windows[x].workspaceId;
    EmptyMeansBare(s, w);
    BareMeansUninhabited(s, w);
  }

  /** The scroll offset of w lies between zero and the maximum. */
  predicate InRange(s: State, w: WorkspaceId) {
    w in s.workspaces && MaxScrollOffset(s, w).Ok? && 0 <= s.workspaces[w].strip.scrollOffset <= MaxScrollOffset(s, w).value
  }

  lemma ClampSucceeds(s: State, w: WorkspaceId)
    requires WellFormed(s)
    ensures OnlyScrolled(s, ClampScrollOffset(s, w).state, w)
    ensures ClampScrollOffset(s, w).result == if w in s.workspaces then Ok(()) else Err(UnknownWorkspace(w))
    ensures w in s.workspaces ==> InRange(ClampScrollOffset(s, w).state, w)
  {
    if w in s.workspaces {
      StripIsGood(s, w);
    }
  }

  lemma RefocusSucceeds(s: State, x: WindowId)
    requires Inv(s) && x in s.windows && s.windows[x].isManaged && s.windows[x].workspaceId in s.workspaces
    ensures Refocused(s, x).result.Ok?
  {
    RefocusedFrame(s, x);
    var s1 := RemoveWindow(s, x).state;
    var w := s.windows[x].workspaceId;
    if s.focus.windowId == Some(x) {
      if s.windows[x].columnId.Some? && s.windows[x].columnId.value in s1.columns {
        PreferredStaysInStrip(s, s1, x, w, s.windows[x].columnId.value);
      }
      NextFocusWorks(s1, w, s.windows[x].columnId);
      if NextFocus(s1, s1.workspaces[w], s.windows[x].columnId).Some? {
        var target := NextFocus(s1, s1.workspaces[w], s.windows[x].columnId).value;
        SetFocusEstablishes(s1, s1.workspaces[w].monitorId, w, target.0, target.1, ReducerDefault);
        RevealSucceeds(SetFocus(s1, s1.workspaces[w].monitorId, w, target.0, target.1, ReducerDefault), w, target.1);
      }
    }
  }

  /** On a well-formed state a reveal never fails. */
  lemma RevealSucceeds(s: State, w: WorkspaceId, column: Option<ColumnId>)
    requires WellFormed(s) && w in s.workspaces
    ensures RevealIfTiled(s, w, column).result.Ok?
  {
    LayoutSucceeds(s, w);
    StripIsGood(s, w);
  }

  lemma HomeAfter(s: State, x: WindowId, t: WorkspaceSetId)
    requires SettledHome(s, x, t)
    ensures var w := s.windows[x].workspaceId;
            var s2 := Refocused(s, x).state;
            && Inv(s2)
            && (w in EnsureTail(s2, s.workspaces[w].monitorId).workspaces
                <==> HasNeighbour(s, x) || s.focus.activeByMonitor[s.workspaces[w].monitorId] == w)
  {
    hide Refocused, RemoveWindow, WellFormed, HasNeighbour, Normalize;
    RefocusedFrame(s, x);
    var s1 := RemoveWindow(s, x).state;
    var s2 := Refocused(s, x).state;
    var w := s.windows[x].workspaceId;
    BareAfterRemoval(s, s1, x);
    assert SamePlaces(s1.workspaces[w], s2.workspaces[w]);
    forall w' | w' in s.workspaces ensures s2.workspaces[w'].name == s.workspaces[w'].name {
      assert SamePlaces(s1.workspaces[w'], s2.workspaces[w']);
    }
    HomeSurvives(s, s2, x, t);
  }

  /** The handler's outcome, before the transition is committed. */
  lemma HandlerOutcome(s: State, x: WindowId, t: WorkspaceSetId)
    requires SettledHome(s, x, t)
    ensures var w := s.windows[x].workspaceId;
            var handled := HandleWindowDestroyed(s, x);
            && (handled.result.Ok? <==> HasNeighbour(s, x) || s.focus.activeByMonitor[s.workspaces[w].monitorId] == w)
            && (handled.result == if w in EnsureTail(Refocused(s, x).state, s.workspaces[w].monitorId).workspaces
                                  then Ok(Some(w)) else Err(UnknownWorkspace(w)))
            && (handled.result.Ok? ==> InRange(handled.state, w))
            && x !in handled.state.windows && handled.state.runtime.stateVersion == s.runtime.stateVersion
  {
    hide HandleWindowDestroyed, ClampScrollOffset, EnsureTail, Refocused, MaxScrollOffset, RemoveWindow, WellFormed, HasNeighbour;
    var w := s.windows[x].workspaceId;
    var m := s.workspaces[w].monitorId;
    HomeAfter(s, x, t);
    RefocusedFrame(s, x);
    RefocusSucceeds(s, x);
    DestroyedParts(s, x);
    var s2 := Refocused(s, x).state;
    EnsureTailFrame(s2, m);
    ClampSucceeds(EnsureTail(s2, m), w);
  }

  /**
   * Destroying a managed window of a normalised, unnamed workspace set succeeds exactly when its workspace keeps
   * another managed window or is the active one. On failure the window is gone all the same, the invariants hold
   * and the state version has not moved; on success the version has, and the workspace's offset is in range.
   */
  lemma DestroyOutcome(s: State, x: WindowId, t: WorkspaceSetId)
    requires SettledHome(s, x, t)
    ensures var w := s.windows[x].workspaceId;
            var step := Dispatch(s, WindowDestroyed(x));
            && (step.result.Ok? <==> HasNeighbour(s, x) || s.focus.activeByMonitor[s.workspaces[w].monitorId] == w)
            && Inv(step.state) && x !in step.state.windows
            && (step.result.Err? ==> step.result.error == UnknownWorkspace(w) && step.state.runtime.stateVersion == s.runtime.stateVersion)
            && (step.result.Ok? ==> step.state.runtime.stateVersion == s.runtime.stateVersion + 1
                                    && step.result.value.affectedWorkspaceId == Some(w) && InRange(step.state, w))
  {
    hide Dispatch, HandleWindowDestroyed, Commit, EnsureTail, Refocused, MaxScrollOffset, WellFormed, HasNeighbour;
    HandlerOutcome(s, x, t);
    DestroyedKeeps(s, x);
    CommitSucceeds(HandleWindowDestroyed(s, x).state, s.windows[x].workspaceId);
    DispatchDestroyed(s, x);
  }

  lemma EnsureTailFrame(s: State, m: MonitorId)
    requires Inv(s)
    ensures Inv(EnsureTail(s, m))
    ensures EnsureTail(s, m).windows == s.windows && EnsureTail(s, m).runtime.stateVersion == s.runtime.stateVersion
    ensures EnsureTail(s, m).focus.windowId == s.focus.windowId
  {
    hide WellFormed, Recompute;
    EnsureTailKeeps(s, m);
    if m in s.monitors {
      NormalizeKeepsInvariants(s, s.monitors[m].workspaceSetId);
    }
  }

  lemma DispatchDestroyed(s: State, x: WindowId)
    ensures var handled := HandleWindowDestroyed(s, x);
            Dispatch(s, WindowDestroyed(x)) == if handled.result.Err? then Fail(handled.state, handled.result.error)
                                               else Commit(handled.state, handled.result.value)
  {
  }

  lemma VersionIsIrrelevant(s: State, w: WorkspaceId)
    requires Inv(s)
    ensures var s1 := s.(runtime := s.runtime.(stateVersion := s.runtime.stateVersion + 1));
            Inv(s1) && WellFormed(s1) && (InRange(s, w) ==> InRange(s1, w))
  {
    hide Topo, Members;
  }

  lemma CommitSucceeds(s: State, w: WorkspaceId)
    requires Inv(s)
    ensures var step := Commit(s, Some(w));
            && step.state == s.(runtime := s.runtime.(stateVersion := s.runtime.stateVersion + 1))
            && (w in s.workspaces ==> step.result.Ok? && step.result.value.affectedWorkspaceId == Some(w))
            && (InRange(s, w) ==> InRange(step.state, w))
            && Inv(step.state)
  {
    hide Inv, InRange, Recompute, WellFormed;
    var s1 := s.(runtime := s.runtime.(stateVersion := s.runtime.stateVersion + 1));
    VersionIsIrrelevant(s, w);
    if w in s.workspaces {
      LayoutSucceeds(s1, w);
    }
  }

  /** After the focused window is destroyed, focus is empty exactly when its workspace has no managed window left. */
  lemma FocusAfterDestroy(s: State, x: WindowId)
    requires Inv(s) && x in s.windows && s.windows[x].isManaged && s.focus.windowId == Some(x)
    ensures HandleWindowDestroyed(s, x).state.focus.windowId.None? <==> !HasNeighbour(s, x)
  {
    var w := s.windows[x].workspaceId;
    ManagedHasPlace(s, x);
    RefocusedFrame(s, x);
    BareAfterRemoval(s, RemoveWindow(s, x).state, x);
    DestroyedParts(s, x);
    var s2 := Refocused(s, x).state;
    EnsureTailFrame(s2, s.workspaces[w].monitorId);
    ScrollersOnlyScroll(EnsureTail(s2, s.workspaces[w].monitorId), w, None, 0);
  }
}
