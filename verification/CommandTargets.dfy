// Which workspace a command without a target acts on, and that it acts on nothing else.
module CommandTargets {
  import opened Wrappers
  import opened MachineInt
  import opened Domain
  import opened Text
  import opened TextProofs
  import opened Layout
  import opened Model
  import opened Invariants
  import opened Events
  import opened Reducer
  import opened StepInvariants
  import opened RemovalProofs
  import opened RunInvariants
  import opened DestroyProofs
  import opened NavigationProofs
  import opened StripGeometry
  import opened OutcomeProofs
  import LayoutSoundness

  // ---- managed monitors ------------------------------------------------------------------------

  /** The binding of a monitor, blanks at its ends aside, is one of the configured bindings in some case. */
  ghost predicate IsBoundTo(config: ConfigProjection, binding: Option<string>) {
    binding.Some? && Trim(binding.value) != "" &&
    exists i :: 0 <= i < |config.managedMonitorBindings| && SameIgnoringCase(config.managedMonitorBindings[i], Trim(binding.value))
  }

  /** Without configured bindings every monitor is managed. */
  ghost predicate Managed(s: State, m: MonitorId) {
    m in s.monitors && (s.config.managedMonitorBindings == [] || IsBoundTo(s.config, s.monitors[m].platformBinding))
  }

  /** By the left edge, then the top edge, then the id. */
  ghost predicate ComesFirst(s: State, a: MonitorId, b: MonitorId)
    requires a in s.monitors && b in s.monitors
  {
    var ra, rb := s.monitors[a].workArea, s.monitors[b].workArea;
    || ra.x < rb.x
    || (ra.x == rb.x && ra.y < rb.y)
    || (ra.x == rb.x && ra.y == rb.y && a < b)
  }

  /** Of all managed monitors m is the first. */
  ghost predicate IsFirstManaged(s: State, m: MonitorId) {
    Managed(s, m) && forall m' :: m' in s.monitors && m' != m && Managed(s, m') ==> ComesFirst(s, m, m')
  }

  ghost predicate SomeManaged(s: State) {
    s.config.managedMonitorBindings != [] && exists m :: m in s.monitors && Managed(s, m)
  }

  ghost predicate FocusedMonitor(s: State, m: MonitorId) { s.focus.monitorId == Some(m) && m in s.monitors }

  /** Of all workspace sets t has the least id. */
  ghost predicate IsFirstSet(s: State, t: WorkspaceSetId) {
    t in s.workspaceSets && forall t' :: t' in s.workspaceSets ==> t <= t'
  }

  ghost predicate HasFocusedWindow(s: State) {
    s.focus.windowId.Some? && s.focus.windowId.value in s.windows && s.windows[s.focus.windowId.value].isManaged
  }

  /** w is the active workspace of monitor m. */
  ghost predicate IsActiveOn(s: State, m: MonitorId, w: WorkspaceId) {
    m in s.focus.activeByMonitor && s.focus.activeByMonitor[m] == w
  }

  /** The focused monitor decides: it is managed, or none of the configured bindings fits any monitor. */
  ghost predicate FocusDecides(s: State, m: MonitorId) {
    FocusedMonitor(s, m) && (Managed(s, m) || !SomeManaged(s))
  }

  /**
   * The workspace commands act on: that of the focused managed window; else the active one of the focused monitor;
   * else of the first managed monitor; else that of the first workspace set. With bindings configured, a focused
   * monitor that is not managed gives way to a managed one.
   */
  ghost predicate IsCommandTarget(s: State, w: WorkspaceId) {
    if HasFocusedWindow(s) then w == s.windows[s.focus.windowId.value].workspaceId
    else if exists m :: FocusDecides(s, m) then exists m :: FocusDecides(s, m) && IsActiveOn(s, m, w)
    else if SomeManaged(s) then exists m :: IsFirstManaged(s, m) && IsActiveOn(s, m, w)
    else exists t :: IsFirstSet(s, t) && s.workspaceSets[t].activeWorkspaceId == w
  }

  lemma BindingIsManaged(config: ConfigProjection, binding: Option<string>)
    ensures ManagesBinding(config, binding) <==> config.managedMonitorBindings == [] || IsBoundTo(config, binding)
  {
    hide Trim, EqIgnoreAsciiCase, SameIgnoringCase;
    if binding.Some? {
      var bindings, name := config.managedMonitorBindings, Trim(binding.value);
      forall i | 0 <= i < |bindings|
        ensures EqIgnoreAsciiCase(bindings[i], name) <==> SameIgnoringCase(bindings[i], name)
      {
        CaseIsFolded(bindings[i], name);
      }
      if exists b :: b in bindings && EqIgnoreAsciiCase(b, name) {
        var b :| b in bindings && EqIgnoreAsciiCase(b, name);
        var i :| 0 <= i < |bindings| && bindings[i] == b;
      }
    }
  }

  lemma ManagedIs(s: State, m: MonitorId)
    ensures IsManagedMonitor(s, m) <==> Managed(s, m)
  {
    hide ManagesBinding, IsBoundTo;
    if m in s.monitors {
      BindingIsManaged(s.config, s.monitors[m].platformBinding);
    }
  }

  lemma FirstIs(s: State)
    ensures var first := FirstInOrder(s, ManagedMonitors(s));
            && (first.Some? ==> IsFirstManaged(s, first.value))
            && (first.None? <==> forall m :: m in s.monitors ==> !Managed(s, m))
  {
    forall m: MonitorId
      ensures IsManagedMonitor(s, m) <==> Managed(s, m)
    {
      ManagedIs(s, m);
    }
    hide IsManagedMonitor, Managed;
    var first := FirstInOrder(s, ManagedMonitors(s));
    if first.None? {
      forall m | m in s.monitors
        ensures !Managed(s, m)
      {
        assert m !in ManagedMonitors(s);
      }
    } else {
      assert first.value in ManagedMonitors(s);
      forall m | m in s.monitors && m != first.value && Managed(s, m)
        ensures ComesFirst(s, first.value, m)
      {
        assert m in ManagedMonitors(s);
      }
    }
  }

  lemma OnlyFirst(s: State, m: MonitorId, m': MonitorId)
    requires IsFirstManaged(s, m) && IsFirstManaged(s, m')
    ensures m == m'
  {
  }

  lemma ActiveIs(s: State, m: MonitorId)
    requires Topology(s) && m in s.monitors
    ensures ActiveWorkspace(s, m) == Some(s.focus.activeByMonitor[m]) && m in s.focus.activeByMonitor
  {
    assert MonitorOk(s.workspaceSets, s.focus.activeByMonitor, m, s.monitors[m]);
  }

  lemma UnknownHasNone(s: State, m: MonitorId)
    requires Topology(s) && m !in s.monitors
    ensures ActiveWorkspace(s, m).None?
  {
  }

  /** What the model asks first, in terms of the predicates above. */
  lemma MonitorsDecide(s: State)
    requires Topology(s)
    ensures var target := OrElse(ManagedTarget(s), ActiveOf(s, s.focus.monitorId));
            && (forall m :: FocusDecides(s, m) ==> target == ActiveWorkspace(s, m))
            && ((forall m :: !FocusDecides(s, m)) && SomeManaged(s) ==> exists m :: IsFirstManaged(s, m) && target == ActiveWorkspace(s, m))
            && ((forall m :: !FocusDecides(s, m)) && !SomeManaged(s) ==> target.None?)
  {
    FirstIs(s);
    hide Managed, IsFirstManaged, IsManagedMonitor;
    forall m: MonitorId
      ensures m in s.monitors ==> ActiveWorkspace(s, m).Some?
      ensures m !in s.monitors ==> ActiveWorkspace(s, m).None?
      ensures IsManagedMonitor(s, m) <==> Managed(s, m)
    {
      ManagedIs(s, m);
      if m in s.monitors {
        ActiveIs(s, m);
      } else {
        UnknownHasNone(s, m);
      }
    }
    ManagedIsKnown(s);
    if s.focus.monitorId.Some? && s.focus.monitorId.value in s.monitors && !SomeManaged(s) {
      assert FocusDecides(s, s.focus.monitorId.value);
    }
    hide Topo, ActiveWorkspace;
    if (forall m :: !FocusDecides(s, m)) && SomeManaged(s) {
      var first := FirstInOrder(s, ManagedMonitors(s));
      assert first.Some? && IsFirstManaged(s, first.value);
      if s.focus.monitorId.Some? {
        assert !FocusDecides(s, s.focus.monitorId.value);
      }
      assert ManagedTarget(s) == ActiveWorkspace(s, first.value);
    }
  }

  lemma ManagedIsKnown(s: State)
    ensures forall m :: Managed(s, m) ==> m in s.monitors
    ensures forall m :: IsFirstManaged(s, m) ==> Managed(s, m)
  {
  }

  /**
   * While there is a monitor, commands act on exactly the workspace the rules name; without one they fail.
   */
  lemma CommandWorkspaceIs(s: State, w: WorkspaceId)
    requires Inv(s)
    ensures s.monitors != map[] ==> (CommandWorkspace(s) == Ok(w) <==> IsCommandTarget(s, w))
    ensures s.monitors == map[] ==> CommandWorkspace(s) == Err(InvalidEvent("no active workspace is available for command handling"))
  {
    SetsFollowMonitors(s);
    if s.monitors == map[] {
      CommandWorkspaceIsActive(s);
      NothingWithoutMonitors(s);
    } else if !HasFocusedWindow(s) {
      var target := OrElse(ManagedTarget(s), ActiveOf(s, s.focus.monitorId));
      MonitorsDecide(s);
      TargetIsActive(s, w, target);
      SetDecides(s, w);
      hide Inv, ManagedTarget, ActiveOf, AnyTarget, FocusDecides, SomeManaged, IsFirstManaged, IsFirstSet, IsActiveOn, ActiveWorkspace;
    }
  }

  lemma NothingWithoutMonitors(s: State)
    requires Inv(s) && s.monitors == map[] && s.workspaceSets == map[]
    ensures CommandWorkspace(s) == Err(InvalidEvent("no active workspace is available for command handling"))
  {
    CommandWorkspaceIsActive(s);
  }

  lemma TargetIsActive(s: State, w: WorkspaceId, target: Option<WorkspaceId>)
    requires Topology(s)
    ensures forall m :: m in s.monitors && target == ActiveWorkspace(s, m) ==> (target == Some(w) <==> IsActiveOn(s, m, w))
    ensures forall m :: m in s.monitors ==> ActiveWorkspace(s, m).Some?
    ensures forall m :: FocusDecides(s, m) ==> m in s.monitors
    ensures forall m :: IsFirstManaged(s, m) ==> m in s.monitors
    ensures forall m, m' :: FocusDecides(s, m) && FocusDecides(s, m') ==> m == m'
    ensures forall m, m' :: IsFirstManaged(s, m) && IsFirstManaged(s, m') ==> m == m'
  {
    hide Managed, SomeManaged;
    ManagedIsKnown(s);
    forall m | m in s.monitors
      ensures ActiveWorkspace(s, m) == Some(s.focus.activeByMonitor[m]) && m in s.focus.activeByMonitor
    {
      ActiveIs(s, m);
    }
    forall m, m' | IsFirstManaged(s, m) && IsFirstManaged(s, m')
      ensures m == m'
    {
      OnlyFirst(s, m, m');
    }
    hide Topo, IsFirstManaged;
  }

  lemma SetDecides(s: State, w: WorkspaceId)
    requires s.workspaceSets != map[]
    ensures AnyTarget(s) == Ok(w) <==> exists t :: IsFirstSet(s, t) && s.workspaceSets[t].activeWorkspaceId == w
  {
    assert s.workspaceSets.Keys != {};
    var least := LeastKey(s.workspaceSets.Keys);
    assert IsFirstSet(s, least);
    forall t | IsFirstSet(s, t)
      ensures t == least
    {
      assert least <= t && t <= least;
    }
  }

  lemma SetsFollowMonitors(s: State)
    requires Topology(s)
    ensures s.workspaceSets == map[] <==> s.monitors == map[]
  {
    if s.monitors != map[] {
      var m :| m in s.monitors;
      assert MonitorOk(s.workspaceSets, s.focus.activeByMonitor, m, s.monitors[m]);
    }
    if s.workspaceSets != map[] {
      var t :| t in s.workspaceSets;
      assert SetOk(s.monitors, s.workspaces, t, s.workspaceSets[t]);
    }
  }

  // ---- what a dispatched event reports -----------------------------------------------------------

  /** A dispatch that succeeds counts the transition and reports the layout of the final state, if it touched a workspace. */
  lemma DispatchReports(s: State, event: Event)
    ensures var applied, step := ApplyEvent(s, event), Dispatch(s, event);
            step.result.Ok? ==>
              && applied.result.Ok?
              && step.state == applied.state.(runtime := applied.state.runtime.(stateVersion := applied.state.runtime.stateVersion + 1))
              && step.result.value.stateVersion == step.state.runtime.stateVersion
              && step.result.value.affectedWorkspaceId == applied.result.value
              && (match applied.result.value
                  case None => step.result.value.projection == None
                  case Some(w) => step.result.value.projection == Recompute(step.state, w).ToOption() && Recompute(step.state, w).Ok?)
  {
    hide ApplyEvent, Recompute;
  }

  // ---- scrolling by command ------------------------------------------------------------------------

  function ScrollEvent(right: bool, step: u32): Event { if right then CmdScrollStripRight(step) else CmdScrollStripLeft(step) }

  /** The pixels a scroll command asks for: its own, or the configured step when it names none. */
  function Pixels(s: State, step: u32): int { Min(if step > 0 then step else s.config.stripScrollStep, I32_MAX) }

  /** How far the strip of w overflows its viewport. */
  function Overflow(s: State, w: WorkspaceId): int
    requires HasMonitor(s, w)
  {
    Max(Min(ContentWidth(s, w), I32_MAX) - Min(ViewportOf(s, w).width, I32_MAX), 0)
  }

  lemma MaxIsOverflow(s: State, w: WorkspaceId)
    requires WellFormed(s) && w in s.workspaces
    ensures HasMonitor(s, w) && MaxScrollOffset(s, w) == Ok(Overflow(s, w))
  {
    LayoutSoundness.StripIsGood(s, w);
    hide Topo, Members, ContentWidth;
  }

  lemma PixelsAreDelta(s: State, right: bool, step: u32)
    ensures ScrollDelta(s, right, step) == if right then Pixels(s, step) else -Pixels(s, step)
  {
  }

  lemma ScrollIsDispatched(s: State, w: WorkspaceId, right: bool, step: u32)
    requires CommandWorkspace(s) == Ok(w)
    ensures ApplyEvent(s, ScrollEvent(right, step)) == ScrollStripOf(s, Ok(w), right, step)
  {
    hide CommandWorkspace, ScrollStripOf;
  }

  /**
   * A scroll command moves the strip of the command's workspace by its step, or by the configured one, as far as the
   * strip overflows; nothing else changes but the version.
   */
  lemma ScrollCommandActs(s: State, w: WorkspaceId, right: bool, step: u32)
    requires Inv(s) && s.monitors != map[] && IsCommandTarget(s, w)
    ensures HasMonitor(s, w)
    ensures var offset := s.workspaces[w].strip.scrollOffset;
            var aimed := if right then offset + Pixels(s, step) else offset - Pixels(s, step);
            var there := Clamp(aimed, 0, Overflow(s, w));
            var dispatched := Dispatch(s, ScrollEvent(right, step));
            && I32_MIN <= there <= I32_MAX
            && dispatched.state == WithOffset(s, w, there).(runtime := s.runtime.(stateVersion := s.runtime.stateVersion + 1))
            && dispatched.result.Ok? && dispatched.result.value.affectedWorkspaceId == Some(w)
  {
    hide IsCommandTarget;
    CommandWorkspaceIs(s, w);
    CommandWorkspaceIsActive(s);
    MaxIsOverflow(s, w);
    OverflowIsSmall(s, w);
    PixelsAreDelta(s, right, step);
    ScrollMoves(s, w, right, step);
    ScrollIsDispatched(s, w, right, step);
    hide Inv, CommandWorkspace, ScrollStripOf, ScrollDelta, Pixels, Overflow, MaxScrollOffset, Commit, ApplyEvent;
    var offset := s.workspaces[w].strip.scrollOffset;
    var aimed := if right then offset + Pixels(s, step) else offset - Pixels(s, step);
    var there := Clamp(aimed, 0, Overflow(s, w));
    ScrolledKeeps(s, w, there);
    CommitSucceeds(WithOffset(s, w, there), w);
  }

  lemma OverflowIsSmall(s: State, w: WorkspaceId)
    requires HasMonitor(s, w)
    ensures 0 <= Overflow(s, w) <= I32_MAX
  {
    hide ContentWidth;
  }

  lemma ScrolledKeeps(s: State, w: WorkspaceId, offset: i32)
    requires Inv(s) && w in s.workspaces
    ensures Inv(WithOffset(s, w, offset)) && w in WithOffset(s, w, offset).workspaces
  {
    hide Topo, Members;
    ScrollKeepsInvariants(s, WithOffset(s, w, offset), w);
  }
}
