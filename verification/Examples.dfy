// Concrete states on which the window manager does what one would not expect of it.
module Examples {
  import opened Wrappers
  import opened MachineInt
  import opened Domain
  import opened Layout
  import opened Model
  import opened Events
  import opened Invariants
  import opened Reducer
  import opened RunInvariants
  import opened DestroyProofs
  import opened StripGeometry
  import opened ScrollProofs
  import opened NormalizationExact

  const AREA := Rect(0, 0, 1000, 600)

  /** Workspace 2 of 3 holds one window in one column; it is active and focused, or else the empty workspace 1 is active. */
  function Desks(onDesk: bool, mode: ColumnMode, width: WidthSemantics): State {
    var active := if onDesk then 2 else 1;
    State(
      Runtime(7, 2, 2, 4, 2, 2),
      map[1 := Monitor(1, None, AREA, 1, true)],
      map[1 := WorkspaceSet(1, 1, [1, 2, 3], active, Some(2))],
      map[1 := EmptyWorkspace(1, 1, 0, AREA).(isEmptyTail := false),
          2 := EmptyWorkspace(2, 1, 1, AREA).(isEmptyTail := false, strip := ScrollingStrip([1], 0, AREA)),
          3 := EmptyWorkspace(3, 1, 2, AREA)],
      map[1 := WindowNode(1, Tiled, 2, Some(1), true, false, false, None, AREA, Size(400, 300))],
      FocusState(Some(1), map[1 := active], if onDesk then Some(1) else None, if onDesk then Some(1) else None, UserCommand),
      map[1 := NewColumn(1, mode, width, [1])],
      DEFAULT_CONFIG)
  }

  lemma DesksTopology(onDesk: bool, mode: ColumnMode, width: WidthSemantics)
    ensures Topology(Desks(onDesk, mode, width)) && Fresh(Desks(onDesk, mode, width))
  {
  }

  lemma DesksMembership(onDesk: bool, mode: ColumnMode, width: WidthSemantics)
    ensures Membership(Desks(onDesk, mode, width))
  {
    var s := Desks(onDesk, mode, width);
    assert StripColumnOk(s.windows, s.columns, 2, 1);
    assert TiledIn(s.windows, s.workspaces, 1, 1);
    assert ColumnOk(s.windows, s.workspaces, 1, s.columns[1]);
    assert WindowOk(s.columns, s.workspaces, 1, s.windows[1]);
  }

  lemma DesksAreConsistent(onDesk: bool, mode: ColumnMode, width: WidthSemantics)
    ensures Inv(Desks(onDesk, mode, width)) && FocusShown(Desks(onDesk, mode, width))
  {
    DesksTopology(onDesk, mode, width);
    DesksMembership(onDesk, mode, width);
    hide Topology, Membership, Fresh;
  }

  /** Destroying the only window of an inactive workspace: the window is gone, and the event fails all the same. */
  lemma DestroyFailsExample()
    ensures var s := Desks(false, Normal, DEFAULT_WIDTH);
            && SettledHome(s, 1, 1)
            && Dispatch(s, WindowDestroyed(1)).result == Err(UnknownWorkspace(2))
            && 1 !in Dispatch(s, WindowDestroyed(1)).state.windows
  {
    var s := Desks(false, Normal, DEFAULT_WIDTH);
    DesksAreConsistent(false, Normal, DEFAULT_WIDTH);
    hide Inv, Dispatch;
    assert IsEmpty(s.columns, s.workspaces, 1) && IsEmpty(s.columns, s.workspaces, 3);
    assert 1 in s.workspaces[2].strip.orderedColumnIds && s.columns[1].orderedWindowIds != [];
    assert SetIsNormal(s, 1);
    DestroyOutcome(s, 1, 1);
  }

  /** A tab appended behind the focus of a tabbed column: the focused window is no longer the one on screen. */
  lemma HiddenFocusExample()
    ensures var s := Desks(true, Tabbed, DEFAULT_WIDTH);
            var d := Discovery(1, Size(400, 300), AREA, AppendToFocusedColumn, PreserveCurrentFocus, Tiled, true);
            && Inv(s) && FocusShown(s)
            && !FocusShown(After(s, Dispatched(WindowDiscovered(d))))
  {
    var s := Desks(true, Tabbed, DEFAULT_WIDTH);
    var d := Discovery(1, Size(400, 300), AREA, AppendToFocusedColumn, PreserveCurrentFocus, Tiled, true);
    DesksAreConsistent(true, Tabbed, DEFAULT_WIDTH);
    assert HidesFocus(s, d);
    hide Inv, After, HidesFocus;
    AfterKeeps(s, Dispatched(WindowDiscovered(d)));
  }

  /** A column wider than the viewport: the first reveal goes to its right edge, the second back to its left edge. */
  lemma SwingingRevealExample()
    ensures var s := Desks(true, Normal, Fixed(2000));
            && Located(s, 2, 1, 0)
            && Reveal(s, 2, 1).state == WithOffset(s, 2, 1032)
            && Reveal(WithOffset(s, 2, 1032), 2, 1).state == s
  {
    var s := Desks(true, Normal, Fixed(2000));
    DesksAreConsistent(true, Normal, Fixed(2000));
    WideDeskFits();
    WideDeskSwings();
    assert s.workspaces[2].strip.(scrollOffset := 0) == s.workspaces[2].strip;
    assert WithOffset(WithOffset(s, 2, 1032), 2, 0) == s;
    hide Topology, Membership, Reveal, RevealedOffsetOf, Fits, StripOf;
    RevealIsClosedForm(s, 2, 1, 0);
    assert Located(WithOffset(s, 2, 1032), 2, 1, 0) by { SecondOffset(s, 2, 1, 0); }
    RevealIsClosedForm(WithOffset(s, 2, 1032), 2, 1, 0);
  }

  lemma WideDeskSwings()
    ensures var s := Desks(true, Normal, Fixed(2000));
            HasMonitor(s, 2) && RevealedOffsetOf(s, 2, 0) == 1032 && RevealedOffsetOf(WithOffset(s, 2, 1032), 2, 0) == 0
  {
    WideDeskFits();
    var s := Desks(true, Normal, Fixed(2000));
    var s1 := WithOffset(s, 2, 1032);
    assert StripOf(s1, 2).ids == [1] && StripOf(s1, 2).Width(0) == 2000;
    assert StripOf(s, 2).Offset(0, 12) == 0 && StripOf(s1, 2).Offset(0, 12) == 0;
    assert ContentWidth(s, 2) == 2000 && ContentWidth(s1, 2) == 2000;
    assert ViewportOf(s1, 2) == ViewportOf(s, 2);
  }

  lemma WideDeskFits()
    ensures var s := Desks(true, Normal, Fixed(2000));
            && HasMonitor(s, 2) && Fits(s, 2)
            && StripOf(s, 2).ids == [1] && StripOf(s, 2).Width(0) == 2000 && ViewportOf(s, 2).width == 968
  {
    var s := Desks(true, Normal, Fixed(2000));
    assert ViewportOf(s, 2) == Rect(16, 16, 968, 568);
    var strip := StripOf(s, 2);
    assert strip.ids == [1] && strip.Width(0) == 2000;
    assert strip.Offset(0, 12) == 0;
    assert ContentWidth(s, 2) == 2000;
  }

  /** Three empty workspaces: 1 has a name, 2 is active, 3 is the tail. */
  function NamedDesks(): State {
    State(
      Runtime(7, 2, 2, 4, 1, 1),
      map[1 := Monitor(1, None, AREA, 1, true)],
      map[1 := WorkspaceSet(1, 1, [1, 2, 3], 2, None)],
      map[1 := EmptyWorkspace(1, 1, 0, AREA).(isEmptyTail := false, name := Some("mail")),
          2 := EmptyWorkspace(2, 1, 1, AREA).(isEmptyTail := false),
          3 := EmptyWorkspace(3, 1, 2, AREA)],
      map[],
      FocusState(Some(1), map[1 := 2], None, None, UserCommand),
      map[],
      DEFAULT_CONFIG)
  }

  lemma NamedDesksTopology()
    ensures Topology(NamedDesks())
  {
  }

  lemma NamedDesksAreConsistent()
    ensures Inv(NamedDesks())
  {
    NamedDesksTopology();
    hide Topology;
  }

  /** Normalising removes the active workspace, because an empty one with a name comes before it. */
  lemma ActiveIsTrimmedExample()
    ensures var s := NamedDesks();
            && Inv(s) && 1 in Normalize(s, 1).workspaceSets
            && s.workspaceSets[1].activeWorkspaceId == 2
            && 2 !in Normalize(s, 1).workspaceSets[1].orderedWorkspaceIds
  {
    var s := NamedDesks();
    NamedDesksAreConsistent();
    var ids := s.workspaceSets[1].orderedWorkspaceIds;
    assert ids == [1, 2, 3] && IsEmpty(s.columns, s.workspaces, 1) && IsEmpty(s.columns, s.workspaces, 2) && IsEmpty(s.columns, s.workspaces, 3);
    assert Stays(s, ids, 2, 0) && !InhabitedBetween(s, ids, 0, 1);
    hide Inv, Normalize;
    SurvivesExactly(s, 1, 1);
  }
}
