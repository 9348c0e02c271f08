// Windows coming and going keep the membership links.
module PlacementProofs {
  import opened Wrappers
  import opened MachineInt
  import opened Domain
  import opened Layout
  import opened Model
  import opened Invariants
  import opened Normalization
  import opened Events
  import opened Reducer
  import opened StepInvariants

  // ---- a window comes --------------------------------------------------------------------------

  /** The maps after a fresh window x arrives: its record, its column or floating entry. */
  lemma UnmanagedArrives(windows: Windows, columns: Columns, workspaces: Workspaces, x: WindowId, node: WindowNode)
    requires Members(windows, columns, workspaces) && x !in windows
    requires node.id == x && !node.isManaged && node.columnId == None
    ensures Members(windows[x := node], columns, workspaces)
  {
    var windows1 := windows[x := node];
    forall w | w in workspaces ensures WorkspaceOk(windows1, columns, w, workspaces[w]) {
      OldWorkspaceStays(windows, columns, workspaces, x, node, w);
    }
    forall c | c in columns ensures ColumnOk(windows1, workspaces, c, columns[c]) {
      OldColumnStays(windows, columns, workspaces, x, node, c);
    }
    forall y | y in windows1 ensures WindowOk(columns, workspaces, y, windows1[y]) {
      assert y != x ==> WindowOk(columns, workspaces, y, windows[y]);
    }
  }

  /** A fresh window disturbs no column. */
  lemma OldColumnStays(windows: Windows, columns: Columns, workspaces: Workspaces, x: WindowId, node: WindowNode, c: ColumnId)
    requires Members(windows, columns, workspaces) && x !in windows && c in columns
    ensures x !in columns[c].orderedWindowIds
    ensures ColumnOk(windows[x := node], workspaces, c, columns[c])
  {
    assert ColumnOk(windows, workspaces, c, columns[c]);
    forall y | y in columns[c].orderedWindowIds
      ensures y != x && TiledIn(windows[x := node], workspaces, c, y)
    {
      assert TiledIn(windows, workspaces, c, y);
    }
  }

  lemma OldWorkspaceStays(windows: Windows, columns: Columns, workspaces: Workspaces, x: WindowId, node: WindowNode, w: WorkspaceId)
    requires Members(windows, columns, workspaces) && x !in windows && w in workspaces
    ensures x !in workspaces[w].floatingLayer.orderedWindowIds
    ensures WorkspaceOk(windows[x := node], columns, w, workspaces[w])
  {
    assert WorkspaceOk(windows, columns, w, workspaces[w]);
    forall c | c in workspaces[w].strip.orderedColumnIds ensures StripColumnOk(windows[x := node], columns, w, c) {
      assert StripColumnOk(windows, columns, w, c);
    }
    forall y | y in workspaces[w].floatingLayer.orderedWindowIds
      ensures y != x && FloatsIn(windows[x := node], w, y)
    {
      assert FloatsIn(windows, w, y);
    }
  }

  lemma FloatingArrives(windows: Windows, columns: Columns, workspaces: Workspaces, x: WindowId, node: WindowNode,
                        w: WorkspaceId, workspace: Workspace)
    requires Members(windows, columns, workspaces) && x !in windows && w in workspaces
    requires node.id == x && node.isManaged && node.columnId == None && node.workspaceId == w
    requires workspace.strip.orderedColumnIds == workspaces[w].strip.orderedColumnIds
    requires workspace.floatingLayer.orderedWindowIds == workspaces[w].floatingLayer.orderedWindowIds + [x]
    ensures Members(windows[x := node], columns, workspaces[w := workspace])
  {
    var windows1, workspaces1 := windows[x := node], workspaces[w := workspace];
    forall w' | w' in workspaces1 ensures WorkspaceOk(windows1, columns, w', workspaces1[w']) {
      OldWorkspaceStays(windows, columns, workspaces, x, node, w');
      if w' == w {
        forall y | y in workspace.floatingLayer.orderedWindowIds ensures FloatsIn(windows1, w, y) {
          assert y != x ==> FloatsIn(windows1, w, y);
        }
        forall c | c in workspace.strip.orderedColumnIds ensures StripColumnOk(windows1, columns, w, c) {
          assert StripColumnOk(windows1, columns, w, c);
        }
      }
    }
    forall c | c in columns ensures ColumnOk(windows1, workspaces1, c, columns[c]) {
      OldColumnStays(windows, columns, workspaces, x, node, c);
      forall y | y in columns[c].orderedWindowIds ensures TiledIn(windows1, workspaces1, c, y) {
        assert TiledIn(windows1, workspaces, c, y);
      }
    }
    forall y | y in windows1 ensures WindowOk(columns, workspaces1, y, windows1[y]) {
      assert y != x ==> WindowOk(columns, workspaces, y, windows[y]);
    }
  }

  lemma AppendArrives(windows: Windows, columns: Columns, workspaces: Workspaces, x: WindowId, node: WindowNode,
                      w: WorkspaceId, c: ColumnId)
    requires Members(windows, columns, workspaces) && x !in windows
    requires w in workspaces && c in workspaces[w].strip.orderedColumnIds && c in columns
    requires node.id == x && node.isManaged && node.columnId == Some(c) && node.workspaceId == w
    ensures Members(windows[x := node], columns[c := Appended(columns[c], x)], workspaces)
  {
    var windows1, columns1 := windows[x := node], columns[c := Appended(columns[c], x)];
    assert WorkspaceOk(windows, columns, w, workspaces[w]) && StripColumnOk(windows, columns, w, c);
    forall w' | w' in workspaces ensures WorkspaceOk(windows1, columns1, w', workspaces[w']) {
      OldWorkspaceStays(windows, columns, workspaces, x, node, w');
      forall c' | c' in workspaces[w'].strip.orderedColumnIds ensures StripColumnOk(windows1, columns1, w', c') {
        assert WorkspaceOk(windows, columns, w', workspaces[w']) && StripColumnOk(windows, columns, w', c');
        if c' == c {
          assert ColumnOk(windows, workspaces, c, columns[c]);
          assert columns[c].orderedWindowIds[0] in columns[c].orderedWindowIds;
        }
      }
    }
    forall c' | c' in columns1 ensures ColumnOk(windows1, workspaces, c', columns1[c']) {
      OldColumnStays(windows, columns, workspaces, x, node, c');
      if c' == c {
        forall y | y in columns1[c].orderedWindowIds ensures TiledIn(windows1, workspaces, c, y) {
          assert y != x ==> TiledIn(windows1, workspaces, c, y);
        }
      }
    }
    forall y | y in windows1 ensures WindowOk(columns1, workspaces, y, windows1[y]) {
      assert y != x ==> WindowOk(columns, workspaces, y, windows[y]);
    }
  }

  lemma InsertedMembers<T>(s: seq<T>, i: nat, x: T)
    requires i <= |s|
    ensures forall y :: y in InsertAt(s, i, x) <==> y in s || y == x
    ensures NoDup(s) && x !in s ==> NoDup(InsertAt(s, i, x))
  {
    var r := InsertAt(s, i, x);
    assert s == s[..i] + s[i..];
    forall y | y in s || y == x ensures y in r {
      assert r[i] == x;
      if y in s {
        var k :| 0 <= k < |s| && s[k] == y;
        assert r[if k < i then k else k + 1] == y;
      }
    }
  }

  lemma NewColumnArrives(windows: Windows, columns: Columns, workspaces: Workspaces, x: WindowId, node: WindowNode,
                         w: WorkspaceId, workspace: Workspace, c: ColumnId, column: Column, i: nat)
    requires Members(windows, columns, workspaces) && x !in windows && c !in columns && w in workspaces
    requires node.id == x && node.isManaged && node.columnId == Some(c) && node.workspaceId == w
    requires column.orderedWindowIds == [x] && column.activeWindowId == Some(x) && column.tabSelection == Some(x)
    requires i <= |workspaces[w].strip.orderedColumnIds|
    requires workspace.strip.orderedColumnIds == InsertAt(workspaces[w].strip.orderedColumnIds, i, c)
    requires workspace.floatingLayer.orderedWindowIds == workspaces[w].floatingLayer.orderedWindowIds
    ensures Members(windows[x := node], columns[c := column], workspaces[w := workspace])
  {
    var windows1, columns1, workspaces1 := windows[x := node], columns[c := column], workspaces[w := workspace];
    InsertedMembers(workspaces[w].strip.orderedColumnIds, i, c);
    forall w' | w' in workspaces1 ensures WorkspaceOk(windows1, columns1, w', workspaces1[w']) {
      OldWorkspaceStays(windows, columns, workspaces, x, node, w');
      forall c' | c' in workspaces[w'].strip.orderedColumnIds
        ensures c' != c && StripColumnOk(windows1, columns1, w', c')
      {
        assert StripColumnOk(windows1, columns, w', c');
      }
      assert w' == w ==> StripColumnOk(windows1, columns1, w, c);
      forall y | y in workspaces1[w'].floatingLayer.orderedWindowIds ensures FloatsIn(windows1, w', y) {
        assert FloatsIn(windows1, w', y);
      }
    }
    forall c' | c' in columns1 ensures ColumnOk(windows1, workspaces1, c', columns1[c']) {
      if c' == c {
        assert TiledIn(windows1, workspaces1, c, x);
      } else {
        OldColumnStays(windows, columns, workspaces, x, node, c');
        forall y | y in columns[c'].orderedWindowIds ensures TiledIn(windows1, workspaces1, c', y) {
          assert TiledIn(windows1, workspaces, c', y);
        }
      }
    }
    forall y | y in windows1 ensures WindowOk(columns1, workspaces1, y, windows1[y]) {
      assert y != x ==> WindowOk(columns, workspaces, y, windows[y]);
    }
  }

  /** The state after a discovery: w keeps its monitor, the window is recorded, focus and topology stay. */
  ghost predicate Discovered(s: State, s1: State, w: WorkspaceId, d: Discovery, column: Option<ColumnId>) {
    var x := s.runtime.nextWindowId;
    && WellFormed(s1)
    && s1.focus == s.focus
    && x !in s.windows
    && s1.windows == s.windows[x := NewWindow(d, x, w, column)]
    && s1.workspaceSets == s.workspaceSets && s1.monitors == s.monitors && s1.config == s.config
    && s1.workspaces.Keys == s.workspaces.Keys
    && forall w' :: w' in s.workspaces ==> s1.workspaces[w'].monitorId == s.workspaces[w'].monitorId
  }

  lemma RecordedWindow(s: State, s1: State, w: WorkspaceId, d: Discovery, x: WindowId, column: Option<ColumnId>)
    requires WellFormed(s) && x == s.runtime.nextWindowId
    requires PlacedWell(s.(runtime := s.runtime.(nextWindowId := x + 1)), s1, w, d, x, column)
    ensures Discovered(s, s1.(windows := s1.windows[x := NewWindow(d, x, w, column)]), w, d, column)
  {
  }

  lemma ActiveExists(s: State, m: MonitorId, w: WorkspaceId)
    requires Topology(s) && m in s.monitors && ActiveWorkspace(s, m) == Some(w)
    ensures w in s.workspaces && s.workspaces[w].monitorId == m
  {
    ActivateActive(s, m, w);
  }

  lemma StillActive(s: State, s1: State, w: WorkspaceId, d: Discovery, column: Option<ColumnId>)
    requires Discovered(s, s1, w, d, column)
    requires d.monitorId in s.monitors && ActiveWorkspace(s, d.monitorId) == Some(w)
    ensures Activate(s1, d.monitorId, w) == s1
  {
    ActivateActive(s1, d.monitorId, w);
  }

  /** A discovered window is placed without error, the links hold, and nobody else moves. */
  lemma DiscoverKeepsWellFormed(s: State, w: WorkspaceId, d: Discovery)
    requires WellFormed(s) && d.monitorId in s.monitors && ActiveWorkspace(s, d.monitorId) == Some(w)
    ensures Discover(s, w, d).result.Ok?
    ensures Discovered(s, Discover(s, w, d).state, w, d, Discover(s, w, d).result.value)
  {
    ActiveExists(s, d.monitorId, w);
    var x := s.runtime.nextWindowId;
    var s0 := s.(runtime := s.runtime.(nextWindowId := x + 1));
    PlaceWorks(s0, w, d, x, PreservesFocus(s, w, d));
    DiscoverParts(s, w, d);
    PlacedIsDiscovered(s, w, d, Place(s0, w, d, x, PreservesFocus(s, w, d)));
  }

  lemma PlacedIsDiscovered(s: State, w: WorkspaceId, d: Discovery, placed: Step<Option<ColumnId>>)
    requires WellFormed(s) && d.monitorId in s.monitors && ActiveWorkspace(s, d.monitorId) == Some(w)
    requires placed.result.Ok?
    requires var x := s.runtime.nextWindowId;
             PlacedWell(s.(runtime := s.runtime.(nextWindowId := x + 1)), placed.state, w, d, x, placed.result.value)
    ensures var x := s.runtime.nextWindowId;
            var s1 := placed.state.(windows := placed.state.windows[x := NewWindow(d, x, w, placed.result.value)]);
            Discovered(s, s1, w, d, placed.result.value) && Activate(s1, d.monitorId, w) == s1
  {
    var x := s.runtime.nextWindowId;
    RecordedWindow(s, placed.state, w, d, x, placed.result.value);
    StillActive(s, placed.state.(windows := placed.state.windows[x := NewWindow(d, x, w, placed.result.value)]), w, d, placed.result.value);
  }

  lemma DiscoverParts(s: State, w: WorkspaceId, d: Discovery)
    ensures var x := s.runtime.nextWindowId;
            var placed := Place(s.(runtime := s.runtime.(nextWindowId := x + 1)), w, d, x, PreservesFocus(s, w, d));
            placed.result.Ok? ==>
              Discover(s, w, d) == Done(Activate(placed.state.(windows := placed.state.windows[x := NewWindow(d, x, w, placed.result.value)]),
                                                 d.monitorId, w), placed.result.value)
  {
  }

  ghost predicate PlacedWell(s: State, s1: State, w: WorkspaceId, d: Discovery, x: WindowId, column: Option<ColumnId>) {
    && Members(s1.windows[x := NewWindow(d, x, w, column)], s1.columns, s1.workspaces)
    && Topology(s1)
    && Fresh(s1)
    && s1 == s.(runtime := s1.runtime, columns := s1.columns, workspaces := s1.workspaces)
    && s1.runtime.nextWindowId == s.runtime.nextWindowId
    && s1.workspaces.Keys == s.workspaces.Keys
    && (forall w' :: w' in s.workspaces ==> s1.workspaces[w'].monitorId == s.workspaces[w'].monitorId)
  }

  lemma PlaceWorks(s: State, w: WorkspaceId, d: Discovery, x: WindowId, preserve: bool)
    requires WellFormed(s) && x !in s.windows && w in s.workspaces
    ensures var placed := Place(s, w, d, x, preserve);
            placed.result.Ok? && PlacedWell(s, placed.state, w, d, x, placed.result.value)
  {
    var placed := Place(s, w, d, x, preserve);
    assert HomeOk(s.monitors, s.workspaceSets, w, s.workspaces[w]);
    if !d.managed {
      UnmanagedArrives(s.windows, s.columns, s.workspaces, x, NewWindow(d, x, w, None));
    } else if d.layer != Tiled {
      FloatingPlaced(s, w, d, x);
    } else if d.placement == AppendToFocusedColumn && FocusedColumnIn(s, w).Some? {
      var c := FocusedColumnIn(s, w).value;
      assert WorkspaceOk(s.windows, s.columns, w, s.workspaces[w]) && StripColumnOk(s.windows, s.columns, w, c);
      AppendArrives(s.windows, s.columns, s.workspaces, x, NewWindow(d, x, w, Some(c)), w, c);
    } else {
      ColumnPlaced(s, w, d, x, RequestFor(s, w, d.placement, preserve));
    }
  }

  lemma FloatingPlaced(s: State, w: WorkspaceId, d: Discovery, x: WindowId)
    requires WellFormed(s) && x !in s.windows && w in s.workspaces && d.managed && d.layer != Tiled
    ensures var placed := PushToFloatingLayer(s, w, x);
            placed.result.Ok? && PlacedWell(s, placed.state, w, d, x, None)
  {
    OldWorkspaceStays(s.windows, s.columns, s.workspaces, x, NewWindow(d, x, w, None), w);
    var workspace := PushToFloatingLayer(s, w, x).state.workspaces[w];
    FloatingArrives(s.windows, s.columns, s.workspaces, x, NewWindow(d, x, w, None), w, workspace);
    EditedWorkspaceKeepsTopo(s, w, workspace);
  }

  /** A workspace may change its windows and columns without moving in the topology. */
  lemma EditedWorkspaceKeepsTopo(s: State, w: WorkspaceId, workspace: Workspace)
    requires Topology(s) && w in s.workspaces
    requires workspace.id == s.workspaces[w].id && workspace.monitorId == s.workspaces[w].monitorId
    ensures Topo(s.monitors, s.workspaceSets, s.workspaces[w := workspace], s.focus.activeByMonitor)
  {
    var workspaces1 := s.workspaces[w := workspace];
    forall t | t in s.workspaceSets ensures SetOk(s.monitors, workspaces1, t, s.workspaceSets[t]) {
      assert SetOk(s.monitors, s.workspaces, t, s.workspaceSets[t]);
    }
    forall w' | w' in workspaces1 ensures HomeOk(s.monitors, s.workspaceSets, w', workspaces1[w']) {
      assert HomeOk(s.monitors, s.workspaceSets, w', s.workspaces[w']);
    }
  }

  lemma ColumnPlaced(s: State, w: WorkspaceId, d: Discovery, x: WindowId, request: NewColumnRequest)
    requires WellFormed(s) && x !in s.windows && w in s.workspaces && d.managed
    ensures var placed := InsertNewColumn(s, w, x, request);
            && placed.result == Ok(s.runtime.nextColumnId)
            && PlacedWell(s, placed.state, w, d, x, Some(s.runtime.nextColumnId))
  {
    assert HomeOk(s.monitors, s.workspaceSets, w, s.workspaces[w]);
    var c := s.runtime.nextColumnId;
    var workspace := InsertNewColumn(s, w, x, request).state.workspaces[w];
    var ids := s.workspaces[w].strip.orderedColumnIds;
    NewColumnArrives(s.windows, s.columns, s.workspaces, x, NewWindow(d, x, w, Some(c)), w, workspace,
                     c, NewColumn(c, request.mode, request.width, [x]), InsertIndex(ids, request));
    EditedWorkspaceKeepsTopo(s, w, workspace);
  }
}
