# FlowTile verification model

A Dafny model of FlowTile, a scrolling tiling window manager for Windows written in Rust, with proofs about its
deterministic parts:

* **The reducer** (`Domain`, `Events`, `Model`, `Reducer`, `Store`). `StateStore` over `WmState` takes one event at a
  time and edits linked maps: monitors, workspace sets, workspaces, strips, columns, windows, floating layers and
  focus. `Store.StateStore` and `Model.WmState` are classes whose methods update the fields step by step as the source
  does; every method is proved equal to a function of the old state (`Reducer`, `Model`), and the theorems are about
  those functions. `Invariants` says what the doubly stored relations have to agree on; `Normalization`,
  `NormalizationExact`, `StepInvariants`, `PlacementProofs`, `RemovalProofs` and `RunInvariants` prove that every run
  keeps it, whether its events succeed or fail. `OutcomeProofs`, `DestroyProofs`, `CommandTargets`,
  `NavigationProofs`, `FocusCommands`, `FocusVisibility` and `EventEffects` say exactly what each event does: where a
  window lands and in what column, what a removal leaves behind, which workspace a command acts on, where the focus
  goes, that it is on the screen, and when an event fails.
* **Strip layout and scrolling** (`Layout`, `LayoutSoundness`, `Widths`, `StripGeometry`, `TilePlaces`,
  `HeightDivision`, `FloatingLayout`, `ScrollProofs`, `InsertionProofs`). Loops with saturating and wrapping 32-bit
  cursors are proved equal to an exact layout, and the scroll arithmetic of the reducer is proved correct, optimal and
  consistent with that layout.
* **The low-level keyboard hook** (`Hotkeys`, `Chords`, `HotkeyProofs`, `HotkeyReleases`): a state machine over key
  sets, what each event does to it in terms of keys and modifier bits, and trace theorems over arbitrary sequences of
  key events, auto-repeat and injected events included; among them, exactly when the shell is shown the release of a
  key.
* **Configuration** (`Config`, `ConfigProofs`, `ConfigRoundTrip`, `WholeConfig`, `ConfigDetails`, `TextProofs`,
  `WindowRules`, `RuleMatching`, `FileOrder`): the line-based parser, and a proof that it inverts printing every
  setting of a configuration; which windows a rule is for and which rule wins, and exactly when their order in the
  file matters.
* **Tab indicator and overview animation** (`TabIndicator`, `Overview`): pixel-exact partition and interpolation.

`Examples` holds concrete states for the first facts of the next section. `Wrappers`, `MachineInt` and `Text` hold
what the source takes from the Rust standard library. Machine integers are explicit: `u32` and `i32` are subset types,
and every saturating, clipping, truncating or wrapping step is written out. Where the source adds two 32-bit numbers
without a check (the layout cursors), the model wraps, as a release build does; a debug build would stop there
instead. `dafny verify dfyconfig.toml` checks everything.

## What the code does not do

The model follows the code, and these facts came out of the proofs:

* Destroying the last window of an inactive, unnamed workspace fails with `UnknownWorkspace` after the window has been
  removed, because normalisation removes the workspace before the scroll offset is clamped (`DestroyOutcome`,
  `DestroyFailsExample`).
* Trimming the empty tail takes no account of names and of the active workspace: an empty workspace is removed when only
  empty ones follow and another that stays comes before it, even while it is active (`SurvivesExactly`,
  `ActiveIsTrimmedExample`).
* From a floating window in a workspace with several columns, focus-next goes to the second one and passes the first
  over (`FocusCommandActs`).
* Appending to a tabbed column selects the new window even when the focus is to stay, so the focused window may be
  hidden; this is the only event that can do so (`AfterKeeps`, `RunShowsFocus`, `HiddenFocusExample`).
* A maximized column inserted before the focus shifts the picture by the difference between the viewport and its
  resolved width, less the alignment the strip gives up (`MaximizedInsertionShifts`); with any other mode the picture
  stays if and only if the strip keeps its alignment or the offset equals the alignment given up
  (`InsertBeforeFocusKeepsPicture`).
* Revealing a column wider than the viewport twice swings from one edge to the other (`RevealTwice`,
  `SwingingRevealExample`).
* A plain key whose press the shell saw can have its release swallowed, so that it sticks. That happens if and only if
  a release was still owed for it and no lock reset came since, or one of its repeats was replayed, or one of its
  repeats fired a command whose modifiers stayed down; short of a lock, the last two need a repeat while a Win prefix
  is pending (`PassedKeyReleases`, `ReplayedRepeatExample`). A release is always left owed after a replayed key is
  released (`ReplayedKeySticksNext`, `StaleReleaseExample`).
* The release of a trigger key is swallowed if and only if the modifiers stayed down and no other command ran, or the
  key fired again and that held for the new command, or a release was owed or a repeat replayed; otherwise the shell
  sees a release without a press (`TriggerReleaseIsSwallowed`, `RefiredTriggerDecides`, `RefiredTriggerExample`).
* The order of the rules in the file changes a decision if and only if, for some field, two applicable rules that no
  other setter outranks disagree (`FileOrderMatters`, `SharedKeyDependsOnOrder`); the reported ids never depend on it.
* Six pixels per tab or less make the tab segments overshoot their column (`TabsCoverColumn`), and a rectangle with a
  side of zero at both ends grows during the overview animation (`RectStaysBetween`). Spans beyond the largest i32 can
  make the closing animation drift from the opening one (`PositionMirrors`, `Overview.ClippedPositionsDrift`).

## Model

| member | source | states |
|---|---|---|
| `Invariants.EmptyMeansBare` | crates/domain/src/model.rs:702-718 | in a consistent state a workspace counts as empty exactly when its strip and its floating layer are empty |
| `Invariants.StripsAreDisjoint` | crates/wm-core/src/state_store.rs:475-546 | a column is in one strip only |
| `Invariants.PlacesAreDisjoint` | crates/wm-core/src/state_store.rs:654-727 | no window is in two columns, in two floating layers, or in both |
| `Model.WmState.NormalizeWorkspaceSet` | crates/domain/src/model.rs:744-858 | the in-place retain, while-pop and index loops compute the specification of normalisation |
| `Model.WmState.CollapseEmpty` | crates/domain/src/model.rs:777-790 | the retain loop drops exactly the empty, unnamed, inactive workspaces before the tail, from the order and from the map |
| `Model.WmState.TrimEmptyTail` | crates/domain/src/model.rs:792-805 | the pop loop stops at one empty workspace |
| `Model.WmState.StampWorkspaces` | crates/domain/src/model.rs:829-840 | every workspace of the set records its position, monitor and region |
| `Model.WmState.EnsureTailWorkspace` | crates/domain/src/model.rs:720-726 | normalises the set of a known monitor, returns the last workspace of it, and changes nothing otherwise |
| `Normalization.EnsuredTailIsEmpty` | crates/domain/src/model.rs:720-726 | for a known monitor the returned tail exists, belongs to that monitor and is empty |
| `Model.WmState.AddMonitorRecord` | crates/domain/src/model.rs:625-679 | a monitor arrives with its own set holding one empty workspace |
| `NormalizationExact.MonitorArrival` | crates/domain/src/model.rs:625-679 | a new monitor adds exactly one monitor, one set and one empty active workspace with their recorded fields, and takes the focus if no monitor had it |
| `Normalization.NormalizeEstablishesNormalForm` | crates/domain/src/model.rs:744-858 | afterwards the set ends in one empty tail behind a non-empty workspace, every other empty unnamed workspace is the active one, positions are recorded, and the active workspace is a member, mirrored in the focus state, and unchanged if it survived |
| `Normalization.NormalizeLosesNothing` | crates/domain/src/model.rs:744-858 | no non-empty workspace is lost or altered, relative order is kept, and at most one new, bare workspace appears, at the end |
| `NormalizationExact.SurvivesExactly` | crates/domain/src/model.rs:777-805 | a workspace survives normalisation if and only if it is inhabited, active, named or last, and an inhabited one follows or it is the first of the empty ones at the end |
| `NormalizationExact.NormalizeWritesRecords` | crates/domain/src/model.rs:829-840 | each workspace then records its monitor, its position, the work area, and whether it is the empty tail |
| `NormalizationExact.FreshTailIsBlank` | crates/domain/src/model.rs:806-822 | the tail it adds is last, empty, unnamed, not scrolled and remembers nothing |
| `Examples.ActiveIsTrimmedExample` | crates/domain/src/model.rs:792-805 | a consistent state whose active workspace is removed because a named empty one comes before it |
| `Normalization.NormalizeKeepsInvariants` | crates/domain/src/model.rs:744-858 | membership, topology and focus invariants survive; windows, columns, monitors and configuration do not change |
| `Normalization.NormalizeIsIdempotent` | crates/domain/src/model.rs:744-858 | normalising twice is normalising once |
| `Normalization.NormalFormIsFixed` | crates/domain/src/model.rs:744-858 | a set in normal form with correct records is left alone |
| `Normalization.LastNonEmptyIsLast` | crates/domain/src/model.rs:823-827 | the recorded last non-empty workspace is the last non-empty one of the order, or none if all are empty |
| `Normalization.NormalizeRecordsLast` | crates/domain/src/model.rs:823-853 | normalisation leaves that record correct for the new order |
| `Store.StateStore.InsertNewColumn` | crates/wm-core/src/state_store.rs:475-546 | the imperative insertion, with anchor, index override and scroll compensation, computes its specification, also when it fails halfway |
| `Store.StateStore.Place` | crates/wm-core/src/state_store.rs:161-256 | placement by layer and by the four placement kinds |
| `Store.StateStore.HandleWindowDiscovered` | crates/wm-core/src/state_store.rs:147-314 | the whole discovery handler computes its specification |
| `Store.StateStore.DetachWindow` | crates/wm-core/src/state_store.rs:676-727 | removal from column or floating layer, dropping an emptied column |
| `Store.StateStore.HandleWindowDestroyed` | crates/wm-core/src/state_store.rs:316-357 | the destroy handler, with retargeting, normalisation and clamping, computes its specification |
| `Store.StateStore.FindNextFocus` | crates/wm-core/src/state_store.rs:1113-1143 | the search for a new focus: preferred column, then the loop over the other columns, then the floating layer |
| `Store.StateStore.RetargetFocus` | crates/wm-core/src/state_store.rs:1101-1160 | which window gets the focus after a destroy |
| `Store.StateStore.HandleFocusObserved` | crates/wm-core/src/state_store.rs:359-399 | an observed focus is checked against monitor, window and workspace and then recorded and revealed |
| `Store.StateStore.SetFocusToWindow` | crates/wm-core/src/state_store.rs:890-928 | the three places the focus is stored in are updated together |
| `Store.StateStore.NavigationSequence` | crates/wm-core/src/state_store.rs:787-822 | the loop over columns and floating windows collects the navigation targets |
| `Store.StateStore.CycleTab` | crates/wm-core/src/state_store.rs:824-888 | tab cycling within the focused column |
| `Store.StateStore.HandleFocusNavigation` | crates/wm-core/src/state_store.rs:401-457 | focus-next and focus-prev in both scopes |
| `Store.StateStore.ActiveWorkspaceForCommands` | crates/wm-core/src/state_store/workspace.rs:547-617 | the loops over managed monitors and monitors in order choose the specified workspace |
| `Store.StateStore.HandleStripScroll` | crates/wm-core/src/state_store/window_modes.rs:4-18 | manual strip scrolling |
| `Store.StateStore.WorkspaceContentWidth` | crates/wm-core/src/state_store.rs:969-996 | the i32 loop returns the exact strip width clipped to the largest i32; with `MeasureStrip` this makes the two width computations agree |
| `Store.StateStore.MaxScrollOffset` | crates/wm-core/src/state_store.rs:960-967 | content width minus viewport width, never negative |
| `Store.StateStore.ClampScrollOffset` | crates/wm-core/src/state_store.rs:949-958 | clamps the stored offset, failing for an unknown workspace without a change |
| `Store.StateStore.FindBounds` | crates/wm-core/src/state_store.rs:1018-1040 | the fold over the geometries that finds the extent of the target column, with its saturating edges |
| `Store.StateStore.RevealColumn` | crates/wm-core/src/state_store.rs:998-1072 | the reveal: layout, extent of the target, centred or nearest offset, clamped, and nothing changed when the column has no tile |
| `Store.StateStore.ApplyEvent` | crates/wm-core/src/state_store.rs:66-145 | the event switch for the events of this model, with the result or error of each handler |
| `Store.StateStore.Dispatch` | crates/wm-core/src/state_store.rs:32-64 | applying an event, raising the version and recomputing the layout, with the state that an error leaves behind |
| `RunInvariants.AfterKeeps` | crates/wm-core/src/state_store.rs:32-145 | one input keeps every invariant even when it fails, and keeps the focused window shown if and only if it is not a focus-preserving append to a tabbed column |
| `RunInvariants.RunKeepsInvariants` | crates/wm-core/src/state_store.rs:32-357 | membership, topology and focus integrity hold after every run from any consistent state |
| `RunInvariants.RunShowsFocus` | crates/wm-core/src/state_store.rs:186-199 | without such appends the focused window is always the one its column shows |
| `Examples.HiddenFocusExample` | crates/wm-core/src/state_store.rs:186-199 | a consistent state in which a focus-preserving append hides the focused window |
| `RunInvariants.ReachableStatesAreSound` | crates/domain/src/model.rs:588-602 | the same for everything reachable from the empty state, monitors arriving at any time |
| `RunInvariants.CommandWorkspaceIsActive` | crates/wm-core/src/state_store/workspace.rs:547-587 | commands act on an existing workspace that is active on its monitor, and find none only if there is no monitor |
| `CommandTargets.CommandWorkspaceIs` | crates/wm-core/src/state_store/workspace.rs:547-617 | commands act on exactly one workspace: that of the focused managed window; else the active one of the focused monitor if it is managed or no binding fits any monitor; else that of the managed monitor least by left edge, top edge and id; else that of the workspace set with the least id; without a monitor they fail |
| `CommandTargets.BindingIsManaged` | crates/domain/src/model.rs:405-417 | a monitor is managed if no binding is configured, or its own binding without blanks at the ends is one of them, letter by letter but for case |
| `CommandTargets.ScrollCommandActs` | crates/wm-core/src/state_store/window_modes.rs:4-18 | a dispatched scroll command moves the strip of that workspace by its step, or by the configured one when it names none, as far as the strip overflows its viewport, and changes nothing else but the version |
| `CommandTargets.DispatchReports` | crates/wm-core/src/state_store.rs:32-64 | a successful dispatch counts once and reports the version, the affected workspace and the layout of the final state |
| `FocusCommands.FocusCommandActs` | crates/wm-core/src/state_store.rs:401-457 | from any focus, focus-next and focus-prev go to the neighbouring stop of that workspace (columns, or floating windows where there is no column), to the first or last from outside, and to the neighbour of the first from a window that is no stop; nothing else moves, and the column is brought on the screen |
| `FocusCommands.NowhereToGo` | crates/wm-core/src/state_store.rs:401-457 | in a workspace without windows they only count |
| `FocusCommands.TabScopeFallsBack` | crates/wm-core/src/state_store.rs:401-457 | stepping through tabs is stepping along the strip unless the focused column is tabbed with several windows |
| `FocusCommands.TabStepIsOnScreen` | crates/wm-core/src/state_store.rs:824-888 | a step through tabs leaves their column on the screen |
| `RunInvariants.NavigationSequenceWorks` | crates/wm-core/src/state_store.rs:787-822 | navigation never fails on a consistent workspace and visits windows of that workspace only |
| `PlacementProofs.DiscoverKeepsWellFormed` | crates/wm-core/src/state_store.rs:147-293 | every placement of every layer keeps the doubly stored membership consistent |
| `RemovalProofs.RemoveWindowKeeps` | crates/wm-core/src/state_store.rs:316-340 | removing a window succeeds, keeps the links consistent and touches only its workspace and its column |
| `StepInvariants.SetFocusEstablishes` | crates/wm-core/src/state_store.rs:890-928 | focusing a window establishes the focus invariants whatever the focus was, and touches nothing else |
| `OutcomeProofs.DiscoveryOutcome` | crates/wm-core/src/state_store.rs:147-314 | a discovery succeeds exactly when its monitor is known; a managed window joins the active workspace there with exactly the fields of the event, lands where layer and placement say (floating layer, focused column, beside the focused column, beside or in the place of the column a fullscreen focus left, end), in a new column with the mode and width the placement names and itself as active window and tab, moves nothing else, and gets the focus and is shown unless a focus that is not fullscreen is to stay; an unmanaged one is recorded and no column, place or offset changes |
| `OutcomeProofs.DiscoveryOffset` | crates/wm-core/src/state_store.rs:228-313 | the strip of the arriving window keeps or compensates its offset when the focus stays and ends in range when the focus follows; no other strip scrolls |
| `OutcomeProofs.PlaceLands` | crates/wm-core/src/state_store.rs:161-259 | the same for the placement alone: position, mode, width, active window and tab of the new column, all other columns and workspaces being untouched |
| `OutcomeProofs.RemoveWindowLeaves` | crates/wm-core/src/state_store.rs:676-727 | a removed window is out of its column or floating layer, the column goes exactly when it held no other window, and nothing else moves |
| `OutcomeProofs.DestroyEffect` | crates/wm-core/src/state_store.rs:316-357 | destroying a managed window does just that: every other workspace with windows keeps its places, the handler succeeds exactly when the window's workspace survives, as it does with a neighbour left; a focus on the window falls to the same column, else the first column, else the first floating window, else to nothing; any other focus stays |
| `OutcomeProofs.RetargetAims` | crates/wm-core/src/state_store.rs:1101-1160 | the search for a new focus over preferred column, strip and floating layer finds exactly that target |
| `OutcomeProofs.FocusObservedOutcome` | crates/wm-core/src/state_store.rs:359-399 | an observed focus is accepted exactly when monitor and window are known and belong together; then it is recorded in all places, no window moves; otherwise the state is unchanged |
| `OutcomeProofs.FollowSettles` | crates/wm-core/src/state_store.rs:295-313 | normalising, clamping and revealing after a discovery never fail and move no window |
| `OutcomeProofs.ScrollMoves` | crates/wm-core/src/state_store.rs:930-947 | a scroll command moves the offset by the step within its exact range and changes nothing else |
| `OutcomeProofs.ScrollRightThenLeft` | crates/wm-core/src/state_store/window_modes.rs:4-18 | scrolling right and back restores the state if and only if the right end was not hit or the strip started at the left end |
| `DestroyProofs.DestroyOutcome` | crates/wm-core/src/state_store.rs:32-64 | from a normalised set without names, destroying a managed window succeeds exactly when its workspace keeps another managed window or is active; on failure the window is gone, the invariants hold and the version stands still; on success the version rises by one and the offset is in range |
| `Examples.DestroyFailsExample` | crates/wm-core/src/state_store.rs:316-357 | a consistent, settled state on which a destroy removes the window and fails |
| `DestroyProofs.HandlerOutcome` | crates/wm-core/src/state_store.rs:316-357 | the same for the handler, with the value or the error it returns |
| `DestroyProofs.FocusAfterDestroy` | crates/wm-core/src/state_store.rs:1101-1160 | after the focused window is destroyed the focus is empty exactly when the workspace has no managed window left |
| `EventEffects.FocusFallsOn` | crates/wm-core/src/state_store.rs:676-727 | when the focused window of a column goes and others stay, the focus falls on the tab that was selected instead of it, else on the first window left |
| `EventEffects.LostFocusRecords` | crates/wm-core/src/state_store.rs:1101-1160 | a focus that moves on stays on its monitor and is recorded as the reducer's doing |
| `EventEffects.RemovedIsForgotten` | crates/wm-core/src/state_store.rs:316-357 | a workspace forgets a removed window, and its column once that is gone, and nothing else |
| `EventEffects.FocusIsRemembered` | crates/wm-core/src/state_store.rs:890-928 | a workspace remembers the window focused last, with its column |
| `EventEffects.UnmanagedDestroyed` | crates/wm-core/src/state_store.rs:316-357 | a window that is not managed leaves all columns as they are, and the focus unless it had it |
| `EventEffects.DestroyUnknown` | crates/wm-core/src/state_store.rs:316-330 | destroying an unknown window, or one whose workspace is gone, fails and changes nothing |
| `EventEffects.FocusTurnedDown` | crates/wm-core/src/state_store.rs:359-385 | an observed focus that does not fit fails with the first reason that applies and changes nothing |
| `EventEffects.ConfigurationEvents` | crates/wm-core/src/state_store.rs:459-473 | a reloaded configuration replaces the old one, updated rules replace their count, the requests only count the transition |
| `EventEffects.DiscoveryNormalizes` | crates/wm-core/src/state_store.rs:276-313 | every discovery leaves the workspace set of its monitor in normal form |
| `EventEffects.DestructionNormalizes` | crates/wm-core/src/state_store.rs:340-357 | so does the destruction of every managed window, even when it fails |
| `EventEffects.FloatersAreStacked` | crates/wm-core/src/state_store.rs:654-727 | a floating window is stacked by their number, and a removed one loses its place |
| `NavigationProofs.StripStep` | crates/wm-core/src/state_store.rs:401-457 | one dispatched focus event focuses the representative of the neighbouring column and changes no representative |
| `NavigationProofs.FocusNextReaches` | crates/wm-core/src/state_store.rs:401-457 | k times focus-next reaches column min(i + k, last) |
| `NavigationProofs.FocusPrevReaches` | crates/wm-core/src/state_store.rs:401-457 | k times focus-prev reaches column max(i - k, 0) |
| `NavigationProofs.NextThenPrev` | crates/wm-core/src/state_store.rs:401-457 | next then prev restores window and column if and only if the focus is not at the end of a longer strip |
| `NavigationProofs.TabStepsAreInverse` | crates/wm-core/src/state_store.rs:824-888 | tab-forward and tab-back undo each other |
| `NavigationProofs.TabForwardReaches` | crates/wm-core/src/state_store.rs:824-888 | k times tab-forward selects tab (i + k) mod n |
| `NavigationProofs.TabRoundVisitsEach` | crates/wm-core/src/state_store.rs:824-888 | a round of n steps visits each tab once and returns |
| `Layout.MeasureStrip` | crates/layout-engine/src/lib.rs:73-83 | the u32 loop returns the exact strip width, saturated, and fails exactly when a column is missing |
| `Layout.StackWindows` | crates/layout-engine/src/lib.rs:120-163 | the loop with y cursor and remaining height computes the stack of a column |
| `Layout.TileColumn` | crates/layout-engine/src/lib.rs:95-165 | a tabbed column contributes its selection, any other column its stack |
| `Layout.TileStrip` | crates/layout-engine/src/lib.rs:92-171 | the loop with the x cursor lays out all columns |
| `Layout.RecomputeWorkspace` | crates/layout-engine/src/lib.rs:59-212 | the whole layout loop computes the specified projection |
| `LayoutSoundness.LayoutSucceeds` | crates/layout-engine/src/lib.rs:59-212 | on a consistent state the layout of a workspace never fails and shows strip, then floating layer |
| `LayoutSoundness.EachDisplayedWindowOnce` | crates/layout-engine/src/lib.rs:92-195 | every window of a non-tabbed column, the selection of a tabbed one and every floating window appears exactly once, and nothing else does |
| `LayoutSoundness.ShownFocusHasGeometry` | crates/layout-engine/src/lib.rs:197-212 | a focused managed window its column shows has a geometry and is reported as focused |
| `Widths.FractionIsRounded` | crates/domain/src/model.rs:130-144 | a fraction n/d of a viewport is the w with w * d <= viewport * n < (w + 1) * d, a pixel at least; only beyond 32 bits is it truncated, never for n <= d |
| `Widths.ResolveIsWidth` | crates/domain/src/model.rs:130-144 | fixed widths are at least a pixel, the full width and a zero denominator give the viewport, fractions are rounded down |
| `Widths.TileIsAsWideAsAsked` | crates/layout-engine/src/lib.rs:214-222 | every tile is as wide as its column asks for in these terms, the whole viewport for a maximized one |
| `Widths.ViewportIsPadded` | crates/layout-engine/src/lib.rs:41-43 | the viewport is the work area without the outer padding, a pixel at least |
| `TilePlaces.StripIsAligned` | crates/layout-engine/src/lib.rs:224-246 | a single narrow column is centred, a narrow strip ends at the right edge while its last column has the focus, any other strip starts as far left as it is scrolled |
| `TilePlaces.TabFillsViewport` | crates/layout-engine/src/lib.rs:95-118 | a tabbed column shows its selection at the full height of the viewport |
| `TilePlaces.ColumnFillsViewport` | crates/layout-engine/src/lib.rs:120-163 | any other column shows its windows in order from the top of the viewport, the window gap between them, each but the last with its rounded share of the height by desired heights, the last with what is left |
| `TilePlaces.FloaterIsAt` | crates/layout-engine/src/lib.rs:173-195 | a floating window lies on the whole work area when fullscreen, else where it was last seen, else inside the margin |
| `TilePlaces.ProjectionReports` | crates/layout-engine/src/lib.rs:197-212 | the layout reports the viewport, the offset, the content width, and the focused window if it is in this workspace |
| `TilePlaces.LayoutFails` | crates/layout-engine/src/lib.rs:59-83 | the layout fails for an unknown workspace, an unknown monitor and a missing column, in this order |
| `StripGeometry.TileIsExact` | crates/layout-engine/src/lib.rs:84-171 | within explicit size bounds no cursor overflows: each tile is at its column's exact position and width |
| `StripGeometry.ColumnsAreDisjoint` | crates/layout-engine/src/lib.rs:84-171 | tiles of different columns do not overlap, neighbours are exactly one gap apart, and the strip spans exactly the content width |
| `StripGeometry.ContentWidthIsExact` | crates/layout-engine/src/lib.rs:73-83 | the reported content width is the exact one |
| `StripGeometry.ColumnIsLaidOut` | crates/layout-engine/src/lib.rs:92-171 | every column has at least one tile |
| `FloatingLayout.InsetStaysInside` | crates/layout-engine/src/lib.rs:261-283 | an inset rectangle stays inside and loses exactly the insets, or all but one pixel |
| `FloatingLayout.FloatingRectFits` | crates/layout-engine/src/lib.rs:45-57 | a floating window without a known place lies inside the margin with the size it wants as far as that fits |
| `FloatingLayout.FloatersComeLast` | crates/layout-engine/src/lib.rs:173-195 | the last geometries are those of the floating layer in its order, each at its own rectangle |
| `FloatingLayout.FloatersIgnoreScroll` | crates/layout-engine/src/lib.rs:311-392 | scrolling the strip does not move a floating window |
| `HeightDivision.HeightsNearlyFill` | crates/layout-engine/src/lib.rs:120-163 | heights never fall short of the tiled height, exceed it by at most the number of non-last windows whose share rounds to zero, and meet it exactly when the earlier windows leave a pixel |
| `HeightDivision.HeightsFillExactly` | crates/layout-engine/src/lib.rs:120-163 | if the gaps fit and every share is a pixel or more, heights and gaps add up to the viewport height |
| `HeightDivision.SharesAreProportional` | crates/layout-engine/src/lib.rs:143-150 | the rounded shares of the first windows never claim more than their part of the height |
| `HeightDivision.StackIsContiguous` | crates/layout-engine/src/lib.rs:137-162 | the windows of a column are stacked with exactly the gap between them |
| `ScrollProofs.RevealIsClosedForm` | crates/wm-core/src/state_store.rs:998-1072 | revealing sets the offset to a closed form of the exact geometry and changes nothing else |
| `ScrollProofs.RevealShowsColumn` | crates/wm-core/src/state_store.rs:998-1072 | after a reveal a fresh layout has the column inside the viewport if it fits, else covering it, with the offset in range |
| `ScrollProofs.RevealShowsTiles` | crates/wm-core/src/state_store.rs:998-1072 | the same for the tiles of that layout |
| `ScrollProofs.RevealIsNearest` | crates/wm-core/src/state_store.rs:1040-1072 | of all legal offsets that show the column the reveal picks the nearest |
| `ScrollProofs.RevealTwice` | crates/wm-core/src/state_store.rs:998-1072 | a second reveal changes nothing if and only if the column fits the viewport |
| `Examples.SwingingRevealExample` | crates/wm-core/src/state_store.rs:1040-1072 | a column of 2000 pixels in a viewport of 968: the first reveal goes to its right edge, the second back |
| `FocusVisibility.NewWindowIsOnScreen` | crates/wm-core/src/state_store.rs:295-313 | a new window that takes the focus in a column has that column inside the viewport, or covering it, in a fresh layout |
| `FocusVisibility.ObservedFocusIsOnScreen` | crates/wm-core/src/state_store.rs:359-399 | the same for an observed focus |
| `FocusVisibility.LostFocusIsOnScreen` | crates/wm-core/src/state_store.rs:316-357 | the same for the column a focus falls on when its window is destroyed |
| `FocusVisibility.OtherDestroyKeepsOffset` | crates/wm-core/src/state_store.rs:316-357 | destroying any other window leaves its strip at the nearest legal offset |
| `InsertionProofs.DiscoveryInsertsBefore` | crates/wm-core/src/state_store.rs:228-243 | a focus-preserving new-column-before-focus inserts the column at the focused position and compensates the offset |
| `InsertionProofs.InsertBeforeFocusKeepsPicture` | crates/wm-core/src/state_store.rs:491-543 | the focused column and all right of it keep their x if and only if the strip keeps its alignment or the offset equals the alignment given up |
| `InsertionProofs.MaximizedInsertionShifts` | crates/wm-core/src/state_store.rs:520-543 | whatever the alignment before, a maximized column makes the strip scroll-driven and shifts the picture by viewport width minus resolved width, minus the alignment given up |
| `Hotkeys.LowLevelHotkeyState.HandleKeyEvent` | apps/core-daemon/src/hotkeys/low_level.rs:147-234 | one key event updates the five fields and decides as the machine specifies |
| `Hotkeys.LowLevelHotkeyState.HandlePendingWinKeyDown` | apps/core-daemon/src/hotkeys/low_level.rs:251-348 | the Win-prefix branch: match, Start-menu tap, lock, replay, or opening a prefix |
| `Hotkeys.LowLevelHotkeyState.HandlePendingWinKeyUp` | apps/core-daemon/src/hotkeys/low_level.rs:350-370 | releases swallowed while a prefix is pending |
| `Hotkeys.LowLevelHotkeyState.HandleKeyUp` | apps/core-daemon/src/hotkeys/low_level.rs:203-231 | the release branch with its short-circuit removal order |
| `Hotkeys.LowLevelHotkeyState.SuppressPendingModifierReleases` | apps/core-daemon/src/hotkeys/low_level.rs:388-398 | the loop adds the Win key and exactly the pressed modifiers |
| `Hotkeys.LowLevelHotkeyState.FindRegistration` | apps/core-daemon/src/hotkeys/low_level.rs:378-386 | the first registration with this key and exactly these modifiers |
| `HotkeyProofs.RunIsSafe` | apps/core-daemon/src/hotkeys/low_level.rs:160-248 | over every trace: an active trigger's key and modifiers are down, a prefix's Win key is down with no trigger active, and held keys are owed a release |
| `HotkeyProofs.RepeatsOnlyWhileHeld` | apps/core-daemon/src/hotkeys/low_level.rs:245-249 | a command repeats only while key and modifiers of a repeating registration are down |
| `HotkeyProofs.PressedIsDownSinceReset` | apps/core-daemon/src/hotkeys/low_level.rs:160-243 | the pressed set is exactly the keys pressed and not released since the last lock reset |
| `HotkeyProofs.InjectedEventsAreInvisible` | apps/core-daemon/src/hotkeys/low_level.rs:147-150 | a run equals the run with injected and foreign events filtered out, state and decisions, and those events pass |
| `HotkeyProofs.EmissionIsBounded` | apps/core-daemon/src/hotkeys/low_level.rs:160-202 | commands plus replays plus a pending prefix never exceed the prefix at the start plus the fresh key-downs: auto-repeat alone produces nothing |
| `HotkeyProofs.CommandIsRegistered` | apps/core-daemon/src/hotkeys/low_level.rs:183-201 | a command is that of a registration with exactly the key pressed and exactly the modifiers down |
| `Chords.MaskIs` | apps/core-daemon/src/hotkeys/low_level.rs:668-699 | a mask is that of the keys down if and only if bit 4 says that 0x10, 0xA0 or 0xA1 is down, bit 1 0x12, 0xA4 or 0xA5, bit 2 0x11, 0xA2 or 0xA3, bit 8 0x5B or 0x5C, and no other bit is set |
| `Chords.CommandNeedsItsKeys` | apps/core-daemon/src/hotkeys/low_level.rs:160-202 | a command comes from a press by the user, as the first registration of that key with exactly the modifiers down in these bits |
| `Chords.FreshPressDecides` | apps/core-daemon/src/hotkeys/low_level.rs:160-202 | a fresh press without a prefix opens one, or runs that first registration, or passes, each exactly when it should |
| `Chords.PressInPrefixDecides` | apps/core-daemon/src/hotkeys/low_level.rs:251-348 | a press during a prefix waits, runs that registration, taps Win for S, locks for L, or replays the chord, each exactly when it should |
| `Chords.RepeatDecides` | apps/core-daemon/src/hotkeys/low_level.rs:167-202 | a repeat without a prefix changes nothing and is swallowed exactly for a replayed key and the active trigger |
| `Chords.ReleaseDecides` | apps/core-daemon/src/hotkeys/low_level.rs:203-231 | what a release swallows and what is left of keys, trigger, prefix and owed releases |
| `Chords.OtherEventsPass` | apps/core-daemon/src/hotkeys/low_level.rs:147-158 | injected events and other messages change nothing |
| `HotkeyProofs.PrefixReleaseIsSwallowed` | apps/core-daemon/src/hotkeys/low_level.rs:251-398 | a Win key taken as prefix has its next release swallowed, whatever happens in between short of a lock |
| `HotkeyProofs.ReplayedKeyIsSilent` | apps/core-daemon/src/hotkeys/low_level.rs:167-173 | a key consumed by a replay has every repeat and its release swallowed |
| `HotkeyReleases.ReleaseIsSwallowed` | apps/core-daemon/src/hotkeys/low_level.rs:160-243 | over every trace, repeats and lock resets included: the next release of a plain key is swallowed if and only if, since the last reset, a release was owed or a press or repeat of it replayed, or a trigger of it was armed and kept alone to the end |
| `HotkeyReleases.PassedKeyReleases` | apps/core-daemon/src/hotkeys/low_level.rs:160-231 | a plain key whose press passed has its release swallowed if and only if a release was still owed with no reset since, a repeat was replayed with no reset since, or a repeat fired a trigger kept alone since; without a repeat during a prefix and without a reset, if and only if a release was owed |
| `HotkeyReleases.ReplayedKeySticksNext` | apps/core-daemon/src/hotkeys/low_level.rs:203-231 | after a replayed key is released, its next press that the shell sees, however much later short of a lock, is never released for the shell |
| `HotkeyReleases.StaleReleaseExample` | apps/core-daemon/src/hotkeys/low_level.rs:205-210 | a concrete trace whose second tap is pressed but never released for the shell |
| `HotkeyReleases.ReplayedRepeatExample` | apps/core-daemon/src/hotkeys/low_level.rs:251-348 | a concrete trace with nothing owed: key down, Win down, repeat of the key, and the key never comes up for the shell |
| `HotkeyReleases.TriggerReleaseIsSwallowed` | apps/core-daemon/src/hotkeys/low_level.rs:160-243 | the release of a trigger key is swallowed if and only if a release was owed or a repeat replayed, or this trigger, or one a later repeat fired, was kept alone; without a repeat during a prefix and without a reset, if and only if a release was owed or its modifiers stayed down and no command ran |
| `HotkeyReleases.RefiredTriggerDecides` | apps/core-daemon/src/hotkeys/low_level.rs:160-231 | when the last repeat that decided anything fired a command, the release is swallowed if and only if a release was owed at that point or the new trigger was kept alone |
| `HotkeyReleases.RefiredTriggerExample` | apps/core-daemon/src/hotkeys/low_level.rs:183-221 | a concrete trace whose trigger was dropped and fired again by a repeat, and whose release is swallowed |
| `HotkeyProofs.PendingModifiersAreSorted` | apps/core-daemon/src/hotkeys/low_level.rs:719-728 | the replayed modifiers are ascending, without repetition, and exactly the pressed ones |
| `HotkeyProofs.ReplayIsTheHeldChord` | apps/core-daemon/src/hotkeys/low_level.rs:333-347 | a replayed chord names the pending Win key, every modifier down and the plain key just pressed |
| `HotkeyProofs.ReplayIsBalanced` | apps/core-daemon/src/hotkeys/low_level.rs:497-523 | the synthesised input presses the key under exactly the chord's modifiers and leaves all of them up |
| `Config.Tokenize` | crates/config-rules/src/lib.rs:1022-1062 | the character loop computes the tokens of a line |
| `Config.ParseKdlLikeSource` | crates/config-rules/src/lib.rs:276-632 | the line loop, with sections, rules and action blocks, computes the configuration or the error |
| `ConfigProofs.TokensInvertPrint` | crates/config-rules/src/lib.rs:1022-1062 | tokenizing returns any mix of bare and quoted tokens as printed, with any white space between them, and none beside a quoted one |
| `ConfigProofs.TokensFailOnOddQuotes` | crates/config-rules/src/lib.rs:1053-1057 | a line is rejected exactly when its quotes do not pair up |
| `ConfigProofs.LinesInvertJoin` | crates/config-rules/src/lib.rs:291-292 | splitting text into lines inverts joining them |
| `ConfigProofs.HotkeyLineFormat` | crates/config-rules/src/lib.rs:1220-1224 | the printed hotkey line is the one of the default configuration |
| `ConfigProofs.HotkeysRoundTrip` | crates/config-rules/src/lib.rs:493-505 | parsing a printed input section yields exactly its hotkeys in order, for triggers and commands without quotes and newlines |
| `ConfigProofs.HotkeysRoundTripInFile` | crates/config-rules/src/lib.rs:291-505 | the same inside any file, whatever comes before and after |
| `ConfigProofs.NumbersInvertShow` | crates/config-rules/src/lib.rs:1070-1074 | decimal numbers come back as printed, signs included |
| `ConfigRoundTrip.RuleReads` | crates/config-rules/src/lib.rs:301-345 | a printed rule, with any subset of its matchers and actions, is read back as itself |
| `ConfigDetails.UnsignedNumbersAre` | crates/config-rules/src/lib.rs:1070-1074 | accepted as a number are exactly an optional plus sign and decimal digits that fit 32 bits |
| `ConfigDetails.SignedNumbersAre` | crates/config-rules/src/lib.rs:534-545 | the same for signed numbers |
| `ConfigDetails.SkippedLineIsNothing` | crates/config-rules/src/lib.rs:293-297 | a comment or a blank line anywhere changes nothing |
| `ConfigDetails.FirstErrorStops` | crates/config-rules/src/lib.rs:276-632 | the first line that fails fails the source, with its error |
| `ConfigDetails.UnknownNamesAreIgnored` | crates/config-rules/src/lib.rs:345-632 | an entry with a name the section does not know changes nothing |
| `ConfigDetails.SettingsReject` | crates/config-rules/src/lib.rs:345-632 | a mode, control mode or flag that is none of the known words is an error |
| `ConfigDetails.PaddingShorthand` | crates/config-rules/src/lib.rs:398-410 | one outer padding stands for all four sides |
| `ConfigDetails.BindingsAreAdded` | crates/config-rules/src/lib.rs:1000-1020 | a monitor binding is added without blanks, once for all spellings, and must not be empty |
| `ConfigDetails.NothingGivesDefaults` | crates/config-rules/src/lib.rs:276-290 | an empty source gives the defaults |
| `ConfigDetails.EnabledAreCounted` | crates/config-rules/src/lib.rs:619-632 | the count of active rules is that of the enabled ones |
| `WholeConfig.WholeConfigRoundTrips` | crates/config-rules/src/lib.rs:276-632 | printing every setting (general mode, monitor bindings, layout numbers, column mode and width, control mode, touchpad, hotkeys, rules) and parsing the text gives the configuration back, rules sorted and the enabled ones counted |
| `WholeConfig.LoadedConfigIsFixed` | crates/config-rules/src/lib.rs:276-632 | a configuration as the parser leaves it comes back unchanged |
| `WholeConfig.AppendKeepsClean` | crates/config-rules/src/lib.rs:1000-1020 | the binding list only ever holds trimmed, non-empty bindings, no two alike but for case: the form the round trip asks for |
| `ConfigRoundTrip.ConfigRoundTrips` | crates/config-rules/src/lib.rs:276-632 | the same for a file of hotkeys and rules only, with any other setting left at its default |
| `ConfigRoundTrip.WidthParses` | crates/config-rules/src/lib.rs:951-998 | every width comes back as printed |
| `WindowRules.ClassifyWindow` | crates/config-rules/src/lib.rs:634-662 | the loop that updates the decision computes the specified decision |
| `RuleMatching.RuleAppliesExactly` | crates/config-rules/src/lib.rs:1086-1115 | a rule applies if and only if it is enabled and each of its texts occurs, in some case, in its own field; several matchers apply as each alone would, none to every window, a process matcher never without a process name |
| `RuleMatching.TitleRuleFloats` | crates/config-rules/src/lib.rs:634-662 | a title rule floats exactly the windows whose title holds its text |
| `RuleMatching.HighestRankDecides` | crates/config-rules/src/lib.rs:634-662 | each field comes from the applicable rule with the greatest priority, then the later id, that sets it, else from the defaults |
| `RuleMatching.SortPutsHigherLast` | crates/config-rules/src/lib.rs:619-623 | the sort keeps every rule and puts greater priorities, then later ids, last |
| `TextProofs.SearchFinds` | crates/config-rules/src/lib.rs:1111-1115 | a search ignoring ASCII case succeeds if and only if the text splits around the needle in some case |
| `TextProofs.TrimDropsBlanks` | crates/config-rules/src/lib.rs:1005-1008 | trimming takes off all blanks at both ends and nothing else |
| `WindowRules.SortSorts` | crates/config-rules/src/lib.rs:619-623 | the sort orders by priority, then id, and keeps every rule |
| `WindowRules.SortIsStable` | crates/config-rules/src/lib.rs:619-623 | rules with the same priority and id keep their file order |
| `FileOrder.FileOrderMatters` | crates/config-rules/src/lib.rs:619-662 | every permutation of the rules gives a window the same decision if and only if, for each of the four fields, all applicable setters that no other setter outranks agree |
| `FileOrder.MatchedIdsIgnoreOrder` | crates/config-rules/src/lib.rs:619-645 | the reported ids are the same for every permutation |
| `FileOrder.DistinctKeysAgree` | crates/config-rules/src/lib.rs:619-662 | rules with distinct keys always meet that condition |
| `WindowRules.FileOrderIsIrrelevant` | crates/config-rules/src/lib.rs:619-662 | with distinct keys, any permutation of the rules gives every window the same decision |
| `WindowRules.SharedKeyDependsOnOrder` | crates/config-rules/src/lib.rs:619-662 | two tied rules that disagree, where the file order decides |
| `WindowRules.LayerComesFromGreatest` | crates/config-rules/src/lib.rs:646-648 | the layer is that of the greatest enabled matching rule that sets one, else tiled |
| `WindowRules.WidthComesFromGreatest` | crates/config-rules/src/lib.rs:652-655 | the same for the width, with the flag that says whether any rule set it |
| `WindowRules.ModeAndManagedComeFromGreatest` | crates/config-rules/src/lib.rs:649-658 | the same for column mode and management |
| `WindowRules.MatchedIdsAreTheApplicable` | crates/config-rules/src/lib.rs:640-645 | the reported ids are those of the enabled matching rules in sorted order, one for each |
| `TabIndicator.BuildColumnSegments` | apps/core-daemon/src/tab_indicator.rs:161-206 | the loop with the y cursor computes the segments |
| `TabIndicator.TabsCoverColumn` | apps/core-daemon/src/tab_indicator.rs:161-221 | the segments and equal gaps cover the column exactly if and only if it is more than six pixels per tab high; then heights are at least six and differ by at most one |
| `TabIndicator.TabsKeepTheirGap` | apps/core-daemon/src/tab_indicator.rs:207-221 | neighbouring segments are four pixels apart, or as far as six pixels per tab leave room for |
| `TabIndicator.TabsSitAtTheEdge` | apps/core-daemon/src/tab_indicator.rs:161-206 | segments are six pixels wide and end ten pixels left of the column's edge; one window alone has none |
| `TabIndicator.SelectedTabIsActive` | apps/core-daemon/src/tab_indicator.rs:194-202 | a segment is active exactly when its window is the selected one |
| `Overview.PositionMirrors` | apps/core-daemon/src/overview_engine.rs:839-843 | opening at p and closing at 1000 - p differ by exactly the rounding loss, if and only if no step is clipped; spans up to the largest i32 are never clipped |
| `Overview.SizeMirrors` | apps/core-daemon/src/overview_engine.rs:845-850 | sizes mirror to within the rounding loss, always |
| `Overview.PositionIsMonotone` | apps/core-daemon/src/overview_engine.rs:839-843 | a position stays between its endpoints and only moves forward |
| `Overview.RectStaysBetween` | apps/core-daemon/src/overview_engine.rs:823-837 | a rectangle stays between its endpoints throughout if and only if no side is zero at both ends, and then every side only moves forward |
| `Overview.ClosingMirrorsOpening` | apps/core-daemon/src/overview_engine.rs:388-471 | every canvas, viewport and window rectangle of a closing frame equals that of the mirrored opening frame to within one pixel |
| `Overview.AnimationEnds` | apps/core-daemon/src/overview_engine.rs:388-471 | opening starts with every rectangle at its live place and ends with it at its place in the overview, closing the other way round, and the final frame is the overview |

## Left out

- ApplyEvent: does not cover the events of other handlers: workspace focus, workspace and column moves, width cycling and manual resize, the floating, tabbed, maximized and fullscreen toggles, and the overview commands are not part of this model.
- Identifier counters are unbounded naturals; running out of 64-bit identifiers is not modelled.
- Diagnostics, correlation ids, timestamps, capture and recovery state, and platform window handles are dropped from the records.
- `crates/wm-core/src/runtime.rs`, the named-pipe interface, the command line, snapshots and all Win32 calls are not part of this model.
- The KDL library path of the configuration (`parse_kdl_document`) is not part of this model; only the fallback parser is, with the version number given and the source path and file access left out.
- WholeConfigRoundTrips: prints no comments or blank lines, and needs texts without quotes and newlines, which the tokenizer cannot carry; monitor bindings are printed in the form the parser keeps them (`AppendKeepsClean`); the general mode is checked by the parser but kept nowhere, so any valid one is printed.
- White space above U+00FF, which the Rust predicates also recognise, does not count as white space here.
- The global flag that tells the rest of the daemon whether a Win key is held, the repeat loop's thread and its delays; the repeating command itself is modelled.
- Floating-point code: overview zoom and scaling, discovery footprints and easing.
- TabsCoverColumn: is stated for columns whose segments stay inside the 32-bit range, where no coordinate saturates.
- ColumnsAreDisjoint: and the other exact positions are stated within explicit coordinate bounds (`Fits`), because the source's cursors wrap outside them.
- InsertBeforeFocusKeepsPicture: is stated within the same bounds before and after the insertion.
- MaximizedInsertionShifts: is stated within the same bounds before and after the insertion.
- HeightsNearlyFill: excludes columns whose desired heights add up to more than the largest u32, where the source's own sum wraps.
- TileIsExact: is stated within the same bounds as `ColumnsAreDisjoint`.
- FloatingRectFits: is stated for work areas whose edges and margin fit 32 bits, where no edge saturates.
- DestroyOutcome: is stated for workspace sets in the form normalisation leaves behind and without workspace names; none of the modelled events names a workspace.
