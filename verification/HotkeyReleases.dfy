// Exactly when the shell sees the release of a key, over traces with auto-repeats of that key, resets and all.
module HotkeyReleases {
  import opened Wrappers
  import opened MachineInt
  import opened Hotkeys
  import opened HotkeyProofs

  // ---- points of a trace -----------------------------------------------------------------------

  function DecisionAt(m: Machine, events: seq<KeyEvent>, i: nat): Decision
    requires i < |events|
  {
    Step(StateAt(m, events, i), events[i]).1
  }

  /** The state is not reset by event p or any later one. */
  ghost predicate NoResetFrom(m: Machine, events: seq<KeyEvent>, p: nat) {
    forall j :: p <= j < |events| ==> !IsReset(DecisionAt(m, events, j))
  }

  /** Event i is a press or repeat of k that was answered by a replay. */
  ghost predicate ReplayedAt(m: Machine, events: seq<KeyEvent>, k: Vk, i: nat) {
    i < |events| && events[i].Downs(k) && DecisionAt(m, events, i).replay.Some?
  }

  /** A trigger with primary key k is armed at point p: from the start, or fired by the event before. */
  ghost predicate ArmedAt(m: Machine, events: seq<KeyEvent>, k: Vk, p: nat) {
    && p <= |events|
    && StateAt(m, events, p).IsPrimary(k)
    && (p == 0 || (events[p - 1].Downs(k) && DecisionAt(m, events, p - 1).command.Some?))
  }

  /** From point p on the modifiers of t stay down and no command runs. */
  ghost predicate KeptAlone(m: Machine, events: seq<KeyEvent>, t: Trigger, p: nat) {
    && (forall n :: p <= n <= |events| ==> Covers(StateAt(m, events, n).pressed, t.requiredModifiers))
    && (forall j :: p <= j < |events| ==> DecisionAt(m, events, j).command.None?)
  }

  ghost predicate HeldFrom(m: Machine, events: seq<KeyEvent>, k: Vk, p: nat) {
    ArmedAt(m, events, k, p) && KeptAlone(m, events, StateAt(m, events, p).active.value, p)
  }

  lemma StateAtFront(m: Machine, events: seq<KeyEvent>, n: nat)
    requires n < |events|
    ensures StateAt(m, events[..|events| - 1], n) == StateAt(m, events, n)
    ensures n < |events| - 1 ==> DecisionAt(m, events[..|events| - 1], n) == DecisionAt(m, events, n)
  {
    assert events[..|events| - 1][..n] == events[..n];
  }

  lemma StateAtEnds(m: Machine, events: seq<KeyEvent>)
    ensures StateAt(m, events, 0) == m && StateAt(m, events, |events|) == Run(m, events).0
    ensures events != [] ==>
              && StateAt(m, events, |events| - 1) == Run(m, events[..|events| - 1]).0
              && Run(m, events).0 == Step(StateAt(m, events, |events| - 1), events[|events| - 1]).0
  {
    hide Step;
    assert events[..|events|] == events;
  }

  /** `DecisionAt` is the decision the run makes. */
  lemma {:induction false} DecisionsOfRun(m: Machine, events: seq<KeyEvent>, i: nat)
    requires i < |events|
    ensures Run(m, events).1[i] == DecisionAt(m, events, i)
  {
    hide Step;
    RunPrefix(m, events, i + 1);
    assert Run(m, events).1[i] == Run(m, events).1[..i + 1][i] == Run(m, events[..i + 1]).1[i];
    assert events[..i + 1][..i] == events[..i];
  }

  // ---- one event -------------------------------------------------------------------------------

  /** The releases owed for a plain key change only with a reset or a replay of that key. */
  lemma StepOwes(m: Machine, e: KeyEvent, k: Vk)
    requires Safe(m) && IsPlain(k) && !e.Ups(k)
    ensures (
      k in Step(m, e).0.releases <==>
      !IsReset(Step(m, e).1) && (k in m.releases || (e.Downs(k) && Step(m, e).1.replay.Some?)))
  {
  }

  lemma StepCannotActivate(m: Machine, e: KeyEvent, k: Vk)
    requires !m.IsPrimary(k)
    ensures Step(m, e).0.IsPrimary(k) ==> e.Downs(k) && Step(m, e).1.command.Some?
  {
  }

  lemma StepActivates(m: Machine, e: KeyEvent)
    requires Step(m, e).1.command.Some?
    ensures e.Downs(e.vk) && Step(m, e).0.IsPrimary(e.vk)
  {
  }

  ghost predicate IsActive(m: Machine, t: Trigger) { m.active == Some(t) }

  /** A trigger survives an event exactly when its modifiers stay down and no command runs. */
  lemma TriggerSurvivesStep(m: Machine, e: KeyEvent, t: Trigger)
    requires Safe(m) && IsActive(m, t) && !e.Ups(t.primaryKey)
    ensures Step(m, e).0.IsPrimary(t.primaryKey) ==> IsActive(Step(m, e).0, t)
    ensures IsActive(Step(m, e).0, t) <==> Step(m, e).1.command.None? && Covers(Step(m, e).0.pressed, t.requiredModifiers)
  {
    if e.Real() && IsKeyDown(e.message) {
      CoversMore(m.pressed, m.pressed + {e.vk}, t.requiredModifiers);
    }
  }

  lemma UpOfPlain(m: Machine, up: KeyEvent)
    requires Safe(m) && IsPlain(up.vk) && up.Ups(up.vk)
    ensures Step(m, up).1.suppress <==> up.vk in m.releases || m.IsPrimary(up.vk)
  {
  }

  // ---- whole traces ----------------------------------------------------------------------------

  lemma NoResetFromFront(m: Machine, events: seq<KeyEvent>, p: nat)
    requires p < |events|
    ensures (
      NoResetFrom(m, events, p) <==>
      NoResetFrom(m, events[..|events| - 1], p) && !IsReset(DecisionAt(m, events, |events| - 1)))
  {
    hide DecisionAt, IsReset;
    var front := events[..|events| - 1];
    if NoResetFrom(m, events, p) {
      assert !IsReset(DecisionAt(m, events, |front|));
      forall j: nat | p <= j < |front|
        ensures !IsReset(DecisionAt(m, front, j))
      {
        StateAtFront(m, events, j);
        assert !IsReset(DecisionAt(m, events, j));
      }
    }
    if NoResetFrom(m, front, p) && !IsReset(DecisionAt(m, events, |front|)) {
      forall j: nat | p <= j < |events|
        ensures !IsReset(DecisionAt(m, events, j))
      {
        if j < |front| {
          StateAtFront(m, events, j);
          assert !IsReset(DecisionAt(m, front, j));
        }
      }
    }
  }

  /** What is owed at the end: what was owed at the start or came from a replay, unless a reset wiped it out. */
  lemma {:induction false} RunOwes(m: Machine, events: seq<KeyEvent>, k: Vk)
    requires Safe(m) && IsPlain(k) && NeverReleased(events, k)
    ensures (
      k in Run(m, events).0.releases <==>
      (k in m.releases && NoResetFrom(m, events, 0))
      || exists i :: ReplayedAt(m, events, k, i) && NoResetFrom(m, events, i))
  {
    StateAtEnds(m, events);
    if events != [] {
      var front, e := events[..|events| - 1], events[|events| - 1];
      RunOwes(m, front, k);
      RunIsSafe(m, front);
      StepOwes(Run(m, front).0, e, k);
      OwedByFront(m, events, k);
      hide Step, NoResetFrom, ReplayedAt;
    }
  }

  lemma OwedByFront(m: Machine, events: seq<KeyEvent>, k: Vk)
    requires events != []
    ensures var front := events[..|events| - 1];
            var last := DecisionAt(m, events, |events| - 1);
            && (NoResetFrom(m, events, 0) <==> NoResetFrom(m, front, 0) && !IsReset(last))
            && ((exists i :: ReplayedAt(m, events, k, i) && NoResetFrom(m, events, i)) <==>
                  !IsReset(last)
                  && ((events[|events| - 1].Downs(k) && last.replay.Some?)
                      || exists i :: ReplayedAt(m, front, k, i) && NoResetFrom(m, front, i)))
  {
    hide Step, IsReset, StateAt;
    var front := events[..|events| - 1];
    var last := DecisionAt(m, events, |events| - 1);
    forall i: nat | i < |events|
      ensures NoResetFrom(m, events, i) <==> NoResetFrom(m, front, i) && !IsReset(last)
      ensures i < |front| ==> (ReplayedAt(m, events, k, i) <==> ReplayedAt(m, front, k, i))
    {
      NoResetFromFront(m, events, i);
      StateAtFront(m, events, i);
    }
    assert NoResetFrom(m, front, |front|);
    assert ReplayedAt(m, events, k, |front|) <==> events[|front|].Downs(k) && last.replay.Some?;
    hide DecisionAt, NoResetFrom;
  }

  lemma KeptAloneFront(m: Machine, events: seq<KeyEvent>, t: Trigger, p: nat)
    requires p < |events|
    ensures (
      KeptAlone(m, events, t, p) <==>
      && KeptAlone(m, events[..|events| - 1], t, p)
      && Covers(Run(m, events).0.pressed, t.requiredModifiers)
      && DecisionAt(m, events, |events| - 1).command.None?)
  {
    hide Run, StateAt, DecisionAt, Covers;
    var front := events[..|events| - 1];
    StateAtEnds(m, events);
    if KeptAlone(m, events, t, p) {
      assert Covers(StateAt(m, events, |events|).pressed, t.requiredModifiers);
      forall n: nat | p <= n <= |front|
        ensures Covers(StateAt(m, front, n).pressed, t.requiredModifiers)
        ensures n < |front| ==> DecisionAt(m, front, n).command.None?
      {
        StateAtFront(m, events, n);
        assert Covers(StateAt(m, events, n).pressed, t.requiredModifiers);
      }
    } else if KeptAlone(m, front, t, p)
              && Covers(Run(m, events).0.pressed, t.requiredModifiers) && DecisionAt(m, events, |events| - 1).command.None? {
      forall n: nat | p <= n <= |events|
        ensures Covers(StateAt(m, events, n).pressed, t.requiredModifiers)
        ensures n < |events| ==> DecisionAt(m, events, n).command.None?
      {
        if n <= |front| {
          StateAtFront(m, events, n);
          assert Covers(StateAt(m, front, n).pressed, t.requiredModifiers);
        }
      }
    }
  }

  /** A trigger armed at p and kept alone is the active one at the end. */
  lemma {:induction false} HeldIsActive(m: Machine, events: seq<KeyEvent>, k: Vk, p: nat)
    requires Safe(m) && NeverReleased(events, k) && HeldFrom(m, events, k, p)
    ensures IsActive(Run(m, events).0, StateAt(m, events, p).active.value)
  {
    StateAtEnds(m, events);
    if p < |events| {
      var front, e := events[..|events| - 1], events[|events| - 1];
      var t := StateAt(m, events, p).active.value;
      StateAtFront(m, events, p);
      KeptAloneFront(m, events, t, p);
      if p > 0 {
        StateAtFront(m, events, p - 1);
      }
      hide Step, StateAt, KeptAlone, Covers;
      HeldIsActive(m, front, k, p);
      RunIsSafe(m, front);
      TriggerSurvivesStep(Run(m, front).0, e, t);
    }
  }

  /** The other way: an active trigger was armed at some point and kept alone since. */
  lemma {:induction false} ActiveWasHeld(m: Machine, events: seq<KeyEvent>, k: Vk) returns (p: nat)
    requires Safe(m) && NeverReleased(events, k) && Run(m, events).0.IsPrimary(k)
    ensures HeldFrom(m, events, k, p)
  {
    StateAtEnds(m, events);
    if events == [] {
      p := 0;
      RunIsSafe(m, events);
    } else {
      var front, e := events[..|events| - 1], events[|events| - 1];
      var before := Run(m, front).0;
      RunIsSafe(m, front);
      if before.IsPrimary(k) {
        p := ActiveWasHeld(m, front, k);
        HeldIsActive(m, front, k, p);
        StateAtFront(m, events, p);
        if p > 0 {
          StateAtFront(m, events, p - 1);
        }
        var t := StateAt(m, events, p).active.value;
        TriggerSurvivesStep(before, e, t);
        KeptAloneFront(m, events, t, p);
        hide Step, StateAt, KeptAlone, Covers;
      } else {
        StepCannotActivate(before, e, k);
        RunIsSafe(m, events);
        p := |events|;
        hide Step;
      }
    }
  }

  lemma PrimaryWasHeld(m: Machine, events: seq<KeyEvent>, k: Vk)
    requires Safe(m) && NeverReleased(events, k)
    ensures Run(m, events).0.IsPrimary(k) <==> exists p :: HeldFrom(m, events, k, p)
  {
    hide Step, HeldFrom;
    if Run(m, events).0.IsPrimary(k) {
      var p := ActiveWasHeld(m, events, k);
    }
    forall p: nat | HeldFrom(m, events, k, p)
      ensures Run(m, events).0.IsPrimary(k)
    {
      HeldIsActive(m, events, k, p);
      HeldIsArmed(m, events, k, p);
    }
  }

  /**
   * The next release of a plain key is swallowed exactly when a release was owed for it, or a press or repeat of it
   * was replayed to the shell, both since the last reset; or a trigger of it was kept alone since it fired.
   */
  lemma ReleaseIsSwallowed(m: Machine, k: Vk, events: seq<KeyEvent>, up: KeyEvent)
    requires Safe(m) && IsPlain(k) && NeverReleased(events, k) && up.Ups(k)
    ensures (
      Step(Run(m, events).0, up).1.suppress <==>
      (k in m.releases && NoResetFrom(m, events, 0))
      || (exists i :: ReplayedAt(m, events, k, i) && NoResetFrom(m, events, i))
      || (exists p :: HeldFrom(m, events, k, p)))
  {
    hide Step, HeldFrom, ReplayedAt, NoResetFrom;
    RunOwes(m, events, k);
    RunIsSafe(m, events);
    UpOfPlain(Run(m, events).0, up);
    PrimaryWasHeld(m, events, k);
  }

  lemma HeldIsArmed(m: Machine, events: seq<KeyEvent>, k: Vk, p: nat)
    requires HeldFrom(m, events, k, p)
    ensures p <= |events| && StateAt(m, events, p).IsPrimary(k)
  {
    hide KeptAlone;
  }

  // ---- repeats outside a prefix ------------------------------------------------------------------

  /** No press or repeat of k arrives while a Win prefix is pending. */
  ghost predicate NeverInPrefix(m: Machine, events: seq<KeyEvent>, k: Vk) {
    forall i :: 0 <= i < |events| && events[i].Downs(k) ==> StateAt(m, events, i).pending.None?
  }

  lemma RepeatDoesNothing(m: Machine, e: KeyEvent, k: Vk)
    requires e.Downs(k) && k in m.pressed && m.pending.None?
    ensures Step(m, e).1.command.None? && Step(m, e).1.replay.None?
  {
  }

  lemma {:induction false} StaysPressed(m: Machine, events: seq<KeyEvent>, k: Vk, i: nat)
    requires k in m.pressed && NeverReleased(events, k) && NoResetFrom(m, events, 0) && i <= |events|
    ensures k in StateAt(m, events, i).pressed
    decreases i
  {
    if i == 0 {
      assert events[..0] == [];
    } else {
      StaysPressed(m, events, k, i - 1);
      assert events[..i][..i - 1] == events[..i - 1];
      assert !IsReset(DecisionAt(m, events, i - 1));
      PressedAfterStep(StateAt(m, events, i - 1), events[i - 1], k);
      hide Step;
    }
  }

  /** Without a repeat during a prefix, a key held down is neither replayed nor fired again. */
  lemma OutsidePrefixNothingHappens(m: Machine, events: seq<KeyEvent>, k: Vk)
    requires k in m.pressed && NeverReleased(events, k) && NoResetFrom(m, events, 0) && NeverInPrefix(m, events, k)
    ensures forall i :: !ReplayedAt(m, events, k, i)
    ensures forall p :: HeldFrom(m, events, k, p) ==> p == 0
  {
    hide Step, StateAt, KeptAlone;
    forall i: nat | i < |events| && events[i].Downs(k)
      ensures DecisionAt(m, events, i).command.None? && DecisionAt(m, events, i).replay.None?
    {
      StaysPressed(m, events, k, i);
      RepeatDoesNothing(StateAt(m, events, i), events[i], k);
    }
    hide DecisionAt;
  }

  // ---- a press the shell saw ---------------------------------------------------------------------

  lemma PassLeavesSets(m: Machine, down: KeyEvent)
    requires Safe(m) && down.Downs(down.vk) && !Step(m, down).1.suppress
    ensures var after := Step(m, down).0;
            after.releases == m.releases && !after.IsPrimary(down.vk) && down.vk in after.pressed
  {
  }

  /**
   * A plain key whose press the shell saw: its release is swallowed, and the key stuck for the shell, exactly when
   * a release of it was still owed, a repeat was replayed, or a repeat fired a trigger that was kept alone since.
   * Repeats outside a Win prefix change nothing: then an owed release is the only cause.
   */
  lemma PassedKeyReleases(m: Machine, down: KeyEvent, events: seq<KeyEvent>, up: KeyEvent)
    requires Safe(m) && IsPlain(down.vk) && down.Downs(down.vk) && !Step(m, down).1.suppress
    requires NeverReleased(events, down.vk) && up.Ups(down.vk)
    ensures var k, after := down.vk, Step(m, down).0;
            var swallowed := Step(Run(after, events).0, up).1.suppress;
            && (swallowed <==>
                  (k in m.releases && NoResetFrom(after, events, 0))
                  || (exists i :: ReplayedAt(after, events, k, i) && NoResetFrom(after, events, i))
                  || (exists p :: 0 < p && HeldFrom(after, events, k, p)))
            && (NoResetFrom(after, events, 0) && NeverInPrefix(after, events, k) ==> (swallowed <==> k in m.releases))
  {
    var k, after := down.vk, Step(m, down).0;
    StepIsSafe(m, down);
    PassLeavesSets(m, down);
    hide Step;
    ReleaseIsSwallowed(after, k, events, up);
    StateAtEnds(after, events);
    if NoResetFrom(after, events, 0) && NeverInPrefix(after, events, k) {
      OutsidePrefixNothingHappens(after, events, k);
    }
    forall p | HeldFrom(after, events, k, p)
      ensures 0 < p
    {
      HeldIsArmed(after, events, k, p);
    }
    hide HeldFrom, ReplayedAt, NoResetFrom, NeverInPrefix;
  }

  /** A repeat of a plain key that fired again: its release is swallowed exactly when it is owed or the new trigger was kept alone. */
  lemma RefiredTriggerDecides(m: Machine, k: Vk, events: seq<KeyEvent>, i: nat, up: KeyEvent)
    requires Safe(m) && IsPlain(k) && NeverReleased(events, k) && up.Ups(k)
    requires i < |events| && events[i].Downs(k) && DecisionAt(m, events, i).command.Some?
    requires forall j :: i < j < |events| && events[j].Downs(k) ==> DecisionAt(m, events, j).replay.None? && DecisionAt(m, events, j).command.None?
    requires NoResetFrom(m, events, i + 1)
    ensures (
      Step(Run(m, events).0, up).1.suppress <==>
      k in StateAt(m, events, i + 1).releases || HeldFrom(m, events, k, i + 1))
  {
    hide Step, StateAt, HeldFrom, NoResetFrom;
    RunIsSafe(m, events);
    UpOfPlain(Run(m, events).0, up);
    PrimaryWasHeld(m, events, k);
    OwedSince(m, events, k, i + 1);
    HeldSince(m, events, k, i + 1);
  }

  lemma HeldSince(m: Machine, events: seq<KeyEvent>, k: Vk, i: nat)
    requires Safe(m) && 0 < i <= |events| && events[i - 1].Downs(k) && DecisionAt(m, events, i - 1).command.Some?
    requires forall j :: i <= j < |events| && events[j].Downs(k) ==> DecisionAt(m, events, j).command.None?
    ensures (exists p :: HeldFrom(m, events, k, p)) <==> HeldFrom(m, events, k, i)
  {
    hide Step, StateAt, IsReset;
    forall p: nat | HeldFrom(m, events, k, p)
      ensures p == i
    {
      if p < i {
        assert false;
      }
    }
  }

  lemma {:induction false} OwedSince(m: Machine, events: seq<KeyEvent>, k: Vk, i: nat)
    requires Safe(m) && IsPlain(k) && NeverReleased(events, k) && i <= |events| && NoResetFrom(m, events, i)
    requires forall j :: i <= j < |events| && events[j].Downs(k) ==> DecisionAt(m, events, j).replay.None?
    ensures k in Run(m, events).0.releases <==> k in StateAt(m, events, i).releases
  {
    StateAtEnds(m, events);
    if i < |events| {
      var front, e := events[..|events| - 1], events[|events| - 1];
      NoResetFromFront(m, events, i);
      StateAtFront(m, events, i);
      forall j: nat | i <= j < |front|
        ensures DecisionAt(m, front, j) == DecisionAt(m, events, j) && front[j] == events[j]
      {
        StateAtFront(m, events, j);
      }
      OwedSince(m, front, k, i);
      RunIsSafe(m, front);
      assert !IsReset(DecisionAt(m, events, |events| - 1));
      StepOwes(Run(m, front).0, e, k);
      hide Step;
    }
  }

  // ---- the release of a trigger key ----------------------------------------------------------------

  /**
   * The release of a plain trigger key is swallowed exactly when a release was owed or a repeat replayed since the last
   * reset, or the trigger, or one fired later by a repeat, was kept alone; otherwise the shell sees a release without
   * a press. Without repeats during a Win prefix only the first trigger and what was owed matter.
   */
  lemma TriggerReleaseIsSwallowed(m: Machine, t: Trigger, events: seq<KeyEvent>, up: KeyEvent)
    requires Safe(m) && IsActive(m, t) && IsPlain(t.primaryKey)
    requires NeverReleased(events, t.primaryKey) && up.Ups(t.primaryKey)
    ensures var k := t.primaryKey;
            var swallowed := Step(Run(m, events).0, up).1.suppress;
            && (swallowed <==>
                  (k in m.releases && NoResetFrom(m, events, 0))
                  || (exists i :: ReplayedAt(m, events, k, i) && NoResetFrom(m, events, i))
                  || KeptAlone(m, events, t, 0)
                  || (exists p :: 0 < p && HeldFrom(m, events, k, p)))
            && (NoResetFrom(m, events, 0) && NeverInPrefix(m, events, k) ==>
                  (swallowed <==> k in m.releases || KeptAlone(m, events, t, 0)))
  {
    var k := t.primaryKey;
    hide Step;
    ReleaseIsSwallowed(m, k, events, up);
    StateAtEnds(m, events);
    assert HeldFrom(m, events, k, 0) <==> KeptAlone(m, events, t, 0);
    if NoResetFrom(m, events, 0) && NeverInPrefix(m, events, k) {
      OutsidePrefixNothingHappens(m, events, k);
    }
    hide HeldFrom, ReplayedAt, NoResetFrom, NeverInPrefix, KeptAlone;
  }

  // ---- releases left behind by a replay --------------------------------------------------------------

  /**
   * The release of a replayed key always leaves a release owed, because the test that clears `suppressed_held_keys`
   * stops before `suppressed_key_releases`. So the next press of it that the shell sees is never released for it.
   */
  lemma ReplayedKeySticksNext(m: Machine, k: Vk, up: KeyEvent, between: seq<KeyEvent>, down: KeyEvent, repeats: seq<KeyEvent>, up': KeyEvent)
    requires Safe(m) && IsPlain(k) && k in m.held && up.Ups(k)
    requires NeverReleased(between, k) && NoResetFrom(Step(m, up).0, between, 0)
    requires var pressed := Run(Step(m, up).0, between).0;
             down.Downs(k) && !Step(pressed, down).1.suppress
             && NeverReleased(repeats, k) && NoResetFrom(Step(pressed, down).0, repeats, 0)
    requires up'.Ups(k)
    ensures var after := Step(Run(Step(m, up).0, between).0, down).0;
            Step(Run(after, repeats).0, up').1.suppress
  {
    ReplayLeavesStaleRelease(m, up);
    StepIsSafe(m, up);
    var lifted := Step(m, up).0;
    hide Step;
    RunOwes(lifted, between, k);
    RunIsSafe(lifted, between);
    PassedKeyReleases(Run(lifted, between).0, down, repeats, up');
  }

  lemma ReplayLeavesStaleRelease(m: Machine, up: KeyEvent)
    requires Safe(m) && up.Ups(up.vk) && up.vk in m.held
    ensures up.vk in Step(m, up).0.releases
  {
  }

  /** Win held, K pressed and released, Win released, K tapped: the second K never comes up. */
  lemma StaleReleaseExample()
    ensures var registrations := [Registration(OneShot("focus-next"), MOD_WIN, 0x4A)];
            var events := [
              KeyEvent(VK_LWIN, WM_KEYDOWN, false), KeyEvent(0x4B, WM_KEYDOWN, false),
              KeyEvent(0x4B, WM_KEYUP, false), KeyEvent(VK_LWIN, WM_KEYUP, false),
              KeyEvent(0x4B, WM_KEYDOWN, false), KeyEvent(0x4B, WM_KEYUP, false)];
            var decisions := Run(Start(registrations), events).1;
            && decisions[1].replay == Some(ReplayWinChord(VK_LWIN, [], 0x4B))
            && decisions[4] == PASS
            && decisions[5] == SWALLOW
  {
    var k: Vk := 0x4B;
    var registrations := [Registration(OneShot("focus-next"), MOD_WIN, 0x4A)];
    var m0 := Start(registrations);
    var win, tap, lift, unwin :=
      KeyEvent(VK_LWIN, WM_KEYDOWN, false), KeyEvent(k, WM_KEYDOWN, false),
      KeyEvent(k, WM_KEYUP, false), KeyEvent(VK_LWIN, WM_KEYUP, false);
    var m1 := m0.(pressed := {VK_LWIN}, pending := Some(VK_LWIN));
    var m2 := Machine(registrations, {VK_LWIN, k}, None, None, {k}, {VK_LWIN, k});
    var m3 := m2.(pressed := {VK_LWIN}, held := {});
    var m4 := m3.(pressed := {}, releases := {k});
    ExampleOpens(registrations);
    ExampleReleases(registrations);
    var m5 := m4.(pressed := {k});
    ExampleTaps(registrations);
    hide Step;
    RunTwoMore(m0, [], m0, [], win, tap);
    RunTwoMore(m0, [] + [win, tap], m2, [] + [Step(m0, win).1, Step(m1, tap).1], lift, unwin);
    RunTwoMore(m0, [] + [win, tap] + [lift, unwin], m4,
               [] + [Step(m0, win).1, Step(m1, tap).1] + [Step(m2, lift).1, Step(m3, unwin).1], tap, lift);
    assert [] + [win, tap] + [lift, unwin] + [tap, lift] == [win, tap, lift, unwin, tap, lift];
  }

  lemma RunTwoMore(m: Machine, events: seq<KeyEvent>, before: Machine, decisions: seq<Decision>, e: KeyEvent, f: KeyEvent)
    requires Run(m, events) == (before, decisions)
    ensures var (middle, d) := Step(before, e);
            var (after, d') := Step(middle, f);
            Run(m, events + [e, f]) == (after, decisions + [d, d'])
  {
    hide Step;
    RunSnoc(m, events, e);
    RunSnoc(m, events + [e], f);
    assert events + [e] + [f] == events + [e, f];
    var (middle, d) := Step(before, e);
    assert decisions + [d] + [Step(middle, f).1] == decisions + [d, Step(middle, f).1];
  }

  lemma ExampleOpens(registrations: seq<Registration>)
    requires registrations == [Registration(OneShot("focus-next"), MOD_WIN, 0x4A)]
    ensures Step(Start(registrations), KeyEvent(VK_LWIN, WM_KEYDOWN, false))
         == (Start(registrations).(pressed := {VK_LWIN}, pending := Some(VK_LWIN)), SWALLOW)
    ensures Step(Start(registrations).(pressed := {VK_LWIN}, pending := Some(VK_LWIN)), KeyEvent(0x4B, WM_KEYDOWN, false))
         == (Machine(registrations, {VK_LWIN, 0x4B}, None, None, {0x4B}, {VK_LWIN, 0x4B}),
             Decision(None, true, Some(ReplayWinChord(VK_LWIN, [], 0x4B))))
  {
    var pressed: set<Vk> := {VK_LWIN};
    assert {} + {VK_LWIN} == pressed;
    OnlyWin(pressed);
    assert registrations[0].requiredModifiers == MOD_WIN;
    var both: set<Vk> := {VK_LWIN, 0x4B};
    assert pressed + {0x4B} == both;
    OnlyWin(both);
    assert FindFrom(registrations, 0, 0x4B, MOD_WIN) == FindFrom(registrations, 1, 0x4B, MOD_WIN);
    NoModifiers(MODIFIER_KEYS, both, VK_LWIN);
    assert ModifiersOf(both, VK_LWIN) == {};
    assert {} + {0x4B} + {VK_LWIN} + {} == both;
    assert {} + {0x4B} == {0x4B as Vk};
  }

  lemma ExampleReleases(registrations: seq<Registration>)
    ensures Step(Machine(registrations, {VK_LWIN, 0x4B}, None, None, {0x4B}, {VK_LWIN, 0x4B}), KeyEvent(0x4B, WM_KEYUP, false))
         == (Machine(registrations, {VK_LWIN}, None, None, {}, {VK_LWIN, 0x4B}), SWALLOW)
    ensures Step(Machine(registrations, {VK_LWIN}, None, None, {}, {VK_LWIN, 0x4B}), KeyEvent(VK_LWIN, WM_KEYUP, false))
         == (Machine(registrations, {}, None, None, {}, {0x4B}), SWALLOW)
  {
    var both: set<Vk> := {VK_LWIN, 0x4B};
    assert both - {0x4B} == {VK_LWIN} && both - {VK_LWIN} == {0x4B};
    assert {VK_LWIN} - {VK_LWIN} == {} && {0x4B} - {0x4B} == {};
    assert {} - {VK_LWIN} == {};
  }

  lemma ExampleTaps(registrations: seq<Registration>)
    requires registrations == [Registration(OneShot("focus-next"), MOD_WIN, 0x4A)]
    ensures Step(Machine(registrations, {}, None, None, {}, {0x4B}), KeyEvent(0x4B, WM_KEYDOWN, false))
         == (Machine(registrations, {0x4B}, None, None, {}, {0x4B}), PASS)
    ensures Step(Machine(registrations, {0x4B}, None, None, {}, {0x4B}), KeyEvent(0x4B, WM_KEYUP, false)).1 == SWALLOW
  {
    var mask := ActiveMask({0x4B});
    assert {} + {0x4B} == {0x4B as Vk};
    assert FindFrom(registrations, 0, 0x4B, mask) == FindFrom(registrations, 1, 0x4B, mask);
  }

  lemma OnlyWin(pressed: set<Vk>)
    requires VK_LWIN in pressed && forall k :: k in pressed ==> IsWin(k) || IsPlain(k)
    ensures ActiveMask(pressed) == MOD_WIN
  {
    assert IsWin(VK_LWIN);
  }

  lemma NoModifiers(keys: seq<Vk>, pressed: set<Vk>, winVk: Vk)
    requires forall k :: k in keys ==> IsPendingModifier(k)
    requires forall k :: k in pressed ==> !IsPendingModifier(k)
    ensures PressedFrom(keys, pressed, winVk) == []
  {
  }

  // Two ways a repeat during a prefix decides: a replay after a press that passed, and a trigger fired again.

  lemma RunOneMore(m: Machine, events: seq<KeyEvent>, before: Machine, decisions: seq<Decision>, e: KeyEvent, after: Machine, d: Decision)
    requires Run(m, events) == (before, decisions) && Step(before, e) == (after, d)
    ensures Run(m, events + [e]) == (after, decisions + [d])
  {
    hide Step;
    RunSnoc(m, events, e);
  }

  /** K pressed, Win pressed, K repeated: the shell saw K go down, nothing was owed, and K never comes up. */
  lemma ReplayedRepeatExample()
    ensures var events := [
              KeyEvent(0x4B, WM_KEYDOWN, false), KeyEvent(VK_LWIN, WM_KEYDOWN, false),
              KeyEvent(0x4B, WM_KEYDOWN, false), KeyEvent(0x4B, WM_KEYUP, false)];
            var decisions := Run(Start(EXAMPLE), events).1;
            && decisions[0] == PASS
            && decisions[2].replay == Some(ReplayWinChord(VK_LWIN, [], 0x4B))
            && decisions[3] == SWALLOW
  {
    var press, win, lift := KeyEvent(0x4B, WM_KEYDOWN, false), KeyEvent(VK_LWIN, WM_KEYDOWN, false), KeyEvent(0x4B, WM_KEYUP, false);
    var m0 := Start(EXAMPLE);
    var m1 := m0.(pressed := {0x4B});
    var m2 := m1.(pressed := {0x4B, VK_LWIN}, pending := Some(VK_LWIN));
    var m3 := m2.(pending := None, held := {0x4B}, releases := {0x4B, VK_LWIN});
    var replayed := Decision(None, true, Some(ReplayWinChord(VK_LWIN, [], 0x4B)));
    assert Step(m0, press) == (m1, PASS) by { assert {} + {0x4B} == {0x4B as Vk}; UnregisteredKey({0x4B}); }
    assert Step(m1, win) == (m2, SWALLOW) by { PrefixOpens(m1); assert m1.pressed + {VK_LWIN} == m2.pressed; }
    assert Step(m2, press) == (m3, replayed) by { PrefixReplays(m2); }
    var m4 := Step(m3, lift).0;
    assert Step(m3, lift) == (m4, SWALLOW);
    hide Step;
    RunOneMore(m0, [], m0, [], press, m1, PASS);
    RunOneMore(m0, [] + [press], m1, [] + [PASS], win, m2, SWALLOW);
    RunOneMore(m0, [] + [press] + [win], m2, [] + [PASS] + [SWALLOW], press, m3, replayed);
    RunOneMore(m0, [] + [press] + [win] + [press], m3, [] + [PASS] + [SWALLOW] + [replayed], lift, m4, SWALLOW);
    assert [] + [press] + [win] + [press] + [lift] == [press, win, press, lift];
  }

  const EXAMPLE: seq<Registration> := [Registration(OneShot("focus-next"), MOD_WIN, 0x4A)]

  lemma UnregisteredKey(pressed: set<Vk>)
    ensures FindFrom(EXAMPLE, 0, 0x4B, ActiveMask(pressed)) == None
  {
    hide ActiveMask;
    assert FindFrom(EXAMPLE, 1, 0x4B, ActiveMask(pressed)) == None;
  }

  /** A Win key pressed while only plain keys are down opens a prefix. */
  lemma PrefixOpens(m: Machine)
    requires m.registrations == EXAMPLE && m.active.None? && m.pending.None? && VK_LWIN !in m.pressed
    requires forall k :: k in m.pressed ==> IsPlain(k)
    ensures Step(m, KeyEvent(VK_LWIN, WM_KEYDOWN, false)) == (m.(pressed := m.pressed + {VK_LWIN}, pending := Some(VK_LWIN)), SWALLOW)
  {
    OnlyWin(m.pressed + {VK_LWIN});
    assert EXAMPLE[0].requiredModifiers == MOD_WIN;
    hide ActiveMask;
  }

  lemma PrefixReplays(m: Machine)
    requires m.registrations == EXAMPLE && m.pending == Some(VK_LWIN) && m.pressed == {0x4B, VK_LWIN}
    requires m.held == {} && m.releases == {}
    ensures Step(m, KeyEvent(0x4B, WM_KEYDOWN, false)) ==
              (m.(pending := None, held := {0x4B}, releases := {0x4B, VK_LWIN}),
               Decision(None, true, Some(ReplayWinChord(VK_LWIN, [], 0x4B))))
  {
    assert m.pressed + {0x4B} == m.pressed;
    OnlyWin(m.pressed);
    UnregisteredKey(m.pressed);
    NoModifiers(MODIFIER_KEYS, m.pressed, VK_LWIN);
    assert ModifiersOf(m.pressed, VK_LWIN) == {};
    assert {} + {0x4B} + {VK_LWIN} + {} == {0x4B, VK_LWIN};
    assert {} + {0x4B} == {0x4B as Vk};
  }

  lemma PrefixFires(m: Machine)
    requires m.registrations == EXAMPLE && m.pending == Some(VK_LWIN) && m.pressed + {0x4A} == {0x4A, VK_LWIN} && m.releases == {}
    ensures Step(m, KeyEvent(0x4A, WM_KEYDOWN, false)) ==
              (m.(pressed := {0x4A, VK_LWIN}, pending := None, active := Some(TriggerFor(EXAMPLE[0], 0x4A)), releases := {VK_LWIN}),
               Decision(Some(OneShot("focus-next")), true, None))
  {
    var pressed := m.pressed + {0x4A};
    OnlyWin(pressed);
    assert FindFrom(EXAMPLE, 0, 0x4A, MOD_WIN) == Some(EXAMPLE[0]);
    assert ModifiersOf(pressed, VK_LWIN) == {};
    assert {} + {VK_LWIN} + {} == {VK_LWIN};
  }

  /** Win+J fires, Win is released and pressed again, the repeat of J fires again: J's release is swallowed after all. */
  lemma RefiredTriggerExample()
    ensures var events := [
              KeyEvent(VK_LWIN, WM_KEYDOWN, false), KeyEvent(0x4A, WM_KEYDOWN, false), KeyEvent(VK_LWIN, WM_KEYUP, false),
              KeyEvent(VK_LWIN, WM_KEYDOWN, false), KeyEvent(0x4A, WM_KEYDOWN, false), KeyEvent(0x4A, WM_KEYUP, false)];
            var decisions := Run(Start(EXAMPLE), events).1;
            && decisions[1].command.Some? && decisions[4].command.Some?
            && StateAt(Start(EXAMPLE), events, 3).active.None?
            && decisions[5] == SWALLOW
  {
    RefiredRun();
    hide Step, Fired, Prefixed, Idle;
    var events := [WIN_DOWN, J_DOWN, WIN_UP, WIN_DOWN, J_DOWN, J_UP];
    assert events[..3] == [WIN_DOWN, J_DOWN, WIN_UP];
  }

  const WIN_DOWN := KeyEvent(VK_LWIN, WM_KEYDOWN, false)
  const WIN_UP := KeyEvent(VK_LWIN, WM_KEYUP, false)
  const J_DOWN := KeyEvent(0x4A, WM_KEYDOWN, false)
  const J_UP := KeyEvent(0x4A, WM_KEYUP, false)

  lemma RefiredRun()
    ensures Run(Start(EXAMPLE), [WIN_DOWN, J_DOWN, WIN_UP]) == (Idle({0x4A}), [SWALLOW, FIRES, SWALLOW])
    ensures Run(Start(EXAMPLE), [WIN_DOWN, J_DOWN, WIN_UP, WIN_DOWN, J_DOWN, J_UP]).1 == [SWALLOW, FIRES, SWALLOW, SWALLOW, FIRES, SWALLOW]
  {
    RefiredSteps();
    var m0, fired, idle, again := Start(EXAMPLE), Fired(), Idle({0x4A}), Prefixed({0x4A, VK_LWIN});
    var m6 := Step(fired, J_UP).0;
    hide Step, Prefixed, Idle, Fired, Start;
    var e1, e2 := [WIN_DOWN, J_DOWN], [WIN_DOWN, J_DOWN, WIN_UP];
    RunOneMore(m0, [], m0, [], WIN_DOWN, Prefixed({VK_LWIN}), SWALLOW);
    RunOneMore(m0, [] + [WIN_DOWN], Prefixed({VK_LWIN}), [] + [SWALLOW], J_DOWN, fired, FIRES);
    assert [] + [WIN_DOWN] + [J_DOWN] == e1 && [] + [SWALLOW] + [FIRES] == [SWALLOW, FIRES];
    RunOneMore(m0, e1, fired, [SWALLOW, FIRES], WIN_UP, idle, SWALLOW);
    assert e1 + [WIN_UP] == e2 && [SWALLOW, FIRES] + [SWALLOW] == [SWALLOW, FIRES, SWALLOW];
    RunOneMore(m0, e2, idle, [SWALLOW, FIRES, SWALLOW], WIN_DOWN, again, SWALLOW);
    RunOneMore(m0, e2 + [WIN_DOWN], again, [SWALLOW, FIRES, SWALLOW] + [SWALLOW], J_DOWN, fired, FIRES);
    RunOneMore(m0, e2 + [WIN_DOWN] + [J_DOWN], fired, [SWALLOW, FIRES, SWALLOW] + [SWALLOW] + [FIRES], J_UP, m6, SWALLOW);
    assert e2 + [WIN_DOWN] + [J_DOWN] + [J_UP] == [WIN_DOWN, J_DOWN, WIN_UP, WIN_DOWN, J_DOWN, J_UP];
  }

  const FIRES := Decision(Some(OneShot("focus-next")), true, None)

  function Idle(pressed: set<Vk>): (m: Machine)
    ensures m.active.None?
  {
    Start(EXAMPLE).(pressed := pressed)
  }

  function Prefixed(pressed: set<Vk>): Machine { Idle(pressed).(pending := Some(VK_LWIN)) }

  function Fired(): Machine {
    Idle({0x4A, VK_LWIN}).(active := Some(TriggerFor(EXAMPLE[0], 0x4A)), releases := {VK_LWIN})
  }

  lemma RefiredSteps()
    ensures Step(Start(EXAMPLE), KeyEvent(VK_LWIN, WM_KEYDOWN, false)) == (Prefixed({VK_LWIN}), SWALLOW)
    ensures Step(Prefixed({VK_LWIN}), KeyEvent(0x4A, WM_KEYDOWN, false)) == (Fired(), FIRES)
    ensures Step(Fired(), KeyEvent(VK_LWIN, WM_KEYUP, false)) == (Idle({0x4A}), SWALLOW)
    ensures Step(Idle({0x4A}), KeyEvent(VK_LWIN, WM_KEYDOWN, false)) == (Prefixed({0x4A, VK_LWIN}), SWALLOW)
    ensures Step(Prefixed({0x4A, VK_LWIN}), KeyEvent(0x4A, WM_KEYDOWN, false)) == (Fired(), FIRES)
    ensures Step(Fired(), KeyEvent(0x4A, WM_KEYUP, false)).1 == SWALLOW
  {
    assert Step(Fired(), KeyEvent(0x4A, WM_KEYUP, false)).1 == SWALLOW;
    WinReleaseDrops(Fired(), TriggerFor(EXAMPLE[0], 0x4A));
    hide Step;
    PrefixOpens(Start(EXAMPLE));
    PrefixOpens(Idle({0x4A}));
    PrefixFires(Prefixed({VK_LWIN}));
    PrefixFires(Prefixed({0x4A, VK_LWIN})) by { assert {0x4A, VK_LWIN} + {0x4A} == {0x4A, VK_LWIN as Vk}; }
    assert {} + {VK_LWIN} == {VK_LWIN};
    assert {0x4A} + {VK_LWIN} == {0x4A, VK_LWIN as Vk};
  }

  lemma WinReleaseDrops(m: Machine, t: Trigger)
    requires m.pressed == {0x4A, VK_LWIN} && m.active == Some(t) && t.primaryKey == 0x4A && t.requiredModifiers == MOD_WIN
    requires m.pending.None? && m.held == {} && m.releases == {VK_LWIN}
    ensures Step(m, KeyEvent(VK_LWIN, WM_KEYUP, false)) == (m.(pressed := {0x4A}, active := None, releases := {}), SWALLOW)
  {
    assert m.pressed - {VK_LWIN} == {0x4A};
    assert !(exists k :: k in {0x4A as Vk} && IsWin(k));
    assert !Covers({0x4A}, MOD_WIN);
    assert {VK_LWIN} - {VK_LWIN} == {} && {} - {VK_LWIN} == {};
  }
}
