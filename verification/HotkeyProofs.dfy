// What the hotkey machine guarantees over arbitrary traces of key events.
module HotkeyProofs {
  import opened Wrappers
  import opened MachineInt
  import opened Hotkeys

  datatype KeyEvent = KeyEvent(vk: Vk, message: u32, injected: bool)
  {
    /** The hook acts on this event. */
    predicate Real() { !injected && IsKeyboardMessage(message) }

    predicate Downs(k: Vk) { Real() && vk == k && IsKeyDown(message) }

    predicate Ups(k: Vk) { Real() && vk == k && !IsKeyDown(message) }

    predicate Concerns(k: Vk) { Real() && vk == k }
  }

  function Step(m: Machine, e: KeyEvent): (Machine, Decision) { m.Handle(e.vk, e.message, e.injected) }

  /** The state and the decisions after a trace; the last event is the outermost step. */
  function Run(m: Machine, events: seq<KeyEvent>): (r: (Machine, seq<Decision>))
    ensures |r.1| == |events|
  {
    if events == [] then (m, [])
    else
      var (before, decisions) := Run(m, events[..|events| - 1]);
      var (after, decision) := Step(before, events[|events| - 1]);
      (after, decisions + [decision])
  }

  function StateAt(m: Machine, events: seq<KeyEvent>, n: nat): Machine
    requires n <= |events|
  {
    Run(m, events[..n]).0
  }

  lemma RunSnoc(m: Machine, events: seq<KeyEvent>, e: KeyEvent)
    ensures var (before, decisions) := Run(m, events);
            Run(m, events + [e]) == (Step(before, e).0, decisions + [Step(before, e).1])
  {
    assert (events + [e])[..|events|] == events;
  }

  lemma {:induction false} RunPrefix(m: Machine, events: seq<KeyEvent>, n: nat)
    requires n <= |events|
    ensures Run(m, events[..n]).1 == Run(m, events).1[..n]
  {
    if n < |events| {
      var front := events[..|events| - 1];
      assert front[..n] == events[..n];
      RunPrefix(m, front, n);
      assert Run(m, events).1[..n] == Run(m, front).1[..n];
    } else {
      assert events[..n] == events;
    }
  }

  /** Neither a Win key nor a modifier. */
  predicate IsPlain(k: Vk) { !IsWin(k) && !IsPendingModifier(k) }

  // ---- safety of the state ---------------------------------------------------------------------

  /** An active trigger is still held with its modifiers; a prefix is held and excludes a trigger. */
  ghost predicate Safe(m: Machine) {
    && (m.active.Some? ==> m.active.value.primaryKey in m.pressed && Covers(m.pressed, m.active.value.requiredModifiers))
    && (m.pending.Some? ==> IsWin(m.pending.value) && m.pending.value in m.pressed && m.active.None?)
    && m.held <= m.releases
  }

  lemma FoundFits(registrations: seq<Registration>, i: nat, key: Vk, mask: Modifiers)
    requires i <= |registrations|
    ensures var found := FindFrom(registrations, i, key, mask);
            && (found.Some? ==> found.value in registrations[i..] && found.value.key == key && found.value.requiredModifiers == mask)
            && (found.None? ==> forall r :: r in registrations[i..] ==> r.key != key || r.requiredModifiers != mask)
    decreases |registrations| - i
  {
    if i < |registrations| {
      FoundFits(registrations, i + 1, key, mask);
      assert registrations[i..] == [registrations[i]] + registrations[i + 1..];
    }
  }

  lemma CoversMore(pressed: set<Vk>, more: set<Vk>, required: Modifiers)
    requires pressed <= more && Covers(pressed, required)
    ensures Covers(more, required)
  {
    var a, b, c, d := exists k :: k in pressed && IsControl(k), exists k :: k in pressed && IsAlt(k),
                      exists k :: k in pressed && IsShift(k), exists k :: k in pressed && IsWin(k);
    var a', b', c', d' := exists k :: k in more && IsControl(k), exists k :: k in more && IsAlt(k),
                          exists k :: k in more && IsShift(k), exists k :: k in more && IsWin(k);
    hide IsControl, IsAlt, IsShift, IsWin;
    MaskGrows(a, b, c, d, a', b', c', d', required);
  }

  function MaskOf(control: bool, alt: bool, shift: bool, win: bool): Modifiers {
    MaskBit(control, MOD_CONTROL) | MaskBit(alt, MOD_ALT) | MaskBit(shift, MOD_SHIFT) | MaskBit(win, MOD_WIN)
  }

  lemma MaskGrows(a: bool, b: bool, c: bool, d: bool, a': bool, b': bool, c': bool, d': bool, required: Modifiers)
    requires (a ==> a') && (b ==> b') && (c ==> c') && (d ==> d')
    requires MaskOf(a, b, c, d) & required == required
    ensures MaskOf(a', b', c', d') & required == required
  {
    var less, more := MaskOf(a, b, c, d), MaskOf(a', b', c', d');
    assert less & more == less;
    MaskTransfers(less, more, required);
  }

  lemma MaskTransfers(less: Modifiers, more: Modifiers, required: Modifiers)
    requires less & more == less && less & required == required
    ensures more & required == required
  {
  }

  lemma KeyDownIsSafe(m: Machine, vk: Vk)
    requires Safe(m)
    ensures Safe(m.(pressed := m.pressed + {vk}).KeyDown(vk, vk !in m.pressed).0)
  {
    var now := m.(pressed := m.pressed + {vk});
    if m.active.Some? {
      CoversMore(m.pressed, now.pressed, m.active.value.requiredModifiers);
    }
    FoundFits(m.registrations, 0, vk, ActiveMask(now.pressed));
  }

  lemma StepIsSafe(m: Machine, e: KeyEvent)
    requires Safe(m)
    ensures Safe(Step(m, e).0)
  {
    if e.Real() && IsKeyDown(e.message) {
      KeyDownIsSafe(m, e.vk);
    }
  }

  lemma {:induction false} RunIsSafe(m: Machine, events: seq<KeyEvent>)
    requires Safe(m)
    ensures Safe(Run(m, events).0)
  {
    if events != [] {
      RunIsSafe(m, events[..|events| - 1]);
      StepIsSafe(Run(m, events[..|events| - 1]).0, events[|events| - 1]);
    }
  }

  /** The repeat loop only ever runs the command of a registration whose key and modifiers are all down. */
  lemma RepeatsOnlyWhileHeld(registrations: seq<Registration>, events: seq<KeyEvent>)
    ensures var m := Run(Start(registrations), events).0;
            m.RepeatCommand().Some? ==>
              exists r :: (
                && r in registrations
                && r.command == m.RepeatCommand().value
                && r.command.RepeatsWhileHeld()
                && r.key in m.pressed
                && Covers(m.pressed, r.requiredModifiers))
  {
    RunIsSafe(Start(registrations), events);
    ActiveIsRegistered(registrations, events);
  }

  ghost predicate IsTriggerOf(t: Trigger, r: Registration) { t == TriggerFor(r, r.key) }

  lemma {:induction false} ActiveIsRegistered(registrations: seq<Registration>, events: seq<KeyEvent>)
    ensures var m := Run(Start(registrations), events).0;
            && m.registrations == registrations
            && (m.active.Some? ==> exists r :: r in registrations && IsTriggerOf(m.active.value, r))
  {
    if events != [] {
      var front, e := events[..|events| - 1], events[|events| - 1];
      ActiveIsRegistered(registrations, front);
      var before := Run(Start(registrations), front).0;
      var now := before.pressed + {e.vk};
      FoundFits(registrations, 0, e.vk, ActiveMask(now));
      var found := FindFrom(registrations, 0, e.vk, ActiveMask(now));
      if found.Some? {
        assert IsTriggerOf(TriggerFor(found.value, e.vk), found.value);
      }
    }
  }

  // ---- pressed keys: exactly those down since the last reset -------------------------------------

  predicate IsReset(d: Decision) { d.replay == Some(LockWorkstation) }

  /** Event i pressed k, and since then k was not released and the state was not reset. */
  ghost predicate DownSince(events: seq<KeyEvent>, decisions: seq<Decision>, k: Vk, i: nat)
    requires |decisions| == |events|
  {
    && i < |events|
    && events[i].Downs(k)
    && (forall j :: i <= j < |events| ==> !IsReset(decisions[j]))
    && (forall j :: i < j < |events| ==> !events[j].Ups(k))
  }

  /** `pressed_keys` is exactly the set of keys that are down since the last lock reset. */
  lemma {:induction false} PressedIsDownSinceReset(registrations: seq<Registration>, events: seq<KeyEvent>, k: Vk)
    ensures (
      k in Run(Start(registrations), events).0.pressed <==>
      exists i: nat :: DownSince(events, Run(Start(registrations), events).1, k, i))
  {
    if events != [] {
      var n := |events| - 1;
      var front, e := events[..n], events[n];
      PressedIsDownSinceReset(registrations, front, k);
      var (before, past) := Run(Start(registrations), front);
      var all := Run(Start(registrations), events).1;
      PressedAfterStep(before, e, k);
      DownSinceGrows(front, past, e, Step(before, e).1, k);
      hide Step, DownSince;
      assert events == front + [e] && all == past + [Step(before, e).1];
    }
  }

  lemma DownSinceGrows(events: seq<KeyEvent>, decisions: seq<Decision>, e: KeyEvent, d: Decision, k: Vk)
    requires |decisions| == |events|
    ensures (
      (exists i: nat :: DownSince(events + [e], decisions + [d], k, i)) <==>
      !IsReset(d) && (e.Downs(k) || ((exists i: nat :: DownSince(events, decisions, k, i)) && !e.Ups(k))))
  {
    var es, ds := events + [e], decisions + [d];
    var n := |events|;
    assert es[n] == e && ds[n] == d;
    forall i: nat | DownSince(es, ds, k, i)
      ensures !IsReset(d) && (e.Downs(k) || (DownSince(events, decisions, k, i) && !e.Ups(k)))
    {
      if i < n {
        assert forall j :: i <= j < n ==> ds[j] == decisions[j] && es[j] == events[j];
      }
    }
    if !IsReset(d) && e.Downs(k) {
      assert DownSince(es, ds, k, n);
    } else if !IsReset(d) && !e.Ups(k) {
      forall i: nat | DownSince(events, decisions, k, i)
        ensures DownSince(es, ds, k, i)
      {
      }
    }
  }

  lemma PressedAfterStep(m: Machine, e: KeyEvent, k: Vk)
    ensures (
      k in Step(m, e).0.pressed <==>
      !IsReset(Step(m, e).1) && (e.Downs(k) || (k in m.pressed && !e.Ups(k))))
  {
  }

  // ---- injected events change nothing --------------------------------------------------------------

  function RealOnly(events: seq<KeyEvent>): seq<KeyEvent> {
    if events == [] then []
    else RealOnly(events[..|events| - 1]) + if events[|events| - 1].Real() then [events[|events| - 1]] else []
  }

  function RealDecisions(events: seq<KeyEvent>, decisions: seq<Decision>): seq<Decision>
    requires |decisions| == |events|
  {
    if events == [] then []
    else RealDecisions(events[..|events| - 1], decisions[..|events| - 1])
         + if events[|events| - 1].Real() then [decisions[|events| - 1]] else []
  }

  lemma InjectedIsInvisible(m: Machine, e: KeyEvent)
    ensures !e.Real() ==> Step(m, e) == (m, PASS)
  {
  }

  /** A run equals the run with its injected events filtered out, and those are let through. */
  lemma {:induction false} InjectedEventsAreInvisible(m: Machine, events: seq<KeyEvent>)
    ensures Run(m, events).0 == Run(m, RealOnly(events)).0
    ensures RealDecisions(events, Run(m, events).1) == Run(m, RealOnly(events)).1
    ensures forall i :: 0 <= i < |events| && !events[i].Real() ==> Run(m, events).1[i] == PASS
  {
    if events != [] {
      var front, e := events[..|events| - 1], events[|events| - 1];
      InjectedEventsAreInvisible(m, front);
      InjectedIsInvisible(Run(m, front).0, e);
      hide Step;
      assert Run(m, events).1[..|events| - 1] == Run(m, front).1;
      RunSnoc(m, RealOnly(front), e);
      assert RealOnly(events) == if e.Real() then RealOnly(front) + [e] else RealOnly(front);
    }
  }

  // ---- bounded emission ----------------------------------------------------------------------------

  function Emitted(d: Decision): nat { (if d.command.Some? then 1 else 0) + if d.replay.Some? then 1 else 0 }

  function Emissions(decisions: seq<Decision>): nat {
    if decisions == [] then 0 else Emissions(decisions[..|decisions| - 1]) + Emitted(decisions[|decisions| - 1])
  }

  function PendingCount(m: Machine): nat { if m.pending.Some? then 1 else 0 }

  /** Key-downs of keys that were up: auto-repeats are not counted. */
  function FreshDowns(m: Machine, events: seq<KeyEvent>): nat {
    if events == [] then 0
    else
      var front, e := events[..|events| - 1], events[|events| - 1];
      FreshDowns(m, front) + if e.Downs(e.vk) && e.vk !in Run(m, front).0.pressed then 1 else 0
  }

  lemma {:induction false} EmissionIsBounded(m: Machine, events: seq<KeyEvent>)
    ensures Emissions(Run(m, events).1) + PendingCount(Run(m, events).0) <= PendingCount(m) + FreshDowns(m, events)
  {
    if events != [] {
      var front := events[..|events| - 1];
      EmissionIsBounded(m, front);
      assert Run(m, events).1[..|events| - 1] == Run(m, front).1;
    }
  }

  /** A command belongs to a registration of exactly this key and exactly the modifiers now down. */
  lemma CommandIsRegistered(m: Machine, e: KeyEvent)
    requires Step(m, e).1.command.Some?
    ensures exists r :: (
      && r in m.registrations
      && r.command == Step(m, e).1.command.value
      && e.Downs(r.key)
      && r.requiredModifiers == ActiveMask(m.pressed + {r.key}))
    ensures Step(m, e).1.suppress && Step(m, e).1.replay.None?
  {
    FoundFits(m.registrations, 0, e.vk, ActiveMask(m.pressed + {e.vk}));
  }

  // ---- swallowed releases --------------------------------------------------------------------------

  ghost predicate NoReset(m: Machine, events: seq<KeyEvent>) {
    forall i :: 0 <= i < |events| ==> !IsReset(Run(m, events).1[i])
  }

  ghost predicate NeverReleased(events: seq<KeyEvent>, k: Vk) {
    forall i :: 0 <= i < |events| ==> !events[i].Ups(k)
  }

  lemma NoResetBefore(m: Machine, events: seq<KeyEvent>)
    requires events != [] && NoReset(m, events)
    ensures NoReset(m, events[..|events| - 1]) && !IsReset(Step(Run(m, events[..|events| - 1]).0, events[|events| - 1]).1)
  {
    RunPrefix(m, events, |events| - 1);
    assert !IsReset(Run(m, events).1[|events| - 1]);
  }

  ghost predicate OwesRelease(m: Machine, k: Vk) { m.pending == Some(k) || k in m.releases }

  lemma DebtSurvives(m: Machine, e: KeyEvent, k: Vk)
    requires OwesRelease(m, k) && !e.Ups(k) && !IsReset(Step(m, e).1)
    ensures OwesRelease(Step(m, e).0, k)
  {
  }

  lemma {:induction false} DebtSurvivesRun(m: Machine, events: seq<KeyEvent>, k: Vk)
    requires OwesRelease(m, k) && NeverReleased(events, k) && NoReset(m, events)
    ensures OwesRelease(Run(m, events).0, k)
  {
    if events != [] {
      NoResetBefore(m, events);
      DebtSurvivesRun(m, events[..|events| - 1], k);
      DebtSurvives(Run(m, events[..|events| - 1]).0, events[|events| - 1], k);
    }
  }

  /** A Win key taken as a prefix has its next release swallowed, whatever happens in between. */
  lemma PrefixReleaseIsSwallowed(m: Machine, down: KeyEvent, events: seq<KeyEvent>, up: KeyEvent)
    requires m.pending.None? && Step(m, down).0.pending.Some?
    requires NeverReleased(events, down.vk) && NoReset(Step(m, down).0, events)
    requires up.Ups(down.vk)
    ensures Step(m, down).1 == SWALLOW && IsWin(down.vk)
    ensures Step(Run(Step(m, down).0, events).0, up).1.suppress
  {
    DebtSurvivesRun(Step(m, down).0, events, down.vk);
  }

  ghost predicate Consumed(m: Machine, k: Vk) { k in m.held && k in m.pressed }

  lemma ConsumedSurvives(m: Machine, e: KeyEvent, k: Vk)
    requires Consumed(m, k) && !e.Ups(k) && !IsReset(Step(m, e).1)
    ensures Consumed(Step(m, e).0, k)
    ensures e.Downs(k) ==> Step(m, e).1.suppress
  {
  }

  lemma {:induction false} ConsumedSurvivesRun(m: Machine, events: seq<KeyEvent>, k: Vk)
    requires Consumed(m, k) && NeverReleased(events, k) && NoReset(m, events)
    ensures Consumed(Run(m, events).0, k)
    ensures forall i :: 0 <= i < |events| && events[i].Downs(k) ==> Run(m, events).1[i].suppress
  {
    if events != [] {
      NoResetBefore(m, events);
      var front := events[..|events| - 1];
      ConsumedSurvivesRun(m, front, k);
      ConsumedSurvives(Run(m, front).0, events[|events| - 1], k);
      RunPrefix(m, events, |front|);
      forall i | 0 <= i < |events| && events[i].Downs(k)
        ensures Run(m, events).1[i].suppress
      {
        if i < |front| {
          assert front[i].Downs(k);
          assert Run(m, events).1[..|front|][i] == Run(m, front).1[i];
        }
      }
    }
  }

  lemma ReplayConsumes(m: Machine, down: KeyEvent)
    requires Step(m, down).1.replay.Some? && !IsReset(Step(m, down).1)
    ensures Consumed(Step(m, down).0, down.vk) && Step(m, down).1.suppress
  {
  }

  lemma ConsumedReleaseIsSwallowed(m: Machine, up: KeyEvent)
    requires up.Ups(up.vk) && Consumed(m, up.vk)
    ensures Step(m, up).1.suppress
  {
  }

  /** A key consumed by a replay stays silent: every repeat and its release are swallowed. */
  lemma ReplayedKeyIsSilent(m: Machine, down: KeyEvent, events: seq<KeyEvent>, up: KeyEvent)
    requires Step(m, down).1.replay.Some? && !IsReset(Step(m, down).1)
    requires NeverReleased(events, down.vk) && NoReset(Step(m, down).0, events)
    requires up.Ups(down.vk)
    ensures var after := Step(m, down).0;
            && Step(m, down).1.suppress
            && (forall i :: 0 <= i < |events| && events[i].Downs(down.vk) ==> Run(after, events).1[i].suppress)
            && Step(Run(after, events).0, up).1.suppress
  {
    ReplayConsumes(m, down);
    ConsumedSurvivesRun(Step(m, down).0, events, down.vk);
    ConsumedReleaseIsSwallowed(Run(Step(m, down).0, events).0, up);
    hide Step, Consumed;
  }

  // ---- replays -------------------------------------------------------------------------------------------

  ghost predicate StrictlyAscending(keys: seq<Vk>) {
    forall i, j :: 0 <= i < j < |keys| ==> keys[i] < keys[j]
  }

  lemma {:induction false} PressedFromIsSorted(keys: seq<Vk>, pressed: set<Vk>, winVk: Vk)
    requires StrictlyAscending(keys)
    ensures StrictlyAscending(PressedFrom(keys, pressed, winVk))
    ensures forall k :: k in PressedFrom(keys, pressed, winVk) <==> k in keys && k in pressed && k != winVk
  {
    if keys != [] {
      PressedFromIsSorted(keys[1..], pressed, winVk);
      var rest := PressedFrom(keys[1..], pressed, winVk);
      forall k | k in rest
        ensures keys[0] < k
      {
        var i :| 0 <= i < |keys[1..]| && keys[1..][i] == k;
        assert keys[0] < keys[i + 1];
      }
      assert keys == [keys[0]] + keys[1..];
      SortedWithHead(keys[0], rest);
    }
  }

  lemma SortedWithHead(head: Vk, rest: seq<Vk>)
    requires StrictlyAscending(rest) && forall k :: k in rest ==> head < k
    ensures StrictlyAscending([head] + rest)
  {
    var all := [head] + rest;
    forall i, j | 0 <= i < j < |all|
      ensures all[i] < all[j]
    {
      assert all[j] == rest[j - 1] && rest[j - 1] in rest;
      assert i > 0 ==> all[i] == rest[i - 1];
    }
  }

  lemma PendingModifiersAreSorted(pressed: set<Vk>, winVk: Vk)
    ensures var keys := PendingModifierVks(pressed, winVk);
            && StrictlyAscending(keys)
            && (forall k :: k in keys <==> k in ModifiersOf(pressed, winVk))
  {
    PressedFromIsSorted(MODIFIER_KEYS, pressed, winVk);
    forall k: Vk
      ensures k in MODIFIER_KEYS <==> IsPendingModifier(k)
    {
      assert MODIFIER_KEYS == [0x10, 0x11, 0x12, 0xA0, 0xA1, 0xA2, 0xA3, 0xA4, 0xA5];
    }
  }

  /** A replayed chord names the prefix, every modifier now down, and the key that was pressed. */
  lemma ReplayIsTheHeldChord(m: Machine, e: KeyEvent)
    requires Safe(m) && Step(m, e).1.replay.Some? && Step(m, e).1.replay.value.ReplayWinChord?
    ensures var chord := Step(m, e).1.replay.value;
            && m.pending == Some(chord.winVk)
            && e.Downs(chord.keyVk)
            && IsPlain(chord.keyVk)
            && StrictlyAscending(chord.modifierVks)
            && (forall k :: k in chord.modifierVks <==> k in m.pressed && IsPendingModifier(k))
  {
    PendingModifiersAreSorted(m.pressed + {e.vk}, m.pending.value);
  }

  datatype Sent = Press(vk: Vk) | Release(vk: Vk)

  function Presses(keys: seq<Vk>): seq<Sent> {
    if keys == [] then [] else [Press(keys[0])] + Presses(keys[1..])
  }

  function ReleasesInReverse(keys: seq<Vk>): seq<Sent> {
    if keys == [] then [] else ReleasesInReverse(keys[1..]) + [Release(keys[0])]
  }

  /** The input a replay synthesises. */
  function SentKeys(replay: Replay): seq<Sent> {
    match replay
    case LockWorkstation => []
    case WinTap(winVk) => [Press(winVk), Release(winVk)]
    case ReplayWinChord(winVk, modifierVks, keyVk) =>
      [Press(winVk)] + Presses(modifierVks) + [Press(keyVk)]
      + [Release(keyVk)] + ReleasesInReverse(modifierVks) + [Release(winVk)]
  }

  function Play(down: set<Vk>, sent: seq<Sent>): set<Vk>
    decreases |sent|
  {
    if sent == [] then down
    else
      var next := match sent[0]
        case Press(k) => down + {k}
        case Release(k) => down - {k};
      Play(next, sent[1..])
  }

  lemma {:induction false} PlayConcat(down: set<Vk>, first: seq<Sent>, second: seq<Sent>)
    ensures Play(down, first + second) == Play(Play(down, first), second)
    decreases |first|
  {
    if first == [] {
      assert first + second == second;
    } else {
      assert (first + second)[1..] == first[1..] + second;
      var next := match first[0]
        case Press(k) => down + {k}
        case Release(k) => down - {k};
      PlayConcat(next, first[1..], second);
    }
  }

  lemma {:induction false} PlayPresses(down: set<Vk>, keys: seq<Vk>)
    ensures Play(down, Presses(keys)) == down + set k | k in keys
    decreases |keys|
  {
    if keys != [] {
      PlayPresses(down + {keys[0]}, keys[1..]);
      assert keys == [keys[0]] + keys[1..];
    }
  }

  lemma {:induction false} PlayReleases(down: set<Vk>, keys: seq<Vk>)
    ensures Play(down, ReleasesInReverse(keys)) == down - set k | k in keys
  {
    if keys != [] {
      PlayReleases(down, keys[1..]);
      PlayConcat(down, ReleasesInReverse(keys[1..]), [Release(keys[0])]);
      assert keys == [keys[0]] + keys[1..];
    }
  }

  /**
   * Since the shell saw none of the prefix keys go down, a replay that starts with them up shows it the
   * key pressed under exactly the chord's modifiers and leaves them all up again.
   */
  lemma ReplayIsBalanced(down: set<Vk>, winVk: Vk, modifierVks: seq<Vk>, keyVk: Vk)
    requires keyVk != winVk && keyVk !in modifierVks && winVk !in modifierVks
    ensures var sent := SentKeys(ReplayWinChord(winVk, modifierVks, keyVk));
            var chord := {winVk} + set k | k in modifierVks;
            var n := |modifierVks| + 2;
            && n <= |sent|
            && sent[n - 1] == Press(keyVk)
            && Play(down, sent[..n]) == down + chord + {keyVk}
            && Play(down, sent) == down - chord - {keyVk}
  {
    var sent := SentKeys(ReplayWinChord(winVk, modifierVks, keyVk));
    var chord := {winVk} + set k | k in modifierVks;
    var opening := [Press(winVk)] + Presses(modifierVks);
    var closing := ReleasesInReverse(modifierVks) + [Release(winVk)];
    PressesLength(modifierVks);
    assert sent == (opening + [Press(keyVk)]) + ([Release(keyVk)] + closing);
    assert sent[..|modifierVks| + 2] == opening + [Press(keyVk)];
    PlayConcat(down, [Press(winVk)], Presses(modifierVks));
    PlayPresses(down + {winVk}, modifierVks);
    PlayConcat(down, opening, [Press(keyVk)]);
    var middle := down + chord + {keyVk};
    PlayConcat(down, opening + [Press(keyVk)], [Release(keyVk)] + closing);
    PlayConcat(middle, [Release(keyVk)], closing);
    PlayConcat(middle - {keyVk}, ReleasesInReverse(modifierVks), [Release(winVk)]);
    PlayReleases(middle - {keyVk}, modifierVks);
  }

  lemma PressesLength(keys: seq<Vk>)
    ensures |Presses(keys)| == |keys|
  {
  }
}
