// Which keys a command needs, bit by bit, and exactly what a fresh key press does.
module Chords {
  import opened Wrappers
  import opened MachineInt
  import opened Hotkeys
  import opened HotkeyProofs

  // ---- the modifier bits -------------------------------------------------------------------------

  /** One of these keys is down. */
  predicate AnyDown(pressed: set<Vk>, keys: set<Vk>) { pressed * keys != {} }

  /** Bit by bit: 4 for Shift, 1 for Alt, 2 for Control, 8 for Win, each with its left, right and side-neutral key. */
  predicate IsMaskOf(mask: Modifiers, pressed: set<Vk>) {
    && (mask & 4 == 4 <==> AnyDown(pressed, {0x10, 0xA0, 0xA1}))
    && (mask & 1 == 1 <==> AnyDown(pressed, {0x12, 0xA4, 0xA5}))
    && (mask & 2 == 2 <==> AnyDown(pressed, {0x11, 0xA2, 0xA3}))
    && (mask & 8 == 8 <==> AnyDown(pressed, {0x5B, 0x5C}))
    && mask & 0xFFFF_FFF0 == 0
  }

  lemma BitsOfMask(control: bool, alt: bool, shift: bool, win: bool)
    ensures var mask := MaskOf(control, alt, shift, win);
            && (mask & 4 == 4 <==> shift) && (mask & 1 == 1 <==> alt) && (mask & 2 == 2 <==> control) && (mask & 8 == 8 <==> win)
            && mask & 0xFFFF_FFF0 == 0
  {
  }

  lemma DownMeans(pressed: set<Vk>)
    ensures AnyDown(pressed, {0x10, 0xA0, 0xA1}) <==> exists k :: k in pressed && IsShift(k)
    ensures AnyDown(pressed, {0x12, 0xA4, 0xA5}) <==> exists k :: k in pressed && IsAlt(k)
    ensures AnyDown(pressed, {0x11, 0xA2, 0xA3}) <==> exists k :: k in pressed && IsControl(k)
    ensures AnyDown(pressed, {0x5B, 0x5C}) <==> exists k :: k in pressed && IsWin(k)
  {
    SomeIn(pressed, {0x10, 0xA0, 0xA1});
    SomeIn(pressed, {0x12, 0xA4, 0xA5});
    SomeIn(pressed, {0x11, 0xA2, 0xA3});
    SomeIn(pressed, {0x5B, 0x5C});
  }

  lemma SomeIn(pressed: set<Vk>, keys: set<Vk>)
    ensures AnyDown(pressed, keys) <==> exists k :: k in pressed && k in keys
  {
    if AnyDown(pressed, keys) {
      var k :| k in pressed * keys;
    }
    forall k | k in pressed && k in keys
      ensures pressed * keys != {}
    {
      assert k in pressed * keys;
    }
  }

  /** Two masks with the same four bits and nothing else are the same. */
  lemma SameBits(a: Modifiers, b: Modifiers)
    requires a & 0xFFFF_FFF0 == 0 && b & 0xFFFF_FFF0 == 0
    requires (a & 1 == 1) == (b & 1 == 1) && (a & 2 == 2) == (b & 2 == 2) && (a & 4 == 4) == (b & 4 == 4) && (a & 8 == 8) == (b & 8 == 8)
    ensures a == b
  {
  }

  /** The mask of a set of keys, and only it, has exactly their bits. */
  lemma MaskIs(mask: Modifiers, pressed: set<Vk>)
    ensures mask == ActiveMask(pressed) <==> IsMaskOf(mask, pressed)
  {
    var control, alt := exists k :: k in pressed && IsControl(k), exists k :: k in pressed && IsAlt(k);
    var shift, win := exists k :: k in pressed && IsShift(k), exists k :: k in pressed && IsWin(k);
    DownMeans(pressed);
    assert ActiveMask(pressed) == MaskOf(control, alt, shift, win);
    hide ActiveMask, AnyDown, IsShift, IsAlt, IsControl, IsWin;
    BitsOfMask(control, alt, shift, win);
    if IsMaskOf(mask, pressed) {
      SameBits(mask, MaskOf(control, alt, shift, win));
    }
  }

  // ---- what a key press does -----------------------------------------------------------------------

  /** The key is pressed or repeated, by the user: WM_KEYDOWN or WM_SYSKEYDOWN. */
  predicate IsPress(e: KeyEvent) { !e.injected && e.message in {0x100, 0x104} }

  /** Of the registrations with this key and exactly the modifiers that are down, r is the first. */
  ghost predicate IsFirstFit(registrations: seq<Registration>, r: Registration, vk: Vk, now: set<Vk>) {
    exists i :: 0 <= i < |registrations| && registrations[i] == r && FitsAt(registrations, i, vk, now)
                && forall j :: 0 <= j < i ==> !FitsAt(registrations, j, vk, now)
  }

  ghost predicate FitsAt(registrations: seq<Registration>, i: nat, vk: Vk, now: set<Vk>)
    requires i < |registrations|
  {
    registrations[i].key == vk && IsMaskOf(registrations[i].requiredModifiers, now)
  }

  ghost predicate NothingFits(registrations: seq<Registration>, vk: Vk, now: set<Vk>) {
    forall i :: 0 <= i < |registrations| ==> !FitsAt(registrations, i, vk, now)
  }

  lemma {:induction false} FoundIsFirst(registrations: seq<Registration>, i: nat, vk: Vk, now: set<Vk>)
    requires i <= |registrations| && forall j :: 0 <= j < i ==> !FitsAt(registrations, j, vk, now)
    ensures match FindFrom(registrations, i, vk, ActiveMask(now))
            case Some(r) => IsFirstFit(registrations, r, vk, now) && r.key == vk && IsMaskOf(r.requiredModifiers, now)
            case None => NothingFits(registrations, vk, now)
    decreases |registrations| - i
  {
    if i < |registrations| {
      MaskIs(registrations[i].requiredModifiers, now);
      hide ActiveMask, IsMaskOf;
      if !FitsAt(registrations, i, vk, now) {
        FoundIsFirst(registrations, i + 1, vk, now);
      }
    }
  }

  lemma OnlyOneFirst(registrations: seq<Registration>, r: Registration, r': Registration, vk: Vk, now: set<Vk>)
    requires IsFirstFit(registrations, r, vk, now) && IsFirstFit(registrations, r', vk, now)
    ensures r == r' && !NothingFits(registrations, vk, now)
  {
    hide FitsAt;
  }

  /** A command comes from a press by the user of the key of a registration, with exactly its modifiers down. */
  lemma CommandNeedsItsKeys(m: Machine, e: KeyEvent)
    requires Step(m, e).1.command.Some?
    ensures IsPress(e)
    ensures exists r :: IsFirstFit(m.registrations, r, e.vk, m.pressed + {e.vk}) && r.command == Step(m, e).1.command.value
  {
    hide ActiveMask;
    FoundIsFirst(m.registrations, 0, e.vk, m.pressed + {e.vk});
    var found := FindFrom(m.registrations, 0, e.vk, ActiveMask(m.pressed + {e.vk}));
    assert found.Some? && found.value.command == Step(m, e).1.command.value;
  }

  /** The trigger a registration arms: it repeats for the two scroll commands. */
  function Armed(r: Registration, vk: Vk): Trigger {
    Trigger(r.command, vk, r.requiredModifiers, r.command.ScrollLeft? || r.command.ScrollRight?)
  }

  /** Some registration needs the Win key and nothing else. */
  ghost predicate WantsPlainWin(registrations: seq<Registration>) {
    exists i :: 0 <= i < |registrations| && registrations[i].requiredModifiers == 8
  }

  /** Of the modifiers only Win is down. */
  predicate OnlyWinDown(now: set<Vk>) {
    AnyDown(now, {0x5B, 0x5C}) && !AnyDown(now, {0x10, 0x11, 0x12, 0xA0, 0xA1, 0xA2, 0xA3, 0xA4, 0xA5})
  }

  lemma OnlyWinIsMask(now: set<Vk>)
    ensures ActiveMask(now) == 8 <==> OnlyWinDown(now)
  {
    MaskIs(8, now);
    assert (8 as Modifiers) & 4 != 4 && (8 as Modifiers) & 1 != 1 && (8 as Modifiers) & 2 != 2 && (8 as Modifiers) & 8 == 8
           && (8 as Modifiers) & 0xFFFF_FFF0 == 0;
    hide ActiveMask;
  }

  /**
   * A key that goes down while no prefix is pending. A Win key with no other modifier opens a prefix if some hotkey needs
   * it alone and no trigger is active; else the first registration of this key and exactly these modifiers runs; else
   * the shell sees the key.
   */
  lemma FreshPressDecides(m: Machine, e: KeyEvent)
    requires Safe(m) && IsPress(e) && e.vk !in m.pressed && m.pending.None?
    ensures var now := m.pressed + {e.vk};
            var step := Step(m, e);
            var opens := e.vk in {0x5B, 0x5C} && WantsPlainWin(m.registrations) && OnlyWinDown(now) && m.active.None?;
            && (opens ==> step == (m.(pressed := now, pending := Some(e.vk)), Decision(None, true, None)))
            && (!opens ==>
                  && (forall r :: IsFirstFit(m.registrations, r, e.vk, now) ==>
                        step == (m.(pressed := now, active := Some(Armed(r, e.vk))), Decision(Some(r.command), true, None)))
                  && (NothingFits(m.registrations, e.vk, now) ==> step == (m.(pressed := now), Decision(None, false, None))))
  {
    var now := m.pressed + {e.vk};
    OnlyWinIsMask(now);
    FoundIsFirst(m.registrations, 0, e.vk, now);
    var found := FindFrom(m.registrations, 0, e.vk, ActiveMask(now));
    forall r | IsFirstFit(m.registrations, r, e.vk, now)
      ensures found == Some(r)
    {
      if found.Some? {
        OnlyOneFirst(m.registrations, r, found.value, e.vk, now);
      } else {
        OnlyOneFirst(m.registrations, r, r, e.vk, now);
      }
    }
    hide ActiveMask, OnlyWinDown, IsFirstFit, NothingFits;
    assert HasPureWinBinding(m.registrations) == WantsPlainWin(m.registrations);
  }

  /** The modifier keys that are down. */
  function ModifiersDown(now: set<Vk>): set<Vk> { now * {0x10, 0x11, 0x12, 0xA0, 0xA1, 0xA2, 0xA3, 0xA4, 0xA5} }

  lemma ModifiersAre(now: set<Vk>, winVk: Vk)
    requires winVk in {0x5B, 0x5C}
    ensures ModifiersOf(now, winVk) == ModifiersDown(now)
  {
  }

  /**
   * A key pressed or repeated while a prefix is pending. Win keys and modifiers wait; a registration of this key and
   * exactly these modifiers runs; Win+S and Win+L with nothing else go to the shell as a tap of Win and as a lock, which
   * forgets every key; anything else is replayed as a chord.
   */
  lemma PressInPrefixDecides(m: Machine, e: KeyEvent)
    requires Safe(m) && IsPress(e) && m.pending.Some?
    ensures var now, win := m.pressed + {e.vk}, m.pending.value;
            var step := Step(m, e);
            if e.vk in {0x5B, 0x5C, 0x10, 0x11, 0x12, 0xA0, 0xA1, 0xA2, 0xA3, 0xA4, 0xA5} then
              step == (m.(pressed := now), Decision(None, true, None))
            else
              && (forall r :: IsFirstFit(m.registrations, r, e.vk, now) ==>
                    step == (m.(pressed := now, pending := None, active := Some(Armed(r, e.vk)),
                                releases := m.releases + {win} + ModifiersDown(now)),
                             Decision(Some(r.command), true, None)))
              && (NothingFits(m.registrations, e.vk, now) ==>
                    if OnlyWinDown(now) && e.vk == 0x53 then
                      step == (m.(pressed := now, pending := None, held := m.held + {e.vk}, releases := m.releases + {e.vk, win}),
                               Decision(None, true, Some(WinTap(win))))
                    else if OnlyWinDown(now) && e.vk == 0x4C then
                      step == (Start(m.registrations), Decision(None, true, Some(LockWorkstation)))
                    else
                      && step.0 == m.(pressed := now, pending := None, held := m.held + {e.vk},
                                      releases := m.releases + {e.vk, win} + ModifiersDown(now))
                      && step.1 == Decision(None, true, Some(ReplayWinChord(win, PendingModifierVks(now, win), e.vk))))
  {
    var now, win := m.pressed + {e.vk}, m.pending.value;
    OnlyWinIsMask(now);
    ModifiersAre(now, win);
    FoundIsFirst(m.registrations, 0, e.vk, now);
    var found := FindFrom(m.registrations, 0, e.vk, ActiveMask(now));
    forall r | IsFirstFit(m.registrations, r, e.vk, now)
      ensures found == Some(r)
    {
      if found.Some? {
        OnlyOneFirst(m.registrations, r, found.value, e.vk, now);
      } else {
        OnlyOneFirst(m.registrations, r, r, e.vk, now);
      }
    }
    hide ActiveMask, OnlyWinDown, IsFirstFit, NothingFits, ModifiersOf, ModifiersDown;
    assert m.releases + {e.vk} + {win} == m.releases + {e.vk, win};
  }

  /** A repeat outside a prefix runs nothing: it is swallowed for a replayed key or the key of the active trigger, else it passes. */
  lemma RepeatDecides(m: Machine, e: KeyEvent)
    requires IsPress(e) && e.vk in m.pressed && m.pending.None?
    ensures Step(m, e) == (m, Decision(None, e.vk in m.held || (m.active.Some? && m.active.value.primaryKey == e.vk), None))
  {
    assert m.pressed + {e.vk} == m.pressed;
  }

  // ---- releases ------------------------------------------------------------------------------------

  /** Every bit asked for has a key of its kind down. */
  predicate HoldsAll(pressed: set<Vk>, required: Modifiers) {
    && (required & 4 == 4 ==> AnyDown(pressed, {0x10, 0xA0, 0xA1}))
    && (required & 1 == 1 ==> AnyDown(pressed, {0x12, 0xA4, 0xA5}))
    && (required & 2 == 2 ==> AnyDown(pressed, {0x11, 0xA2, 0xA3}))
    && (required & 8 == 8 ==> AnyDown(pressed, {0x5B, 0x5C}))
    && required & 0xFFFF_FFF0 == 0
  }

  lemma CoversBits(mask: Modifiers, required: Modifiers)
    requires mask & 0xFFFF_FFF0 == 0
    ensures (
      mask & required == required <==>
      && (required & 4 == 4 ==> mask & 4 == 4) && (required & 1 == 1 ==> mask & 1 == 1)
      && (required & 2 == 2 ==> mask & 2 == 2) && (required & 8 == 8 ==> mask & 8 == 8)
      && required & 0xFFFF_FFF0 == 0)
  {
  }

  lemma CoversMeans(pressed: set<Vk>, required: Modifiers)
    ensures Covers(pressed, required) <==> HoldsAll(pressed, required)
  {
    var mask := ActiveMask(pressed);
    MaskIs(mask, pressed);
    hide ActiveMask, AnyDown;
    CoversBits(mask, required);
  }

  /**
   * A key released by the user, WM_KEYUP or WM_SYSKEYUP: swallowed while a prefix waits for it, or when the shell never
   * saw its press. The active trigger is dropped with its key, or when one of its modifiers has no key down any more.
   */
  lemma ReleaseDecides(m: Machine, e: KeyEvent)
    requires !e.injected && e.message in {0x101, 0x105}
    ensures var rest := m.pressed - {e.vk};
            var (after, decision) := Step(m, e);
            var isModifier := e.vk in {0x10, 0x11, 0x12, 0xA0, 0xA1, 0xA2, 0xA3, 0xA4, 0xA5};
            var isTrigger := m.active.Some? && m.active.value.primaryKey == e.vk;
            && decision.command.None? && decision.replay.None?
            && (decision.suppress <==>
                  (m.pending.Some? && (m.pending.value == e.vk || isModifier)) || isTrigger || e.vk in m.held || e.vk in m.releases)
            && after.pressed == rest && after.registrations == m.registrations
            && after.pending == (if m.pending == Some(e.vk) then None else m.pending)
            && after.active == (if m.active.Some? && m.active.value.primaryKey in rest && HoldsAll(rest, m.active.value.requiredModifiers)
                                then m.active else None)
            && after.held == (if isTrigger then m.held else m.held - {e.vk})
            && after.releases == (if isTrigger || e.vk in m.held then m.releases else m.releases - {e.vk})
  {
    if m.active.Some? {
      CoversMeans(m.pressed - {e.vk}, m.active.value.requiredModifiers);
    }
    hide Covers, HoldsAll;
  }

  /** Events by others, and messages that are not about keys, change nothing. */
  lemma OtherEventsPass(m: Machine, e: KeyEvent)
    requires e.injected || e.message !in {0x100, 0x101, 0x104, 0x105}
    ensures Step(m, e) == (m, Decision(None, false, None))
  {
  }
}
