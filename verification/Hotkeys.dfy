// The low-level keyboard hook: apps/core-daemon/src/hotkeys/low_level.rs.
//
// `Machine` is the hotkey state as a value and `Handle` the meaning of one key event;
// `LowLevelHotkeyState` updates its fields in place and is proved to do the same.
module Hotkeys {
  import opened Wrappers
  import opened MachineInt

  type Vk = u32
  type Modifiers = bv32

  const MOD_ALT: Modifiers := 1
  const MOD_CONTROL: Modifiers := 2
  const MOD_SHIFT: Modifiers := 4
  const MOD_WIN: Modifiers := 8

  const VK_SHIFT: Vk := 0x10
  const VK_CONTROL: Vk := 0x11
  const VK_MENU: Vk := 0x12
  const VK_LWIN: Vk := 0x5B
  const VK_RWIN: Vk := 0x5C
  const VK_LSHIFT: Vk := 0xA0
  const VK_RSHIFT: Vk := 0xA1
  const VK_LCONTROL: Vk := 0xA2
  const VK_RCONTROL: Vk := 0xA3
  const VK_LMENU: Vk := 0xA4
  const VK_RMENU: Vk := 0xA5
  const LOCK_WORKSTATION_KEY: Vk := 0x4C
  const START_MENU_TRANSFER_KEY: Vk := 0x53

  const WM_KEYDOWN: u32 := 0x100
  const WM_KEYUP: u32 := 0x101
  const WM_SYSKEYDOWN: u32 := 0x104
  const WM_SYSKEYUP: u32 := 0x105

  /** The commands a hotkey can run; only the scroll commands repeat while held. */
  datatype WatchCommand = ScrollLeft | ScrollRight | OneShot(name: string)
  {
    predicate RepeatsWhileHeld() { ScrollLeft? || ScrollRight? }
  }

  datatype Registration = Registration(command: WatchCommand, requiredModifiers: Modifiers, key: Vk)

  datatype Trigger = Trigger(
    command: WatchCommand,
    primaryKey: Vk,
    requiredModifiers: Modifiers,
    repeatWhileHeld: bool)

  datatype Replay =
    | LockWorkstation
    | WinTap(winVk: Vk)
    | ReplayWinChord(winVk: Vk, modifierVks: seq<Vk>, keyVk: Vk)

  datatype Decision = Decision(command: Option<WatchCommand>, suppress: bool, replay: Option<Replay>)

  const PASS := Decision(None, false, None)
  const SWALLOW := Decision(None, true, None)

  // ---- keys and messages -----------------------------------------------------------------------

  predicate IsKeyDown(message: u32) { message == WM_KEYDOWN || message == WM_SYSKEYDOWN }

  predicate IsKeyUp(message: u32) { message == WM_KEYUP || message == WM_SYSKEYUP }

  predicate IsKeyboardMessage(message: u32) { IsKeyDown(message) || IsKeyUp(message) }

  predicate IsControl(vk: Vk) { vk == VK_CONTROL || vk == VK_LCONTROL || vk == VK_RCONTROL }

  predicate IsAlt(vk: Vk) { vk == VK_MENU || vk == VK_LMENU || vk == VK_RMENU }

  predicate IsShift(vk: Vk) { vk == VK_SHIFT || vk == VK_LSHIFT || vk == VK_RSHIFT }

  predicate IsWin(vk: Vk) { vk == VK_LWIN || vk == VK_RWIN }

  predicate IsPendingModifier(vk: Vk) { IsShift(vk) || IsControl(vk) || IsAlt(vk) }

  function MaskBit(held: bool, bit: Modifiers): Modifiers { if held then bit else 0 }

  function ActiveMask(pressed: set<Vk>): Modifiers {
    MaskBit(exists k :: k in pressed && IsControl(k), MOD_CONTROL)
    | MaskBit(exists k :: k in pressed && IsAlt(k), MOD_ALT)
    | MaskBit(exists k :: k in pressed && IsShift(k), MOD_SHIFT)
    | MaskBit(exists k :: k in pressed && IsWin(k), MOD_WIN)
  }

  predicate Covers(pressed: set<Vk>, required: Modifiers) { ActiveMask(pressed) & required == required }

  /** Every key that counts as a modifier during a Win prefix, in ascending order. */
  const MODIFIER_KEYS: seq<Vk> :=
    [VK_SHIFT, VK_CONTROL, VK_MENU, VK_LSHIFT, VK_RSHIFT, VK_LCONTROL, VK_RCONTROL, VK_LMENU, VK_RMENU]

  function PressedFrom(keys: seq<Vk>, pressed: set<Vk>, winVk: Vk): seq<Vk> {
    if keys == [] then []
    else (if keys[0] in pressed && keys[0] != winVk then [keys[0]] else []) + PressedFrom(keys[1..], pressed, winVk)
  }

  /** The pressed modifiers other than `winVk`, sorted. */
  function PendingModifierVks(pressed: set<Vk>, winVk: Vk): seq<Vk> { PressedFrom(MODIFIER_KEYS, pressed, winVk) }

  // ---- one event -------------------------------------------------------------------------------

  function FindFrom(registrations: seq<Registration>, i: nat, key: Vk, mask: Modifiers): Option<Registration>
    requires i <= |registrations|
    decreases |registrations| - i
  {
    if i == |registrations| then None
    else if registrations[i].key == key && registrations[i].requiredModifiers == mask then Some(registrations[i])
    else FindFrom(registrations, i + 1, key, mask)
  }

  predicate HasPureWinBinding(registrations: seq<Registration>) {
    exists i :: 0 <= i < |registrations| && registrations[i].requiredModifiers == MOD_WIN
  }

  function TriggerFor(registration: Registration, vk: Vk): Trigger {
    Trigger(registration.command, vk, registration.requiredModifiers, registration.command.RepeatsWhileHeld())
  }

  function ModifiersOf(pressed: set<Vk>, winVk: Vk): set<Vk> {
    set k | k in pressed && k != winVk && IsPendingModifier(k)
  }

  datatype Machine = Machine(
    registrations: seq<Registration>,
    pressed: set<Vk>,
    active: Option<Trigger>,
    pending: Option<Vk>,
    held: set<Vk>,
    releases: set<Vk>)
  {
    predicate IsPrimary(vk: Vk) { active.Some? && active.value.primaryKey == vk }

    function Reset(): Machine { Machine(registrations, {}, None, None, {}, {}) }

    function RepeatCommand(): Option<WatchCommand> {
      if active.Some? && active.value.repeatWhileHeld then Some(active.value.command) else None
    }

    /** A key went down; `pressed` already holds it and `inserted` says it was up before. */
    function KeyDown(vk: Vk, inserted: bool): (Machine, Decision) {
      if pending.Some? then KeyDownAfterPrefix(vk, pending.value)
      else if inserted && IsWin(vk) && HasPureWinBinding(registrations) && ActiveMask(pressed) == MOD_WIN && active.None? then
        (this.(pending := Some(vk)), SWALLOW)
      else if !inserted && vk in held then (this, SWALLOW)
      else if IsPrimary(vk) then (this, SWALLOW)
      else if inserted then
        match FindFrom(registrations, 0, vk, ActiveMask(pressed))
        case Some(r) => (this.(active := Some(TriggerFor(r, vk))), Decision(Some(r.command), true, None))
        case None => (this, PASS)
      else (this, PASS)
    }

    function KeyDownAfterPrefix(vk: Vk, winVk: Vk): (Machine, Decision) {
      if vk == winVk || IsWin(vk) || IsPendingModifier(vk) then (this, SWALLOW)
      else
        match FindFrom(registrations, 0, vk, ActiveMask(pressed))
        case Some(r) =>
          (this.(pending := None, active := Some(TriggerFor(r, vk)),
                 releases := releases + {winVk} + ModifiersOf(pressed, winVk)),
           Decision(Some(r.command), true, None))
        case None =>
          if ActiveMask(pressed) == MOD_WIN && vk == START_MENU_TRANSFER_KEY then
            (this.(pending := None, held := held + {vk}, releases := releases + {vk, winVk}),
             Decision(None, true, Some(WinTap(winVk))))
          else if ActiveMask(pressed) == MOD_WIN && vk == LOCK_WORKSTATION_KEY then
            (Reset(), Decision(None, true, Some(LockWorkstation)))
          else
            (this.(pending := None, held := held + {vk},
                   releases := releases + {vk} + {winVk} + ModifiersOf(pressed, winVk)),
             Decision(None, true, Some(ReplayWinChord(winVk, PendingModifierVks(pressed, winVk), vk))))
    }

    predicate ClosesPrefix(vk: Vk) { pending == Some(vk) }

    predicate SwallowedByPrefix(vk: Vk) { pending.Some? && (pending.value == vk || IsPendingModifier(vk)) }

    /** Whether the release of `vk` belongs to a key press the shell never saw. */
    predicate Owed(vk: Vk) { IsPrimary(vk) || vk in held || vk in releases }

    function KeyUp(vk: Vk): (Machine, Decision) {
      var stillHeld := pressed - {vk};
      var keeps := active.Some? && active.value.primaryKey in stillHeld && Covers(stillHeld, active.value.requiredModifiers);
      (Machine(
         registrations,
         stillHeld,
         if keeps then active else None,
         if ClosesPrefix(vk) then None else pending,
         if IsPrimary(vk) then held else held - {vk},
         if IsPrimary(vk) || vk in held then releases else releases - {vk}),
       Decision(None, SwallowedByPrefix(vk) || Owed(vk), None))
    }

    function Handle(vk: Vk, message: u32, injected: bool): (Machine, Decision) {
      if injected || !IsKeyboardMessage(message) then (this, PASS)
      else if IsKeyDown(message) then this.(pressed := pressed + {vk}).KeyDown(vk, vk !in pressed)
      else KeyUp(vk)
    }
  }

  function Start(registrations: seq<Registration>): Machine { Machine(registrations, {}, None, None, {}, {}) }

  // ---- the state the hook updates in place -----------------------------------------------------

  class LowLevelHotkeyState {
    const registrations: seq<Registration>
    var pressed: set<Vk>
    var active: Option<Trigger>
    var pending: Option<Vk>
    var held: set<Vk>
    var releases: set<Vk>

    ghost function Value(): Machine
      reads this
    {
      Machine(registrations, pressed, active, pending, held, releases)
    }

    constructor (registrations: seq<Registration>)
      ensures Value() == Start(registrations)
    {
      this.registrations := registrations;
      pressed, active, pending, held, releases := {}, None, None, {}, {};
    }

    method Reset()
      modifies this
      ensures Value() == old(Value()).Reset()
    {
      pressed, active, pending, held, releases := {}, None, None, {}, {};
    }

    method RepeatCommandWhileHeld() returns (command: Option<WatchCommand>)
      ensures command == Value().RepeatCommand()
    {
      command := None;
      if active.Some? && active.value.repeatWhileHeld {
        command := Some(active.value.command);
      }
    }

    method FindRegistration(key: Vk, mask: Modifiers) returns (found: Option<Registration>)
      ensures found == FindFrom(registrations, 0, key, mask)
    {
      var i := 0;
      while i < |registrations|
        invariant 0 <= i <= |registrations|
        invariant FindFrom(registrations, 0, key, mask) == FindFrom(registrations, i, key, mask)
      {
        if registrations[i].requiredModifiers == mask && registrations[i].key == key {
          return Some(registrations[i]);
        }
        i := i + 1;
      }
      found := None;
    }

    method SuppressPendingModifierReleases(winVk: Vk)
      modifies this`releases
      ensures releases == old(releases) + {winVk} + ModifiersOf(pressed, winVk)
    {
      releases := releases + {winVk};
      var rest := pressed;
      while rest != {}
        invariant rest <= pressed
        invariant releases == old(releases) + {winVk} + (ModifiersOf(pressed, winVk) - rest)
        decreases rest
      {
        var key :| key in rest;
        if key != winVk && IsPendingModifier(key) {
          releases := releases + {key};
        }
        rest := rest - {key};
      }
    }

    method HandlePendingWinKeyDown(vk: Vk, inserted: bool) returns (decision: Option<Decision>)
      modifies this
      ensures decision.Some? ==> (Value(), decision.value) == old(Value()).KeyDown(vk, inserted)
      ensures decision.None? ==> Value() == old(Value()) && pending.None?
      ensures (
        decision.None? <==>
        old(pending).None? &&
        !(inserted && IsWin(vk) && HasPureWinBinding(registrations) && old(ActiveMask(pressed)) == MOD_WIN && old(active).None?))
    {
      if pending.Some? {
        var winVk := pending.value;
        if vk == winVk || IsWin(vk) || IsPendingModifier(vk) {
          return Some(SWALLOW);
        }
        var mask := ActiveMask(pressed);
        var found := FindRegistration(vk, mask);
        if found.Some? {
          pending := None;
          active := Some(TriggerFor(found.value, vk));
          SuppressPendingModifierReleases(winVk);
          return Some(Decision(Some(found.value.command), true, None));
        }
        if mask == MOD_WIN && vk == START_MENU_TRANSFER_KEY {
          pending := None;
          held := held + {vk};
          releases := releases + {vk};
          releases := releases + {winVk};
          assert releases == old(releases) + {vk, winVk};
          return Some(Decision(None, true, Some(WinTap(winVk))));
        }
        if mask == MOD_WIN && vk == LOCK_WORKSTATION_KEY {
          Reset();
          return Some(Decision(None, true, Some(LockWorkstation)));
        }
        pending := None;
        held := held + {vk};
        releases := releases + {vk};
        SuppressPendingModifierReleases(winVk);
        return Some(Decision(None, true, Some(ReplayWinChord(winVk, PendingModifierVks(pressed, winVk), vk))));
      }
      if inserted && IsWin(vk) && HasPureWinBinding(registrations) && ActiveMask(pressed) == MOD_WIN && active.None? {
        pending := Some(vk);
        return Some(SWALLOW);
      }
      decision := None;
    }

    method HandlePendingWinKeyUp(vk: Vk) returns (decision: Option<Decision>)
      modifies this`pending
      ensures decision == if old(Value()).SwallowedByPrefix(vk) then Some(SWALLOW) else None
      ensures pending == if old(Value()).ClosesPrefix(vk) then None else old(pending)
    {
      if pending.Some? {
        if pending.value == vk {
          pending := None;
          return Some(SWALLOW);
        }
        if IsPendingModifier(vk) {
          return Some(SWALLOW);
        }
      }
      decision := None;
    }

    method HandleKeyEvent(vk: Vk, message: u32, injected: bool) returns (decision: Decision)
      modifies this
      ensures (Value(), decision) == old(Value()).Handle(vk, message, injected)
    {
      if injected || !IsKeyboardMessage(message) {
        return PASS;
      }
      if IsKeyDown(message) {
        decision := HandleKeyDown(vk);
      } else {
        decision := HandleKeyUp(vk);
      }
    }

    method HandleKeyDown(vk: Vk) returns (decision: Decision)
      modifies this
      ensures (Value(), decision) == old(Value().(pressed := pressed + {vk}).KeyDown(vk, vk !in pressed))
    {
      var inserted := vk !in pressed;
      pressed := pressed + {vk};
      var early := HandlePendingWinKeyDown(vk, inserted);
      if early.Some? {
        return early.value;
      }
      if !inserted && vk in held {
        return SWALLOW;
      }
      if active.Some? && active.value.primaryKey == vk {
        return SWALLOW;
      }
      if inserted {
        var found := FindRegistration(vk, ActiveMask(pressed));
        if found.Some? {
          active := Some(TriggerFor(found.value, vk));
          return Decision(Some(found.value.command), true, None);
        }
      }
      decision := PASS;
    }

    method HandleKeyUp(vk: Vk) returns (decision: Decision)
      modifies this
      ensures (Value(), decision) == old(Value()).KeyUp(vk)
    {
      var prefix := HandlePendingWinKeyUp(vk);
      var suppress := active.Some? && active.value.primaryKey == vk;
      if !suppress {
        suppress := vk in held;
        held := held - {vk};
        if !suppress {
          suppress := vk in releases;
          releases := releases - {vk};
        }
      }
      pressed := pressed - {vk};
      if active.Some? &&
         (active.value.primaryKey !in pressed || !Covers(pressed, active.value.requiredModifiers)) {
        active := None;
      }
      if prefix.Some? {
        return prefix.value.(suppress := prefix.value.suppress || suppress);
      }
      decision := Decision(None, suppress, None);
    }
  }
}
