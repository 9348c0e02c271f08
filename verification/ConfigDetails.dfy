// What the parser reads besides a printed configuration: numbers, lines it skips, shorthands, repetitions, errors.
module ConfigDetails {
  import opened Wrappers
  import opened MachineInt
  import opened Domain
  import opened Text
  import opened TextProofs
  import opened WindowRules
  import opened Config
  import opened ConfigProofs
  import opened ConfigRoundTrip
  import opened WholeConfig

  // ---- numbers ---------------------------------------------------------------------------------

  function Zeros(z: nat): string { seq(z, i => '0') }

  /** The text is n in decimal, after any number of zeros. */
  ghost predicate Spells(text: string, n: int) { n >= 0 && exists z: nat :: text == Zeros(z) + ShowNat(n) }

  lemma {:induction false} LeadingZeros(z: nat, text: string)
    requires text != ""
    ensures DigitsValue(Zeros(z) + text) == DigitsValue(text)
    decreases z + |text|
  {
    var all := Zeros(z) + text;
    if |text| > 1 {
      assert all[..|all| - 1] == Zeros(z) + text[..|text| - 1];
      LeadingZeros(z, text[..|text| - 1]);
    } else if z > 0 {
      assert all[..|all| - 1] == Zeros(z - 1) + "0";
      LeadingZeros(z - 1, "0");
      assert "0"[..0] == "" && text[..0] == "";
    } else {
      assert all == text;
    }
  }

  lemma {:induction false} DigitsSpell(text: string, n: nat)
    requires text != "" && DigitsValue(text) == Some(n)
    ensures Spells(text, n)
  {
    var front, last := text[..|text| - 1], text[|text| - 1];
    var d := (last - '0') as nat;
    assert text == front + [last] && Digit(d) == last;
    if front == "" {
      assert text == Zeros(0) + ShowNat(n);
    } else {
      var m := DigitsValue(front).value;
      DigitsSpell(front, m);
      assert n == 10 * m + d;
      hide DigitsValue, IsDigit, Digit;
      DigitAppends(front, m, d, n);
    }
  }

  lemma DigitAppends(front: string, m: nat, d: nat, n: nat)
    requires Spells(front, m) && d < 10 && n == 10 * m + d
    ensures Spells(front + [Digit(d)], n)
  {
    var z: nat :| front == Zeros(z) + ShowNat(m);
    hide Digit;
    if m == 0 {
      assert ShowNat(0) == [Digit(0)] && ShowNat(n) == [Digit(d)];
      assert Digit(0) == '0' by { ZeroDigit(); }
      assert Zeros(z) + [Digit(0)] == Zeros(z + 1);
      assert front + [Digit(d)] == Zeros(z + 1) + ShowNat(n);
    } else {
      assert n / 10 == m && n % 10 == d;
      assert ShowNat(n) == ShowNat(m) + [Digit(d)];
      assert front + [Digit(d)] == Zeros(z) + ShowNat(n);
    }
  }

  lemma ZeroDigit()
    ensures Digit(0) == '0'
  {
  }

  /** A text without a sign is a number exactly when it spells it. */
  lemma UnsignedIs(text: string, n: nat)
    ensures Unsigned(text) == Some(n) <==> Spells(text, n)
  {
    if Unsigned(text) == Some(n) {
      DigitsSpell(text, n);
    }
    if Spells(text, n) {
      var z: nat :| text == Zeros(z) + ShowNat(n);
      DigitsInvertShow(n);
      LeadingZeros(z, ShowNat(n));
    }
  }

  lemma UnsignedSpells(text: string, n: int)
    ensures Unsigned(text).Some? && Unsigned(text).value == n <==> Spells(text, n)
  {
    if n >= 0 {
      UnsignedIs(text, n);
    }
  }

  /** Accepted as a number: an optional plus sign and decimal digits within 32 bits, and nothing else. */
  lemma UnsignedNumbersAre(text: string, n: u32)
    ensures ParseU32(text) == Some(n) <==> Spells(text, n) || (text != "" && text[0] == '+' && Spells(text[1..], n))
  {
    UnsignedIs(text, n);
    if text != "" {
      UnsignedIs(text[1..], n);
      if text[0] == '+' {
        SignIsNoDigit(text);
      }
    }
  }

  lemma SignIsNoDigit(text: string)
    requires text != "" && !IsDigit(text[0])
    ensures DigitsValue(text) == None
  {
    FirstMustBeDigit(text);
  }

  lemma {:induction false} FirstMustBeDigit(text: string)
    requires text != "" && !IsDigit(text[0])
    ensures DigitsValue(text) == None
  {
    if |text| > 1 {
      FirstMustBeDigit(text[..|text| - 1]);
    }
  }

  /** The same for signed numbers, with a plus or a minus sign. */
  lemma SignedNumbersAre(text: string, n: i32)
    ensures (
      ParseI32(text) == Some(n) <==>
      || Spells(text, n)
      || (text != "" && text[0] == '+' && Spells(text[1..], n))
      || (text != "" && text[0] == '-' && Spells(text[1..], 0 - n)))
  {
    SignDecides(text, n);
    UnsignedSpells(text, n);
    if text != "" {
      UnsignedSpells(text[1..], n);
      UnsignedSpells(text[1..], 0 - n);
      if text[0] == '+' || text[0] == '-' {
        SignIsNoDigit(text);
      }
    }
    hide Unsigned, Spells, ParseI32;
  }

  lemma SignDecides(text: string, n: i32)
    ensures (
      ParseI32(text) == Some(n) <==>
      if text != "" && text[0] == '-' then Unsigned(text[1..]).Some? && Unsigned(text[1..]).value == 0 - n
      else if text != "" && text[0] == '+' then Unsigned(text[1..]).Some? && Unsigned(text[1..]).value == n
      else Unsigned(text).Some? && Unsigned(text).value == n)
  {
    hide Unsigned;
  }

  // ---- lines that are skipped ----------------------------------------------------------------------

  /** A comment or nothing, blanks at both ends aside. */
  predicate IsSkipped(line: string) { Trim(line) == "" || (|Trim(line)| >= 2 && Trim(line)[0] == '/' && Trim(line)[1] == '/') }

  lemma SkippedReadsNothing(reader: Reader, line: string)
    requires IsSkipped(line)
    ensures ReadLine(reader, line) == Ok(reader)
  {
    hide Trim;
  }

  /** A comment or a blank line anywhere changes nothing. */
  lemma {:induction false} SkippedLineIsNothing(reader: Reader, before: seq<string>, line: string, after: seq<string>)
    requires IsSkipped(line)
    ensures ReadLines(reader, before + [line] + after) == ReadLines(reader, before + after)
    decreases |before|
  {
    hide ReadLine, IsSkipped;
    var all, rest := before + [line] + after, before + after;
    if before == [] {
      SkippedReadsNothing(reader, line);
      assert all[0] == line && all[1..] == after && rest == after;
    } else {
      assert all[0] == before[0] && all[1..] == before[1..] + [line] + after;
      assert rest[0] == before[0] && rest[1..] == before[1..] + after;
      var next := ReadLine(reader, before[0]);
      if next.Ok? {
        SkippedLineIsNothing(next.value, before[1..], line, after);
      }
    }
  }

  /** An error in a line that is reached is the error of the whole source. */
  lemma {:induction false} FirstErrorStops(reader: Reader, before: seq<string>, reached: Reader, line: string, after: seq<string>, error: ConfigError)
    requires ReadLines(reader, before) == Ok(reached) && ReadLine(reached, line) == Err(error)
    ensures ReadLines(reader, before + [line] + after) == Err(error)
    decreases |before|
  {
    hide ReadLine;
    var all := before + [line] + after;
    if before == [] {
      assert all[0] == line;
    } else {
      assert all[0] == before[0] && all[1..] == before[1..] + [line] + after;
      FirstErrorStops(ReadLine(reader, before[0]).value, before[1..], reached, line, after, error);
    }
  }

  // ---- layout shorthands, repetitions, defaults ------------------------------------------------------

  /** One padding for all four sides. */
  lemma PaddingShorthand(reader: Reader, n: u32)
    requires InSection(reader, "layout")
    ensures ReadLine(reader, EntryLine(INDENT, "outer-padding", [Bare(ShowInt(n))]))
         == Ok(reader.(projection := reader.projection.(outerPadding := EdgeInsets(n, n, n, n))))
  {
    hide ReadLine, EntryLine, Entry, LayoutEntry, ShowInt, ParseU32, EndsEntry;
    NumbersInvertShow(n);
    var text := ShowInt(n);
    PaddingEntry(reader.projection, text, n);
    OneValue(Bare(text));
    assert ["outer-padding"] + [text] == ["outer-padding", text];
    LayoutEntryReads(reader, ["outer-padding", text], reader.projection.(outerPadding := EdgeInsets(n, n, n, n)));
    EntryReads(reader, INDENT, "outer-padding", [Bare(text)]);
  }

  lemma PaddingEntry(p: ConfigProjection, text: string, n: u32)
    requires ParseU32(text) == Some(n)
    ensures LayoutEntry(p, ["outer-padding", text]) == Ok(p.(outerPadding := EdgeInsets(n, n, n, n)))
  {
    hide ParseU32;
  }

  /** A monitor binding is added without the blanks around it, once for all spellings; an empty one is an error. */
  lemma BindingsAreAdded(bindings: seq<string>, binding: string)
    ensures var name := Trim(binding);
            AppendBinding(bindings, binding) ==
              if name == "" then Err(Validation("monitors managed-binding must not be empty"))
              else if exists i :: 0 <= i < |bindings| && SameIgnoringCase(bindings[i], name) then Ok(bindings)
              else Ok(bindings + [name])
  {
    hide Trim, EqIgnoreAsciiCase, SameIgnoringCase;
    forall i | 0 <= i < |bindings|
      ensures EqIgnoreAsciiCase(bindings[i], Trim(binding)) <==> SameIgnoringCase(bindings[i], Trim(binding))
    {
      CaseIsFolded(bindings[i], Trim(binding));
    }
  }

  /** A layout number that does not parse, or is missing, is an error; so is a mode that is none of the four. */
  lemma LayoutRejects(p: ConfigProjection, field: LayoutField, text: string)
    ensures ParseU32(text).None? ==> LayoutEntry(p, [field.Name(), text]).Err?
    ensures LayoutEntry(p, [field.Name()]).Err?
    ensures text !in ["normal", "tabbed", "maximized-column", "custom-width"] ==> LayoutEntry(p, ["default-column-mode", text]).Err?
  {
    hide ParseU32;
  }

  /** A source without any entry gives the defaults: no hotkeys, no rules, no gestures. */
  lemma NothingGivesDefaults(version: nat)
    ensures ParseSource("", version) ==
              Ok(LoadedConfig(
                ConfigProjection(version, 240, Normal, MonitorFraction(1, 2), EdgeInsets(16, 16, 16, 16), 12, 12, 16, [], 0),
                Coexistence, [], TouchpadConfig(false, []), []))
  {
  }

  /** A rule that names nothing but its id has priority 0, is on, matches every window and sets nothing. */
  lemma BareRule(reader: Reader, id: string)
    requires reader.section == Some("rules") && reader.rule.None?
    ensures OpenBlock(reader, ["rule", id])
         == Ok(reader.(rule := Some(WindowRule(id, 0, true, RuleMatch(None, None, None), RuleActions(None, None, None, None)))))
  {
  }

  /** Values that are none of the known words, or no number, are errors in every other section too. */
  lemma SettingsReject(reader: Reader, text: string)
    ensures text !in ["wm-only", "extended-shell", "safe-mode"] ==> GeneralEntry(reader, ["mode", text]).Err?
    ensures text !in ["coexistence", "managed-shell", "deep-override"] ==> InputEntry(reader, ["bind-control-mode", text]).Err?
    ensures text !in ["true", "false"] ==> InputEntry(reader, ["touchpad-override", text]).Err?
  {
  }

  lemma RulesReject(rule: WindowRule, text: string)
    ensures text !in ["true", "false"] ==> RuleEntry(rule, ["enabled", text]).Err? && ActionEntry(rule.actions, ["managed", text]).Err?
    ensures ParseI32(text).None? ==> RuleEntry(rule, ["priority", text]).Err?
  {
    hide ParseI32;
  }

  lemma ActionsReject(actions: RuleActions, text: string)
    ensures text !in ["tiled", "floating", "fullscreen"] ==> ActionEntry(actions, ["layer", text]).Err?
    ensures text !in ["normal", "tabbed", "maximized-column", "custom-width"] ==> ActionEntry(actions, ["column-mode", text]).Err?
  {
  }

  /** A hotkey or a gesture needs both its texts. */
  lemma PairsNeedBoth(reader: Reader, text: string)
    ensures InputEntry(reader, ["hotkey"]).Err? && InputEntry(reader, ["hotkey", text]).Err?
    ensures InputEntry(reader, ["touchpad-gesture"]).Err? && InputEntry(reader, ["touchpad-gesture", text]).Err?
  {
  }

  function EnabledAt(rules: seq<WindowRule>): set<nat> { set i: nat | i < |rules| && rules[i].enabled }

  /** The reported number of active rules counts the enabled ones. */
  lemma {:induction false} EnabledAreCounted(rules: seq<WindowRule>)
    ensures EnabledCount(rules) == |EnabledAt(rules)|
  {
    if rules != [] {
      var front, n := rules[..|rules| - 1], |rules| - 1;
      EnabledAreCounted(front);
      assert EnabledAt(rules) == EnabledAt(front) + if rules[n].enabled then {n as nat} else {};
      assert n !in EnabledAt(front);
    }
  }

  const LAYOUT_NAMES: seq<string> :=
    ["strip-scroll-step", "outer-padding", "outer-padding-left", "outer-padding-top", "outer-padding-right", "outer-padding-bottom",
     "column-gap", "window-gap", "floating-margin", "default-column-mode", "default-column-width"]

  /** A name the parser does not know changes nothing, whatever its values, and so does any entry of an unknown section. */
  lemma UnknownNamesAreIgnored(reader: Reader, rule: WindowRule, name: string, values: Tokens)
    ensures name !in LAYOUT_NAMES ==> LayoutEntry(reader.projection, [name] + values) == Ok(reader.projection)
    ensures name !in ["bind-control-mode", "hotkey", "touchpad-override", "touchpad-gesture"] ==> InputEntry(reader, [name] + values) == Ok(reader)
    ensures name != "managed-binding" ==> MonitorsEntry(reader, [name] + values) == Ok(reader)
    ensures name != "mode" ==> GeneralEntry(reader, [name] + values) == Ok(reader)
  {
  }

  lemma UnknownRuleNamesAreIgnored(rule: WindowRule, name: string, values: Tokens)
    ensures name !in ["priority", "enabled", "match-process-name", "match-class-substring", "match-title-substring"] ==>
              RuleEntry(rule, [name] + values) == Ok(rule)
    ensures name !in ["layer", "column-mode", "width", "managed"] ==> ActionEntry(rule.actions, [name] + values) == Ok(rule.actions)
  {
  }

  lemma UnknownSectionsAreIgnored(reader: Reader, tokens: Tokens)
    requires tokens != [] && reader.section !in [Some("general"), Some("monitors"), Some("layout"), Some("input"), Some("rules")]
    ensures Entry(reader, tokens) == Ok(reader)
  {
  }

  /** A width is a kind the parser knows with the numbers it needs, or an error. */
  lemma WidthsReject(kind: string, values: Tokens)
    ensures kind !in ["fixed", "fraction", "full"] ==> ParseWidth([kind] + values).Err?
    ensures ParseWidth([]).Err? && ParseWidth(["fixed"]).Err? && ParseWidth(["fraction"]).Err?
    ensures forall n :: ParseWidth(["fraction", n]).Err?
  {
  }
}
