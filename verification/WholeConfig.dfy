// Every setting of a configuration, printed and parsed again.
module WholeConfig {
  import opened Wrappers
  import opened MachineInt
  import opened Domain
  import opened Text
  import opened WindowRules
  import opened Config
  import opened ConfigProofs
  import opened ConfigRoundTrip

  const INDENT := "  "

  /** Read one line that is an entry of the current section. */
  lemma EntryLineReads(reader: Reader, name: string, values: seq<Piece>, after: Reader)
    requires IsName(name) && AllValid(values) && values != [] && EndsEntry(values[|values| - 1])
    requires Entry(reader, [name] + Values(values)) == Ok(after)
    ensures ReadLines(reader, [EntryLine(INDENT, name, values)]) == Ok(after)
  {
    hide Entry, Values, EntryLine, ReadLines, ReadLine, AllValid, EndsEntry, IsName;
    EntryReads(reader, INDENT, name, values);
    OneLine(reader, EntryLine(INDENT, name, values));
  }

  lemma SectionOpens(reader: Reader, name: string)
    requires AtTop(reader) && IsName(name)
    ensures ReadLines(reader, [HeaderLine("", name, [])]) == Ok(reader.(section := Some(name)))
  {
    hide HeaderLine, ReadLine, ReadLines, IsName;
    HeaderReads(reader, "", name, []);
    assert [name] + Values([]) == [name];
    OneLine(reader, HeaderLine("", name, []));
  }

  /** Inside the section of this name, no rule open. */
  ghost predicate InSection(reader: Reader, name: string) { reader.section == Some(name) && reader.rule.None? && !reader.inActions }

  function Section(name: string, lines: seq<string>): seq<string> { [HeaderLine("", name, [])] + lines + ["" + "}"] }

  /** A section reads as its lines do inside it. */
  lemma SectionReads(reader: Reader, name: string, lines: seq<string>, after: Reader)
    requires AtTop(reader) && IsName(name) && AtTop(after)
    requires ReadLines(reader.(section := Some(name)), lines) == Ok(after.(section := Some(name)))
    ensures ReadLines(reader, Section(name, lines)) == Ok(after)
  {
    hide HeaderLine, ReadLine, ReadLines, IsName;
    SectionOpens(reader, name);
    CloseLineReads(after.(section := Some(name)), "");
    Chain(reader, [HeaderLine("", name, [])], reader.(section := Some(name)), lines, after.(section := Some(name)));
    Chain(reader, [HeaderLine("", name, [])] + lines, after.(section := Some(name)), ["" + "}"], after);
  }

  lemma SectionIsLines(name: string, lines: seq<string>)
    requires '\n' !in name && OneLiners(lines)
    ensures OneLiners(Section(name, lines))
  {
    LineIsOneLine("", name, []);
    hide HeaderLine;
  }

  // ---- general ---------------------------------------------------------------------------------

  predicate IsGeneralMode(mode: string) { mode in ["wm-only", "extended-shell", "safe-mode"] }

  function GeneralLines(mode: string): seq<string> { [EntryLine(INDENT, "mode", [Quoted(mode)])] }

  lemma GeneralEntryIgnores(reader: Reader, mode: string)
    requires InSection(reader, "general") && IsGeneralMode(mode)
    ensures Entry(reader, ["mode", mode]) == Ok(reader)
  {
  }

  lemma GeneralModeIsPrintable(mode: string)
    requires IsGeneralMode(mode)
    ensures Quoted(mode).Valid() && '\n' !in mode
  {
  }

  lemma GeneralReads(reader: Reader, mode: string)
    requires InSection(reader, "general") && IsGeneralMode(mode)
    ensures ReadLines(reader, GeneralLines(mode)) == Ok(reader)
  {
    GeneralEntryIgnores(reader, mode);
    GeneralModeIsPrintable(mode);
    hide Entry, EntryLine, ReadLines, IsGeneralMode;
    OneValue(Quoted(mode));
    assert ["mode"] + [mode] == ["mode", mode];
    EntryLineReads(reader, "mode", [Quoted(mode)], reader);
  }

  // ---- monitors --------------------------------------------------------------------------------

  /** Trimmed, not empty, and no two alike but for case: what the parser lets into a binding list. */
  ghost predicate CleanBindings(bindings: seq<string>) {
    && (forall b :: b in bindings ==> Trim(b) == b && b != "")
    && (forall i, j :: 0 <= i < j < |bindings| ==> !EqIgnoreAsciiCase(bindings[i], bindings[j]))
  }

  lemma AppendKeepsClean(bindings: seq<string>, binding: string)
    requires CleanBindings(bindings)
    ensures AppendBinding(bindings, binding).Ok? ==> CleanBindings(AppendBinding(bindings, binding).value)
  {
    TrimTwice(binding);
    hide Trim, EqIgnoreAsciiCase;
  }

  lemma {:induction false} TrimEndStarts(s: string)
    ensures TrimEnd(s) != "" ==> !IsWhitespace(TrimEnd(s)[|TrimEnd(s)| - 1]) && s != "" && TrimEnd(s)[0] == s[0]
  {
    if s != "" && IsWhitespace(s[|s| - 1]) {
      TrimEndStarts(s[..|s| - 1]);
    }
  }

  lemma {:induction false} TrimStartStarts(s: string)
    ensures TrimStart(s) != "" ==> !IsWhitespace(TrimStart(s)[0])
  {
    if s != "" && IsWhitespace(s[0]) {
      TrimStartStarts(s[1..]);
    }
  }

  lemma TrimTwice(s: string)
    ensures Trim(Trim(s)) == Trim(s)
  {
    TrimStartStarts(s);
    TrimEndStarts(TrimStart(s));
    if Trim(s) != "" {
      TrimKeeps(Trim(s));
    }
  }

  function MonitorLines(bindings: seq<string>): seq<string> {
    if bindings == [] then []
    else MonitorLines(bindings[..|bindings| - 1]) + [EntryLine(INDENT, "managed-binding", [Quoted(bindings[|bindings| - 1])])]
  }

  function WithBindings(reader: Reader, bindings: seq<string>): Reader {
    reader.(projection := reader.projection.(managedMonitorBindings := bindings))
  }

  lemma BindingEntry(reader: Reader, binding: string, bindings: seq<string>)
    requires InSection(reader, "monitors")
    requires AppendBinding(reader.projection.managedMonitorBindings, binding) == Ok(bindings)
    ensures Entry(reader, ["managed-binding", binding]) == Ok(WithBindings(reader, bindings))
  {
    hide AppendBinding;
  }

  lemma MonitorReads(reader: Reader, binding: string, bindings: seq<string>)
    requires InSection(reader, "monitors") && Printable(binding)
    requires AppendBinding(reader.projection.managedMonitorBindings, binding) == Ok(bindings)
    ensures ReadLines(reader, [EntryLine(INDENT, "managed-binding", [Quoted(binding)])]) == Ok(WithBindings(reader, bindings))
  {
    hide ReadLines, EntryLine, Entry, AppendBinding;
    BindingEntry(reader, binding, bindings);
    OneValue(Quoted(binding));
    assert ["managed-binding"] + [binding] == ["managed-binding", binding];
    EntryLineReads(reader, "managed-binding", [Quoted(binding)], WithBindings(reader, bindings));
  }

  lemma {:induction false} MonitorsRead(reader: Reader, bindings: seq<string>)
    requires InSection(reader, "monitors") && reader.projection.managedMonitorBindings == []
    requires CleanBindings(bindings) && forall b :: b in bindings ==> Printable(b)
    ensures ReadLines(reader, MonitorLines(bindings)) == Ok(WithBindings(reader, bindings))
  {
    hide ReadLines, EntryLine, CleanBindings, Printable, AppendBinding;
    if bindings == [] {
      NothingReads(reader);
    } else {
      var front, last := bindings[..|bindings| - 1], bindings[|bindings| - 1];
      assert bindings == front + [last];
      LastIsAppended(front, last);
      MonitorsRead(reader, front);
      var before, after := WithBindings(reader, front), WithBindings(reader, bindings);
      MonitorReads(before, last, bindings);
      Chain(reader, MonitorLines(front), before, [EntryLine(INDENT, "managed-binding", [Quoted(last)])], after);
    }
  }

  lemma LastIsAppended(front: seq<string>, last: string)
    requires CleanBindings(front + [last])
    ensures CleanBindings(front) && AppendBinding(front, last) == Ok(front + [last])
  {
    hide Trim, EqIgnoreAsciiCase;
    var all := front + [last];
    assert all[|front|] == last && last in all;
    forall i | 0 <= i < |front|
      ensures !EqIgnoreAsciiCase(front[i], last) && front[i] in all
    {
      assert all[i] == front[i];
    }
    forall i, j | 0 <= i < j < |front|
      ensures !EqIgnoreAsciiCase(front[i], front[j])
    {
      assert all[i] == front[i] && all[j] == front[j];
    }
  }

  // ---- layout ----------------------------------------------------------------------------------

  datatype LayoutField = Step | PadLeft | PadTop | PadRight | PadBottom | ColumnGap | WindowGap | Margin
  {
    function Name(): string {
      match this
      case Step => "strip-scroll-step"
      case PadLeft => "outer-padding-left"
      case PadTop => "outer-padding-top"
      case PadRight => "outer-padding-right"
      case PadBottom => "outer-padding-bottom"
      case ColumnGap => "column-gap"
      case WindowGap => "window-gap"
      case Margin => "floating-margin"
    }

    function Get(p: ConfigProjection): u32 {
      match this
      case Step => p.stripScrollStep
      case PadLeft => p.outerPadding.left
      case PadTop => p.outerPadding.top
      case PadRight => p.outerPadding.right
      case PadBottom => p.outerPadding.bottom
      case ColumnGap => p.columnGap
      case WindowGap => p.windowGap
      case Margin => p.floatingMargin
    }

    function Set(p: ConfigProjection, n: u32): ConfigProjection {
      match this
      case Step => p.(stripScrollStep := n)
      case PadLeft => p.(outerPadding := p.outerPadding.(left := n))
      case PadTop => p.(outerPadding := p.outerPadding.(top := n))
      case PadRight => p.(outerPadding := p.outerPadding.(right := n))
      case PadBottom => p.(outerPadding := p.outerPadding.(bottom := n))
      case ColumnGap => p.(columnGap := n)
      case WindowGap => p.(windowGap := n)
      case Margin => p.(floatingMargin := n)
    }
  }

  const FIELDS: seq<LayoutField> := [Step, PadLeft, PadTop, PadRight, PadBottom, ColumnGap, WindowGap, Margin]

  function NumberLine(field: LayoutField, p: ConfigProjection): string {
    EntryLine(INDENT, field.Name(), [Bare(ShowInt(field.Get(p)))])
  }

  function NumberLines(fields: seq<LayoutField>, p: ConfigProjection): seq<string> {
    if fields == [] then [] else [NumberLine(fields[0], p)] + NumberLines(fields[1..], p)
  }

  /** The projection with these fields taken from p. */
  function Copied(fields: seq<LayoutField>, into: ConfigProjection, p: ConfigProjection): ConfigProjection {
    if fields == [] then into else Copied(fields[1..], fields[0].Set(into, fields[0].Get(p)), p)
  }

  function LayoutLines(p: ConfigProjection): seq<string> {
    NumberLines(FIELDS, p)
    + [EntryLine(INDENT, "default-column-mode", [Quoted(ShowMode(p.defaultColumnMode))])]
    + [EntryLine(INDENT, "default-column-width", ShowWidth(p.defaultColumnWidth))]
  }

  lemma NumberEntry(field: LayoutField, p: ConfigProjection, text: string, n: u32)
    requires ParseU32(text) == Some(n)
    ensures LayoutEntry(p, [field.Name(), text]) == Ok(field.Set(p, n))
  {
    hide ParseU32;
    match field
    case Step =>
    case PadLeft =>
    case PadTop =>
    case PadRight =>
    case PadBottom =>
    case ColumnGap =>
    case WindowGap =>
    case Margin =>
  }

  lemma FieldNameIsName(field: LayoutField)
    ensures IsName(field.Name()) && '\n' !in field.Name()
  {
  }

  lemma LayoutEntryReads(reader: Reader, tokens: Tokens, after: ConfigProjection)
    requires InSection(reader, "layout") && tokens != [] && LayoutEntry(reader.projection, tokens) == Ok(after)
    ensures Entry(reader, tokens) == Ok(reader.(projection := after))
  {
    hide LayoutEntry;
  }

  lemma NumberReads(reader: Reader, field: LayoutField, p: ConfigProjection)
    requires InSection(reader, "layout")
    ensures ReadLines(reader, [NumberLine(field, p)]) == Ok(reader.(projection := field.Set(reader.projection, field.Get(p))))
  {
    hide ReadLines, EntryLine, Entry, LayoutEntry, ShowInt, ParseU32, IsName, EndsEntry, LayoutField.Name, LayoutField.Set, LayoutField.Get;
    var n := field.Get(p);
    var text := ShowInt(n);
    NumbersInvertShow(n);
    FieldNameIsName(field);
    NumberEntry(field, reader.projection, text, n);
    OneValue(Bare(text));
    assert [field.Name()] + [text] == [field.Name(), text];
    LayoutEntryReads(reader, [field.Name(), text], field.Set(reader.projection, n));
    EntryLineReads(reader, field.Name(), [Bare(text)], reader.(projection := field.Set(reader.projection, n)));
  }

  lemma {:induction false} NumbersRead(reader: Reader, fields: seq<LayoutField>, p: ConfigProjection)
    requires InSection(reader, "layout")
    ensures ReadLines(reader, NumberLines(fields, p)) == Ok(reader.(projection := Copied(fields, reader.projection, p)))
    decreases |fields|
  {
    hide ReadLines, NumberLine, LayoutField.Set, LayoutField.Get;
    if fields == [] {
      NothingReads(reader);
    } else {
      NumberReads(reader, fields[0], p);
      var next := reader.(projection := fields[0].Set(reader.projection, fields[0].Get(p)));
      NumbersRead(next, fields[1..], p);
      Chain(reader, [NumberLine(fields[0], p)], next, NumberLines(fields[1..], p), reader.(projection := Copied(fields, reader.projection, p)));
    }
  }

  lemma ColumnModeEntry(p: ConfigProjection, text: string, mode: ColumnMode)
    requires ParseColumnMode(text) == Ok(mode)
    ensures LayoutEntry(p, ["default-column-mode", text]) == Ok(p.(defaultColumnMode := mode))
  {
    hide ParseColumnMode;
  }

  lemma ColumnWidthEntry(p: ConfigProjection, values: Tokens, width: WidthSemantics)
    requires ParseWidth(values) == Ok(width)
    ensures LayoutEntry(p, ["default-column-width"] + values) == Ok(p.(defaultColumnWidth := width))
  {
    hide ParseWidth;
    assert (["default-column-width"] + values)[1..] == values;
  }

  lemma ColumnModeReads(reader: Reader, mode: ColumnMode)
    requires InSection(reader, "layout")
    ensures ReadLines(reader, [EntryLine(INDENT, "default-column-mode", [Quoted(ShowMode(mode))])])
         == Ok(reader.(projection := reader.projection.(defaultColumnMode := mode)))
  {
    hide ReadLines, EntryLine, Entry, LayoutEntry, ShowMode, ParseColumnMode;
    var text := ShowMode(mode);
    ModeParses(mode);
    ModeIsPrintable(mode);
    ColumnModeEntry(reader.projection, text, mode);
    OneValue(Quoted(text));
    assert ["default-column-mode"] + [text] == ["default-column-mode", text];
    LayoutEntryReads(reader, ["default-column-mode", text], reader.projection.(defaultColumnMode := mode));
    EntryLineReads(reader, "default-column-mode", [Quoted(text)], reader.(projection := reader.projection.(defaultColumnMode := mode)));
  }

  lemma ColumnWidthReads(reader: Reader, width: WidthSemantics)
    requires InSection(reader, "layout")
    ensures ReadLines(reader, [EntryLine(INDENT, "default-column-width", ShowWidth(width))])
         == Ok(reader.(projection := reader.projection.(defaultColumnWidth := width)))
  {
    hide ReadLines, EntryLine, Entry, LayoutEntry, ShowWidth, ParseWidth, Values, EndsEntry, AllValid;
    WidthParses(width);
    WidthIsPrintable(width);
    ColumnWidthEntry(reader.projection, Values(ShowWidth(width)), width);
    LayoutEntryReads(reader, ["default-column-width"] + Values(ShowWidth(width)), reader.projection.(defaultColumnWidth := width));
    EntryLineReads(reader, "default-column-width", ShowWidth(width), reader.(projection := reader.projection.(defaultColumnWidth := width)));
  }

  function WithLayout(into: ConfigProjection, p: ConfigProjection): ConfigProjection {
    Copied(FIELDS, into, p).(defaultColumnMode := p.defaultColumnMode, defaultColumnWidth := p.defaultColumnWidth)
  }

  lemma LayoutReads(reader: Reader, p: ConfigProjection)
    requires InSection(reader, "layout")
    ensures ReadLines(reader, LayoutLines(p)) == Ok(reader.(projection := WithLayout(reader.projection, p)))
  {
    hide ReadLines, EntryLine, NumberLines, Copied, ShowMode, ShowWidth;
    var r1 := reader.(projection := Copied(FIELDS, reader.projection, p));
    var r2 := r1.(projection := r1.projection.(defaultColumnMode := p.defaultColumnMode));
    var r3 := r2.(projection := r2.projection.(defaultColumnWidth := p.defaultColumnWidth));
    NumbersRead(reader, FIELDS, p);
    ColumnModeReads(r1, p.defaultColumnMode);
    ColumnWidthReads(r2, p.defaultColumnWidth);
    var l1 := NumberLines(FIELDS, p);
    var l2 := [EntryLine(INDENT, "default-column-mode", [Quoted(ShowMode(p.defaultColumnMode))])];
    var l3 := [EntryLine(INDENT, "default-column-width", ShowWidth(p.defaultColumnWidth))];
    Chain(reader, l1, r1, l2, r2);
    Chain(reader, l1 + l2, r2, l3, r3);
  }

  /** The layout section carries every layout setting. */
  lemma WithLayoutCopiesAll(into: ConfigProjection, p: ConfigProjection)
    ensures WithLayout(into, p) == p.(configVersion := into.configVersion, managedMonitorBindings := into.managedMonitorBindings,
                                      activeRuleCount := into.activeRuleCount)
  {
    var p1 := Step.Set(into, Step.Get(p));
    var p2 := PadLeft.Set(p1, PadLeft.Get(p));
    var p3 := PadTop.Set(p2, PadTop.Get(p));
    var p4 := PadRight.Set(p3, PadRight.Get(p));
    var p5 := PadBottom.Set(p4, PadBottom.Get(p));
    var p6 := ColumnGap.Set(p5, ColumnGap.Get(p));
    var p7 := WindowGap.Set(p6, WindowGap.Get(p));
    CopiedStep([PadLeft, PadTop, PadRight, PadBottom, ColumnGap, WindowGap, Margin], Step, into, p);
    CopiedStep([PadTop, PadRight, PadBottom, ColumnGap, WindowGap, Margin], PadLeft, p1, p);
    CopiedStep([PadRight, PadBottom, ColumnGap, WindowGap, Margin], PadTop, p2, p);
    CopiedStep([PadBottom, ColumnGap, WindowGap, Margin], PadRight, p3, p);
    CopiedStep([ColumnGap, WindowGap, Margin], PadBottom, p4, p);
    CopiedStep([WindowGap, Margin], ColumnGap, p5, p);
    CopiedStep([Margin], WindowGap, p6, p);
    CopiedStep([], Margin, p7, p);
    assert FIELDS == [Step] + [PadLeft, PadTop, PadRight, PadBottom, ColumnGap, WindowGap, Margin];
    assert [PadLeft, PadTop, PadRight, PadBottom, ColumnGap, WindowGap, Margin] == [PadLeft] + [PadTop, PadRight, PadBottom, ColumnGap, WindowGap, Margin];
    assert [PadTop, PadRight, PadBottom, ColumnGap, WindowGap, Margin] == [PadTop] + [PadRight, PadBottom, ColumnGap, WindowGap, Margin];
    assert [PadRight, PadBottom, ColumnGap, WindowGap, Margin] == [PadRight] + [PadBottom, ColumnGap, WindowGap, Margin];
    assert [PadBottom, ColumnGap, WindowGap, Margin] == [PadBottom] + [ColumnGap, WindowGap, Margin];
    assert [ColumnGap, WindowGap, Margin] == [ColumnGap] + [WindowGap, Margin];
    assert [WindowGap, Margin] == [WindowGap] + [Margin];
    assert [Margin] == [Margin] + [];
  }

  lemma CopiedStep(rest: seq<LayoutField>, field: LayoutField, into: ConfigProjection, p: ConfigProjection)
    ensures Copied([field] + rest, into, p) == Copied(rest, field.Set(into, field.Get(p)), p)
    ensures Copied([], into, p) == into
  {
    assert ([field] + rest)[1..] == rest;
  }

  // ---- input -----------------------------------------------------------------------------------

  function ShowControlMode(mode: BindControlMode): string {
    match mode
    case Coexistence => "coexistence"
    case ManagedShell => "managed-shell"
    case DeepOverride => "deep-override"
  }

  function GestureLines(gestures: seq<GestureBinding>): seq<string> {
    if gestures == [] then []
    else [EntryLine(INDENT, "touchpad-gesture", [Quoted(gestures[0].gesture), Quoted(gestures[0].command)])] + GestureLines(gestures[1..])
  }

  function ControlModeLine(mode: BindControlMode): string {
    EntryLine(INDENT, "bind-control-mode", [Quoted(ShowControlMode(mode))])
  }

  function OverrideLine(enabled: bool): string { EntryLine(INDENT, "touchpad-override", [Bare(ShowBool(enabled))]) }

  function InputLines(config: LoadedConfig): seq<string> {
    [ControlModeLine(config.bindControlMode)] + [OverrideLine(config.touchpad.overrideEnabled)]
    + HotkeyLines(config.hotkeys) + GestureLines(config.touchpad.gestures)
  }

  ghost predicate PrintableGesture(g: GestureBinding) { Printable(g.gesture) && Printable(g.command) }

  lemma ControlModeParses(mode: BindControlMode)
    ensures ParseBindControlMode(ShowControlMode(mode)) == Ok(mode)
  {
    match mode
    case Coexistence =>
    case ManagedShell =>
    case DeepOverride =>
  }

  lemma ControlModeIsPrintable(mode: BindControlMode)
    ensures Quoted(ShowControlMode(mode)).Valid() && '\n' !in ShowControlMode(mode)
  {
  }

  lemma ControlModeEntry(reader: Reader, text: string, mode: BindControlMode)
    requires InSection(reader, "input") && ParseBindControlMode(text) == Ok(mode)
    ensures Entry(reader, ["bind-control-mode", text]) == Ok(reader.(bindControlMode := mode))
  {
    hide ParseBindControlMode;
  }

  lemma ControlModeReads(reader: Reader, mode: BindControlMode)
    requires InSection(reader, "input")
    ensures ReadLines(reader, [ControlModeLine(mode)]) == Ok(reader.(bindControlMode := mode))
  {
    hide ReadLines, EntryLine, Entry, ShowControlMode, ParseBindControlMode;
    var text := ShowControlMode(mode);
    ControlModeParses(mode);
    ControlModeIsPrintable(mode);
    ControlModeEntry(reader, text, mode);
    OneValue(Quoted(text));
    assert ["bind-control-mode"] + [text] == ["bind-control-mode", text];
    EntryLineReads(reader, "bind-control-mode", [Quoted(text)], reader.(bindControlMode := mode));
  }

  lemma OverrideEntry(reader: Reader, text: string, enabled: bool)
    requires InSection(reader, "input") && ParseBool(text, "input touchpad-override") == Ok(enabled)
    ensures Entry(reader, ["touchpad-override", text]) == Ok(reader.(touchpad := reader.touchpad.(overrideEnabled := enabled)))
  {
    hide ParseBool;
  }

  lemma OverrideReads(reader: Reader, enabled: bool)
    requires InSection(reader, "input")
    ensures ReadLines(reader, [OverrideLine(enabled)]) == Ok(reader.(touchpad := reader.touchpad.(overrideEnabled := enabled)))
  {
    hide ReadLines, EntryLine, Entry, ShowBool, ParseBool, EndsEntry;
    var text := ShowBool(enabled);
    BoolParses(enabled, "input touchpad-override");
    OverrideEntry(reader, text, enabled);
    OneValue(Bare(text));
    assert ["touchpad-override"] + [text] == ["touchpad-override", text];
    EntryLineReads(reader, "touchpad-override", [Bare(text)], reader.(touchpad := reader.touchpad.(overrideEnabled := enabled)));
  }

  function WithGestures(reader: Reader, gestures: seq<GestureBinding>): Reader {
    reader.(touchpad := reader.touchpad.(gestures := gestures))
  }

  lemma GestureEntry(reader: Reader, g: GestureBinding)
    requires InSection(reader, "input")
    ensures Entry(reader, ["touchpad-gesture", g.gesture, g.command]) == Ok(WithGestures(reader, reader.touchpad.gestures + [g]))
  {
  }

  lemma {:induction false} GesturesRead(reader: Reader, gestures: seq<GestureBinding>)
    requires InSection(reader, "input") && forall g :: g in gestures ==> PrintableGesture(g)
    ensures ReadLines(reader, GestureLines(gestures)) == Ok(WithGestures(reader, reader.touchpad.gestures + gestures))
    decreases |gestures|
  {
    hide ReadLines, EntryLine, Entry;
    if gestures == [] {
      NothingReads(reader);
      assert reader.touchpad.gestures + gestures == reader.touchpad.gestures;
    } else {
      var g := gestures[0];
      assert g in gestures;
      var next := WithGestures(reader, reader.touchpad.gestures + [g]);
      GestureEntry(reader, g);
      TwoValues(Quoted(g.gesture), Quoted(g.command));
      assert ["touchpad-gesture"] + [g.gesture, g.command] == ["touchpad-gesture", g.gesture, g.command];
      EntryLineReads(reader, "touchpad-gesture", [Quoted(g.gesture), Quoted(g.command)], next);
      GesturesRead(next, gestures[1..]);
      assert next.touchpad.gestures + gestures[1..] == reader.touchpad.gestures + gestures;
      hide PrintableGesture;
      Chain(reader, [EntryLine(INDENT, "touchpad-gesture", [Quoted(g.gesture), Quoted(g.command)])], next,
            GestureLines(gestures[1..]), WithGestures(reader, reader.touchpad.gestures + gestures));
    }
  }

  lemma InputReads(reader: Reader, config: LoadedConfig)
    requires InSection(reader, "input") && reader.hotkeys == [] && reader.touchpad.gestures == []
    requires (forall b :: b in config.hotkeys ==> PrintableBinding(b)) && forall g :: g in config.touchpad.gestures ==> PrintableGesture(g)
    ensures ReadLines(reader, InputLines(config))
         == Ok(reader.(bindControlMode := config.bindControlMode, hotkeys := config.hotkeys, touchpad := config.touchpad))
  {
    hide ReadLines, ControlModeLine, OverrideLine, HotkeyLines, GestureLines, PrintableBinding, PrintableGesture;
    var r1 := reader.(bindControlMode := config.bindControlMode);
    var r2 := r1.(touchpad := r1.touchpad.(overrideEnabled := config.touchpad.overrideEnabled));
    var r3 := r2.(hotkeys := config.hotkeys);
    var r4 := WithGestures(r3, config.touchpad.gestures);
    ControlModeReads(reader, config.bindControlMode);
    OverrideReads(r1, config.touchpad.overrideEnabled);
    ReadsHotkeys(r2, config.hotkeys);
    assert [] + config.hotkeys == config.hotkeys && [] + config.touchpad.gestures == config.touchpad.gestures;
    GesturesRead(r3, config.touchpad.gestures);
    var l1, l2, l3, l4 := [ControlModeLine(config.bindControlMode)], [OverrideLine(config.touchpad.overrideEnabled)],
                          HotkeyLines(config.hotkeys), GestureLines(config.touchpad.gestures);
    Chain(reader, l1, r1, l2, r2);
    Chain(reader, l1 + l2, r2, l3, r3);
    Chain(reader, l1 + l2 + l3, r3, l4, r4);
  }

  // ---- the file ----------------------------------------------------------------------------------

  /** A whole configuration in the sections and the order of the default file. */
  function ConfigLines(mode: string, config: LoadedConfig): seq<string> {
    Section("general", GeneralLines(mode))
    + Section("monitors", MonitorLines(config.projection.managedMonitorBindings))
    + Section("layout", LayoutLines(config.projection))
    + Section("input", InputLines(config))
    + RulesSection(config.rules)
  }

  ghost predicate PrintableConfig(config: LoadedConfig) {
    && CleanBindings(config.projection.managedMonitorBindings)
    && (forall b :: b in config.projection.managedMonitorBindings ==> Printable(b))
    && (forall b :: b in config.hotkeys ==> PrintableBinding(b))
    && (forall g :: g in config.touchpad.gestures ==> PrintableGesture(g))
    && (forall r :: r in config.rules ==> PrintableRule(r))
  }

  /** What the parser has read after the input section. */
  function ReaderFor(config: LoadedConfig, version: nat): Reader {
    Reader(config.projection.(configVersion := version, activeRuleCount := 0), config.bindControlMode, config.hotkeys, config.touchpad,
           [], None, None, false)
  }

  lemma SettingsRead(mode: string, config: LoadedConfig, version: nat)
    requires IsGeneralMode(mode) && PrintableConfig(config)
    ensures ReadLines(NewReader(version),
                      Section("general", GeneralLines(mode)) + Section("monitors", MonitorLines(config.projection.managedMonitorBindings))
                      + Section("layout", LayoutLines(config.projection)) + Section("input", InputLines(config)))
         == Ok(ReaderFor(config, version))
  {
    hide ReadLines, Section, GeneralLines, MonitorLines, LayoutLines, InputLines, CleanBindings, IsGeneralMode,
         PrintableBinding, PrintableGesture, PrintableRule, Printable, WithLayout;
    var p := config.projection;
    var r0 := NewReader(version);
    var r1 := WithBindings(r0, p.managedMonitorBindings);
    var r2 := r1.(projection := WithLayout(r1.projection, p));
    var r3 := r2.(bindControlMode := config.bindControlMode, hotkeys := config.hotkeys, touchpad := config.touchpad);
    GeneralReads(r0.(section := Some("general")), mode);
    SectionReads(r0, "general", GeneralLines(mode), r0);
    MonitorsRead(r0.(section := Some("monitors")), p.managedMonitorBindings);
    SectionReads(r0, "monitors", MonitorLines(p.managedMonitorBindings), r1);
    LayoutReads(r1.(section := Some("layout")), p);
    SectionReads(r1, "layout", LayoutLines(p), r2);
    InputReads(r2.(section := Some("input")), config);
    SectionReads(r2, "input", InputLines(config), r3);
    WithLayoutCopiesAll(r1.projection, p);
    var l1, l2, l3, l4 := Section("general", GeneralLines(mode)), Section("monitors", MonitorLines(p.managedMonitorBindings)),
                          Section("layout", LayoutLines(p)), Section("input", InputLines(config));
    Chain(r0, l1, r0, l2, r1);
    Chain(r0, l1 + l2, r1, l3, r2);
    Chain(r0, l1 + l2 + l3, r2, l4, r3);
  }

  lemma {:induction false} MonitorLinesAreLines(bindings: seq<string>)
    requires forall b :: b in bindings ==> Printable(b)
    ensures OneLiners(MonitorLines(bindings))
  {
    hide EntryLine;
    if bindings != [] {
      var last := bindings[|bindings| - 1];
      assert last in bindings;
      MonitorLinesAreLines(bindings[..|bindings| - 1]);
      LineIsOneLine(INDENT, "managed-binding", [Quoted(last)]);
    }
  }

  lemma {:induction false} NumberLinesAreLines(fields: seq<LayoutField>, p: ConfigProjection)
    ensures OneLiners(NumberLines(fields, p))
  {
    hide EntryLine, ShowInt, LayoutField.Name, LayoutField.Get;
    if fields != [] {
      NumbersInvertShow(fields[0].Get(p));
      FieldNameIsName(fields[0]);
      LineIsOneLine(INDENT, fields[0].Name(), [Bare(ShowInt(fields[0].Get(p)))]);
      NumberLinesAreLines(fields[1..], p);
    }
  }

  lemma LayoutLinesAreLines(p: ConfigProjection)
    ensures OneLiners(LayoutLines(p))
  {
    hide EntryLine, NumberLines, ShowMode, ShowWidth;
    NumberLinesAreLines(FIELDS, p);
    ModeIsPrintable(p.defaultColumnMode);
    WidthIsPrintable(p.defaultColumnWidth);
    LineIsOneLine(INDENT, "default-column-mode", [Quoted(ShowMode(p.defaultColumnMode))]);
    LineIsOneLine(INDENT, "default-column-width", ShowWidth(p.defaultColumnWidth));
  }

  lemma {:induction false} GestureLinesAreLines(gestures: seq<GestureBinding>)
    requires forall g :: g in gestures ==> PrintableGesture(g)
    ensures OneLiners(GestureLines(gestures))
  {
    hide EntryLine;
    if gestures != [] {
      assert gestures[0] in gestures;
      LineIsOneLine(INDENT, "touchpad-gesture", [Quoted(gestures[0].gesture), Quoted(gestures[0].command)]);
      GestureLinesAreLines(gestures[1..]);
    }
  }

  lemma InputLinesAreLines(config: LoadedConfig)
    requires (forall b :: b in config.hotkeys ==> PrintableBinding(b)) && forall g :: g in config.touchpad.gestures ==> PrintableGesture(g)
    ensures OneLiners(InputLines(config))
  {
    hide EntryLine, HotkeyLines, GestureLines, ShowControlMode, PrintableBinding, PrintableGesture;
    ControlModeIsPrintable(config.bindControlMode);
    LineIsOneLine(INDENT, "bind-control-mode", [Quoted(ShowControlMode(config.bindControlMode))]);
    LineIsOneLine(INDENT, "touchpad-override", [Bare(ShowBool(config.touchpad.overrideEnabled))]);
    HotkeyLinesHaveNoNewline(config.hotkeys);
    GestureLinesAreLines(config.touchpad.gestures);
  }

  lemma ConfigLinesAreLines(mode: string, config: LoadedConfig)
    requires IsGeneralMode(mode) && PrintableConfig(config)
    ensures OneLiners(ConfigLines(mode, config))
  {
    hide EntryLine, Section, MonitorLines, LayoutLines, InputLines, RulesSection, CleanBindings,
         PrintableBinding, PrintableGesture, PrintableRule, Printable;
    GeneralModeIsPrintable(mode);
    LineIsOneLine(INDENT, "mode", [Quoted(mode)]);
    MonitorLinesAreLines(config.projection.managedMonitorBindings);
    LayoutLinesAreLines(config.projection);
    InputLinesAreLines(config);
    RulesSectionIsLines(config.rules);
    SectionIsLines("general", GeneralLines(mode));
    SectionIsLines("monitors", MonitorLines(config.projection.managedMonitorBindings));
    SectionIsLines("layout", LayoutLines(config.projection));
    SectionIsLines("input", InputLines(config));
  }

  /**
   * Printing every setting of a configuration and parsing the text gives that configuration back, with the version
   * of the new load, its rules sorted and the enabled ones counted.
   */
  lemma WholeConfigRoundTrips(mode: string, config: LoadedConfig, version: nat)
    requires IsGeneralMode(mode) && PrintableConfig(config)
    ensures ParseSource(Join(ConfigLines(mode, config)), version)
         == Ok(config.(projection := config.projection.(configVersion := version, activeRuleCount := EnabledCount(SortRules(config.rules))),
                       rules := SortRules(config.rules)))
  {
    hide ReadLines, Section, GeneralLines, MonitorLines, LayoutLines, InputLines, CleanBindings, IsGeneralMode, AllRuleLines,
         PrintableBinding, PrintableGesture, PrintableRule, Printable, SortRules, EnabledCount, OneLiners;
    var lines := ConfigLines(mode, config);
    var settings := Section("general", GeneralLines(mode)) + Section("monitors", MonitorLines(config.projection.managedMonitorBindings))
                    + Section("layout", LayoutLines(config.projection)) + Section("input", InputLines(config));
    assert lines == settings + RulesSection(config.rules);
    ConfigLinesAreLines(mode, config);
    LinesComeBack(settings, config.rules);
    SettingsRead(mode, config, version);
    var before := ReaderFor(config, version);
    assert [] + config.rules == config.rules;
    RulesSectionReads(before, config.rules);
    Chain(NewReader(version), settings, before, RulesSection(config.rules), before.(rules := config.rules));
  }

  lemma LinesComeBack(settings: seq<string>, rules: seq<WindowRule>)
    requires OneLiners(settings + RulesSection(rules))
    ensures Lines(Join(settings + RulesSection(rules))) == settings + RulesSection(rules)
  {
    hide Lines, Join, AllRuleLines, RulesHeader;
    LinesInvertJoin(settings + RulesSection(rules));
  }

  /** A configuration as the parser leaves it is printed and parsed back to itself. */
  lemma LoadedConfigIsFixed(mode: string, config: LoadedConfig)
    requires IsGeneralMode(mode) && PrintableConfig(config)
    requires Sorted(config.rules) && config.projection.activeRuleCount == EnabledCount(config.rules)
    ensures ParseSource(Join(ConfigLines(mode, config)), config.projection.configVersion) == Ok(config)
  {
    hide ParseSource, ConfigLines, PrintableConfig, EnabledCount;
    SortedStays(config.rules);
    WholeConfigRoundTrips(mode, config, config.projection.configVersion);
  }

  lemma {:induction false} SortedStays(rules: seq<WindowRule>)
    requires Sorted(rules)
    ensures SortRules(rules) == rules
  {
    hide RuleLess;
    if rules != [] {
      var front, last := rules[..|rules| - 1], rules[|rules| - 1];
      SortedStays(front);
      assert rules == front + [last];
      if front != [] {
        assert !RuleLess(rules[|rules| - 1], rules[|rules| - 2]);
      }
    }
  }
}
