// A printed configuration of hotkeys and window rules parses back to itself.
module ConfigRoundTrip {
  import opened Wrappers
  import opened MachineInt
  import opened Domain
  import opened Text
  import opened WindowRules
  import opened Config
  import opened ConfigProofs

  // ---- printing a rule -------------------------------------------------------------------------

  const FIELD_INDENT := "    "
  const ACTION_INDENT := "      "

  function ShowBool(b: bool): string { if b then "true" else "false" }

  function ShowLayer(layer: WindowLayer): string {
    match layer
    case Tiled => "tiled"
    case Floating => "floating"
    case Fullscreen => "fullscreen"
  }

  function ShowMode(mode: ColumnMode): string {
    match mode
    case Normal => "normal"
    case Tabbed => "tabbed"
    case MaximizedColumn => "maximized-column"
    case CustomWidth => "custom-width"
  }

  function ShowWidth(width: WidthSemantics): seq<Piece> {
    match width
    case Fixed(n) => [Quoted("fixed"), Bare(ShowInt(n))]
    case MonitorFraction(n, d) => [Quoted("fraction"), Bare(ShowInt(n)), Bare(ShowInt(d))]
    case Full => [Quoted("full")]
  }

  function TextField(name: string, value: Option<string>): seq<string> {
    if value.Some? then [EntryLine(FIELD_INDENT, name, [Quoted(value.value)])] else []
  }

  function FieldLines(rule: WindowRule): seq<string> {
    [EntryLine(FIELD_INDENT, "priority", [Bare(ShowInt(rule.priority))])]
    + [EntryLine(FIELD_INDENT, "enabled", [Bare(ShowBool(rule.enabled))])]
    + TextField("match-process-name", rule.matchers.processName)
    + TextField("match-class-substring", rule.matchers.classSubstring)
    + TextField("match-title-substring", rule.matchers.titleSubstring)
  }

  function LayerField(layer: Option<WindowLayer>): seq<string> {
    if layer.Some? then [EntryLine(ACTION_INDENT, "layer", [Quoted(ShowLayer(layer.value))])] else []
  }

  function ModeField(mode: Option<ColumnMode>): seq<string> {
    if mode.Some? then [EntryLine(ACTION_INDENT, "column-mode", [Quoted(ShowMode(mode.value))])] else []
  }

  function WidthField(width: Option<WidthSemantics>): seq<string> {
    if width.Some? then [EntryLine(ACTION_INDENT, "width", ShowWidth(width.value))] else []
  }

  function ManagedField(managed: Option<bool>): seq<string> {
    if managed.Some? then [EntryLine(ACTION_INDENT, "managed", [Bare(ShowBool(managed.value))])] else []
  }

  function ActionLines(actions: RuleActions): seq<string> {
    LayerField(actions.layer) + ModeField(actions.columnMode) + WidthField(actions.width) + ManagedField(actions.managed)
  }

  function RuleHeader(id: string): string { HeaderLine("  ", "rule", [Quoted(id)]) }

  function ActionsHeader(): string { HeaderLine(FIELD_INDENT, "actions", []) }

  function RuleLines(rule: WindowRule): seq<string> {
    [RuleHeader(rule.id)] + FieldLines(rule)
    + [ActionsHeader()] + ActionLines(rule.actions) + [FIELD_INDENT + "}"]
    + ["  " + "}"]
  }

  function AllRuleLines(rules: seq<WindowRule>): seq<string> {
    if rules == [] then [] else RuleLines(rules[0]) + AllRuleLines(rules[1..])
  }

  function RulesHeader(): string { HeaderLine("", "rules", []) }

  function RulesSection(rules: seq<WindowRule>): seq<string> { [RulesHeader()] + AllRuleLines(rules) + ["" + "}"] }

  ghost predicate PrintableText(text: Option<string>) { text.Some? ==> Printable(text.value) }

  ghost predicate PrintableRule(rule: WindowRule) {
    && Printable(rule.id)
    && PrintableText(rule.matchers.processName)
    && PrintableText(rule.matchers.classSubstring)
    && PrintableText(rule.matchers.titleSubstring)
  }

  // ---- reading it back -------------------------------------------------------------------------

  /** Lines read one after the other. */
  lemma Chain(reader: Reader, first: seq<string>, middle: Reader, second: seq<string>, end: Reader)
    requires ReadLines(reader, first) == Ok(middle) && ReadLines(middle, second) == Ok(end)
    ensures ReadLines(reader, first + second) == Ok(end)
  {
    hide ReadLines;
    ReadLinesConcat(reader, first, second);
  }

  ghost predicate InRule(reader: Reader) { reader.section == Some("rules") && reader.rule.Some? && !reader.inActions }

  ghost predicate InRuleActions(reader: Reader) { reader.section == Some("rules") && reader.rule.Some? && reader.inActions }

  lemma FieldReads(reader: Reader, name: string, values: seq<Piece>, after: WindowRule)
    requires InRule(reader)
    requires IsName(name) && AllValid(values) && values != [] && EndsEntry(values[|values| - 1])
    requires RuleEntry(reader.rule.value, [name] + Values(values)) == Ok(after)
    ensures ReadLines(reader, [EntryLine(FIELD_INDENT, name, values)]) == Ok(reader.(rule := Some(after)))
  {
    hide RuleEntry, Values, EntryLine, ReadLines, ReadLine, AllValid, EndsEntry, IsName;
    EntryReads(reader, FIELD_INDENT, name, values);
    OneLine(reader, EntryLine(FIELD_INDENT, name, values));
  }

  lemma ActionReads(reader: Reader, name: string, values: seq<Piece>, after: RuleActions)
    requires InRuleActions(reader)
    requires IsName(name) && AllValid(values) && values != [] && EndsEntry(values[|values| - 1])
    requires ActionEntry(reader.rule.value.actions, [name] + Values(values)) == Ok(after)
    ensures ReadLines(reader, [EntryLine(ACTION_INDENT, name, values)]) == Ok(WithActions(reader, after))
  {
    hide ActionEntry, Values, EntryLine, ReadLines, ReadLine, AllValid, EndsEntry, IsName;
    EntryReads(reader, ACTION_INDENT, name, values);
    OneLine(reader, EntryLine(ACTION_INDENT, name, values));
  }

  function WithActions(reader: Reader, actions: RuleActions): Reader
    requires reader.rule.Some?
  {
    reader.(rule := Some(reader.rule.value.(actions := actions)))
  }

  lemma NothingReads(reader: Reader)
    ensures ReadLines(reader, []) == Ok(reader)
  {
  }

  lemma PriorityReads(reader: Reader, priority: i32)
    requires InRule(reader)
    ensures ReadLines(reader, [EntryLine(FIELD_INDENT, "priority", [Bare(ShowInt(priority))])])
         == Ok(reader.(rule := Some(reader.rule.value.(priority := priority))))
  {
    var text := ShowInt(priority);
    NumbersInvertShow(priority);
    OneValue(Bare(text));
    hide ShowInt, ParseI32, EntryLine, ReadLines;
    assert ["priority"] + [text] == ["priority", text];
    FieldReads(reader, "priority", [Bare(text)], reader.rule.value.(priority := priority));
  }

  lemma EnabledReads(reader: Reader, enabled: bool)
    requires InRule(reader)
    ensures ReadLines(reader, [EntryLine(FIELD_INDENT, "enabled", [Bare(ShowBool(enabled))])])
         == Ok(reader.(rule := Some(reader.rule.value.(enabled := enabled))))
  {
    var text := ShowBool(enabled);
    OneValue(Bare(text));
    hide EntryLine, ReadLines;
    assert ["enabled"] + [text] == ["enabled", text];
    FieldReads(reader, "enabled", [Bare(text)], reader.rule.value.(enabled := enabled));
  }

  lemma TextFieldReads(reader: Reader, name: string, value: Option<string>, after: WindowRule)
    requires InRule(reader) && PrintableText(value) && IsName(name)
    requires value.None? ==> after == reader.rule.value
    requires value.Some? ==> RuleEntry(reader.rule.value, [name, value.value]) == Ok(after)
    ensures ReadLines(reader, TextField(name, value)) == Ok(reader.(rule := Some(after)))
  {
    hide EntryLine, RuleEntry, IsName;
    if value.None? {
      NothingReads(reader);
    } else {
      OneValue(Quoted(value.value));
      assert [name] + [value.value] == [name, value.value];
      FieldReads(reader, name, [Quoted(value.value)], after);
    }
  }

  lemma ProcessNameReads(reader: Reader, value: Option<string>)
    requires InRule(reader) && PrintableText(value) && reader.rule.value.matchers.processName.None?
    ensures ReadLines(reader, TextField("match-process-name", value))
         == Ok(WithMatchers(reader, reader.rule.value.matchers.(processName := value)))
  {
    hide ReadLines, TextField;
    var rule := reader.rule.value;
    TextFieldReads(reader, "match-process-name", value, rule.(matchers := rule.matchers.(processName := value)));
  }

  lemma ClassReads(reader: Reader, value: Option<string>)
    requires InRule(reader) && PrintableText(value) && reader.rule.value.matchers.classSubstring.None?
    ensures ReadLines(reader, TextField("match-class-substring", value))
         == Ok(WithMatchers(reader, reader.rule.value.matchers.(classSubstring := value)))
  {
    hide ReadLines, TextField;
    var rule := reader.rule.value;
    TextFieldReads(reader, "match-class-substring", value, rule.(matchers := rule.matchers.(classSubstring := value)));
  }

  lemma TitleReads(reader: Reader, value: Option<string>)
    requires InRule(reader) && PrintableText(value) && reader.rule.value.matchers.titleSubstring.None?
    ensures ReadLines(reader, TextField("match-title-substring", value))
         == Ok(WithMatchers(reader, reader.rule.value.matchers.(titleSubstring := value)))
  {
    hide ReadLines, TextField;
    var rule := reader.rule.value;
    TextFieldReads(reader, "match-title-substring", value, rule.(matchers := rule.matchers.(titleSubstring := value)));
  }

  function WithMatchers(reader: Reader, matchers: RuleMatch): Reader
    requires reader.rule.Some?
  {
    reader.(rule := Some(reader.rule.value.(matchers := matchers)))
  }

  lemma FieldLinesRead(reader: Reader, rule: WindowRule)
    requires InRule(reader) && reader.rule == Some(NewRule(rule.id)) && PrintableRule(rule)
    ensures ReadLines(reader, FieldLines(rule)) == Ok(reader.(rule := Some(rule.(actions := RuleActions(None, None, None, None)))))
  {
    hide ReadLines, EntryLine, TextField, PrintableText;
    var blank := NewRule(rule.id);
    var m := rule.matchers;
    var r1 := reader.(rule := Some(blank.(priority := rule.priority)));
    var r2 := r1.(rule := Some(r1.rule.value.(enabled := rule.enabled)));
    var r3 := r2.(rule := Some(r2.rule.value.(matchers := RuleMatch(m.processName, None, None))));
    var r4 := r2.(rule := Some(r2.rule.value.(matchers := RuleMatch(m.processName, m.classSubstring, None))));
    var r5 := r2.(rule := Some(r2.rule.value.(matchers := m)));
    var l1 := [EntryLine(FIELD_INDENT, "priority", [Bare(ShowInt(rule.priority))])];
    var l2 := [EntryLine(FIELD_INDENT, "enabled", [Bare(ShowBool(rule.enabled))])];
    var l3 := TextField("match-process-name", m.processName);
    var l4 := TextField("match-class-substring", m.classSubstring);
    var l5 := TextField("match-title-substring", m.titleSubstring);
    PriorityReads(reader, rule.priority);
    EnabledReads(r1, rule.enabled);
    ProcessNameReads(r2, m.processName);
    ClassReads(r3, m.classSubstring);
    TitleReads(r4, m.titleSubstring);
    Chain(reader, l1, r1, l2, r2);
    Chain(reader, l1 + l2, r2, l3, r3);
    Chain(reader, l1 + l2 + l3, r3, l4, r4);
    Chain(reader, l1 + l2 + l3 + l4, r4, l5, r5);
  }

  lemma LayerEntry(actions: RuleActions, layer: WindowLayer)
    ensures ActionEntry(actions, ["layer", ShowLayer(layer)]) == Ok(actions.(layer := Some(layer)))
    ensures Quoted(ShowLayer(layer)).Valid() && '\n' !in ShowLayer(layer)
  {
  }

  lemma LayerReads(reader: Reader, layer: Option<WindowLayer>)
    requires InRuleActions(reader) && reader.rule.value.actions.layer.None?
    ensures ReadLines(reader, LayerField(layer)) == Ok(WithActions(reader, reader.rule.value.actions.(layer := layer)))
  {
    hide EntryLine, ActionEntry, ShowLayer;
    if layer.Some? {
      var value := Quoted(ShowLayer(layer.value));
      OneValue(value);
      LayerEntry(reader.rule.value.actions, layer.value);
      assert ["layer"] + [value.text] == ["layer", value.text];
      ActionReads(reader, "layer", [value], reader.rule.value.actions.(layer := layer));
    }
  }

  lemma ModeParses(mode: ColumnMode)
    ensures ParseColumnMode(ShowMode(mode)) == Ok(mode)
  {
    match mode
    case Normal =>
    case Tabbed =>
    case MaximizedColumn =>
    case CustomWidth =>
  }

  lemma ModeIsPrintable(mode: ColumnMode)
    ensures Quoted(ShowMode(mode)).Valid() && '\n' !in ShowMode(mode)
  {
  }

  lemma ModeEntry(actions: RuleActions, text: string, mode: ColumnMode)
    requires ParseColumnMode(text) == Ok(mode)
    ensures ActionEntry(actions, ["column-mode", text]) == Ok(actions.(columnMode := Some(mode)))
  {
    hide ParseColumnMode;
  }

  lemma ModeReads(reader: Reader, mode: Option<ColumnMode>)
    requires InRuleActions(reader) && reader.rule.value.actions.columnMode.None?
    ensures ReadLines(reader, ModeField(mode)) == Ok(WithActions(reader, reader.rule.value.actions.(columnMode := mode)))
  {
    hide EntryLine, ActionEntry, ShowMode, ParseColumnMode;
    if mode.Some? {
      var value := Quoted(ShowMode(mode.value));
      OneValue(value);
      ModeParses(mode.value);
      ModeIsPrintable(mode.value);
      ModeEntry(reader.rule.value.actions, value.text, mode.value);
      assert ["column-mode"] + [value.text] == ["column-mode", value.text];
      ActionReads(reader, "column-mode", [value], reader.rule.value.actions.(columnMode := mode));
    }
  }

  lemma BoolParses(b: bool, field: string)
    ensures ParseBool(ShowBool(b), field) == Ok(b)
    ensures Bare(ShowBool(b)).Valid() && EndsEntry(Bare(ShowBool(b))) && '\n' !in ShowBool(b)
  {
  }

  lemma ManagedEntry(actions: RuleActions, text: string, managed: bool)
    requires ParseBool(text, "rule action managed") == Ok(managed)
    ensures ActionEntry(actions, ["managed", text]) == Ok(actions.(managed := Some(managed)))
  {
    hide ParseBool;
  }

  lemma ManagedReads(reader: Reader, managed: Option<bool>)
    requires InRuleActions(reader) && reader.rule.value.actions.managed.None?
    ensures ReadLines(reader, ManagedField(managed)) == Ok(WithActions(reader, reader.rule.value.actions.(managed := managed)))
  {
    hide EntryLine, ActionEntry, ShowBool, ParseBool, EndsEntry;
    if managed.Some? {
      var value := Bare(ShowBool(managed.value));
      OneValue(value);
      BoolParses(managed.value, "rule action managed");
      ManagedEntry(reader.rule.value.actions, value.text, managed.value);
      assert ["managed"] + [value.text] == ["managed", value.text];
      ActionReads(reader, "managed", [value], reader.rule.value.actions.(managed := managed));
    }
  }

  lemma ThreeValues(a: Piece, b: Piece, c: Piece)
    ensures Values([a, b, c]) == [a.text, b.text, c.text]
  {
    assert [a, b, c][1..] == [b, c];
    TwoValues(b, c);
  }

  lemma WidthParses(width: WidthSemantics)
    ensures ParseWidth(Values(ShowWidth(width))) == Ok(width)
  {
    hide ShowInt, ParseWidth, Values, ParseU32;
    match width
    case Fixed(n) =>
      NumbersInvertShow(n);
      TwoValues(Quoted("fixed"), Bare(ShowInt(n)));
      FixedParses(ShowInt(n), n);
    case MonitorFraction(n, d) =>
      NumbersInvertShow(n);
      NumbersInvertShow(d);
      ThreeValues(Quoted("fraction"), Bare(ShowInt(n)), Bare(ShowInt(d)));
      FractionParses(ShowInt(n), n, ShowInt(d), d);
    case Full =>
      OneValue(Quoted("full"));
      FullParses();
  }

  lemma WidthIsPrintable(width: WidthSemantics)
    ensures ShowWidth(width) != [] && AllValid(ShowWidth(width)) && EndsEntry(ShowWidth(width)[|ShowWidth(width)| - 1])
    ensures forall v :: v in ShowWidth(width) ==> '\n' !in v.text
  {
    hide ShowInt;
    match width
    case Fixed(n) => NumbersInvertShow(n);
    case MonitorFraction(n, d) =>
      NumbersInvertShow(n);
      NumbersInvertShow(d);
    case Full =>
  }

  lemma FullParses()
    ensures ParseWidth(["full"]) == Ok(Full)
  {
  }

  lemma FixedParses(text: string, n: u32)
    requires ParseU32(text) == Some(n)
    ensures ParseWidth(["fixed", text]) == Ok(Fixed(n))
  {
    hide ParseU32;
  }

  lemma FractionParses(first: string, n: u32, second: string, d: u32)
    requires ParseU32(first) == Some(n) && ParseU32(second) == Some(d)
    ensures ParseWidth(["fraction", first, second]) == Ok(MonitorFraction(n, d))
  {
    hide ParseU32;
  }

  lemma WidthEntry(actions: RuleActions, values: Tokens, width: WidthSemantics)
    requires ParseWidth(values) == Ok(width)
    ensures ActionEntry(actions, ["width"] + values) == Ok(actions.(width := Some(width)))
  {
    hide ParseWidth;
    assert (["width"] + values)[1..] == values;
  }

  lemma WidthReads(reader: Reader, width: Option<WidthSemantics>)
    requires InRuleActions(reader) && reader.rule.value.actions.width.None?
    ensures ReadLines(reader, WidthField(width)) == Ok(WithActions(reader, reader.rule.value.actions.(width := width)))
  {
    hide EntryLine, ReadLines, ParseWidth, AllValid, EndsEntry, Values, ActionEntry, ShowWidth;
    if width.None? {
      NothingReads(reader);
    } else {
      var values := ShowWidth(width.value);
      WidthParses(width.value);
      WidthIsPrintable(width.value);
      WidthEntry(reader.rule.value.actions, Values(values), width.value);
      ActionReads(reader, "width", values, reader.rule.value.actions.(width := width));
    }
  }

  lemma ActionLinesRead(reader: Reader, actions: RuleActions)
    requires InRuleActions(reader) && reader.rule.value.actions == RuleActions(None, None, None, None)
    ensures ReadLines(reader, ActionLines(actions)) == Ok(WithActions(reader, actions))
  {
    hide ReadLines, LayerField, ModeField, WidthField, ManagedField;
    var r1 := WithActions(reader, RuleActions(actions.layer, None, None, None));
    var r2 := WithActions(reader, RuleActions(actions.layer, actions.columnMode, None, None));
    var r3 := WithActions(reader, RuleActions(actions.layer, actions.columnMode, actions.width, None));
    LayerReads(reader, actions.layer);
    ModeReads(r1, actions.columnMode);
    WidthReads(r2, actions.width);
    ManagedReads(r3, actions.managed);
    var l1, l2, l3, l4 := LayerField(actions.layer), ModeField(actions.columnMode), WidthField(actions.width), ManagedField(actions.managed);
    Chain(reader, l1, r1, l2, r2);
    Chain(reader, l1 + l2, r2, l3, r3);
    Chain(reader, l1 + l2 + l3, r3, l4, WithActions(reader, actions));
  }

  /** Between rules: inside the rules section, no rule open. */
  ghost predicate InRules(reader: Reader) { reader.section == Some("rules") && reader.rule.None? && !reader.inActions }

  lemma RuleHeaderReads(reader: Reader, id: string)
    requires InRules(reader) && Printable(id)
    ensures ReadLines(reader, [RuleHeader(id)]) == Ok(reader.(rule := Some(NewRule(id))))
  {
    OneValue(Quoted(id));
    assert ["rule"] + [id] == ["rule", id];
    HeaderReads(reader, "  ", "rule", [Quoted(id)]);
    hide HeaderLine, ReadLine, ReadLines;
    OneLine(reader, RuleHeader(id));
  }

  lemma ActionsHeaderReads(reader: Reader)
    requires InRule(reader)
    ensures ReadLines(reader, [ActionsHeader()]) == Ok(reader.(inActions := true))
  {
    HeaderReads(reader, FIELD_INDENT, "actions", []);
    assert ["actions"] + Values([]) == ["actions"];
    hide HeaderLine, ReadLine, ReadLines;
    OneLine(reader, ActionsHeader());
  }

  lemma CloseLineReads(reader: Reader, indent: string)
    requires IsSpace(indent)
    ensures ReadLines(reader, [indent + "}"]) == Ok(CloseBlock(reader))
  {
    CloseReads(reader, indent);
    hide ReadLine, ReadLines;
    OneLine(reader, indent + "}");
  }

  lemma RuleReads(reader: Reader, rule: WindowRule)
    requires InRules(reader) && PrintableRule(rule)
    ensures ReadLines(reader, RuleLines(rule)) == Ok(reader.(rules := reader.rules + [rule]))
  {
    hide ReadLines, HeaderLine, FieldLines, ActionLines, PrintableText;
    var bare := rule.(actions := RuleActions(None, None, None, None));
    var r1 := reader.(rule := Some(NewRule(rule.id)));
    var r2 := reader.(rule := Some(bare));
    var r3 := r2.(inActions := true);
    var r4 := r3.(rule := Some(rule));
    var r5 := reader.(rule := Some(rule));
    var end := reader.(rules := reader.rules + [rule]);
    RuleHeaderReads(reader, rule.id);
    FieldLinesRead(r1, rule);
    ActionsHeaderReads(r2);
    ActionLinesRead(r3, rule.actions);
    CloseLineReads(r4, FIELD_INDENT);
    CloseLineReads(r5, "  ");
    var l1, l2, l3, l4, l5 :=
      [RuleHeader(rule.id)], FieldLines(rule), [ActionsHeader()], ActionLines(rule.actions), [FIELD_INDENT + "}"];
    Chain(reader, l1, r1, l2, r2);
    Chain(reader, l1 + l2, r2, l3, r3);
    Chain(reader, l1 + l2 + l3, r3, l4, r4);
    Chain(reader, l1 + l2 + l3 + l4, r4, l5, r5);
    Chain(reader, l1 + l2 + l3 + l4 + l5, r5, ["  " + "}"], end);
  }

  lemma {:induction false} AllRulesRead(reader: Reader, rules: seq<WindowRule>)
    requires InRules(reader) && forall r :: r in rules ==> PrintableRule(r)
    ensures ReadLines(reader, AllRuleLines(rules)) == Ok(reader.(rules := reader.rules + rules))
    decreases |rules|
  {
    hide ReadLines, RuleLines, PrintableRule;
    if rules == [] {
      NothingReads(reader);
      assert reader.rules + rules == reader.rules;
    } else {
      var next := reader.(rules := reader.rules + [rules[0]]);
      RuleReads(reader, rules[0]);
      AllRulesRead(next, rules[1..]);
      assert next.rules + rules[1..] == reader.rules + rules;
      Chain(reader, RuleLines(rules[0]), next, AllRuleLines(rules[1..]), reader.(rules := reader.rules + rules));
    }
  }

  /** A printed rules section appends exactly its rules, in order. */
  lemma RulesSectionReads(reader: Reader, rules: seq<WindowRule>)
    requires AtTop(reader) && forall r :: r in rules ==> PrintableRule(r)
    ensures ReadLines(reader, RulesSection(rules)) == Ok(reader.(rules := reader.rules + rules))
  {
    var inside := reader.(section := Some("rules"));
    var done := inside.(rules := reader.rules + rules);
    HeaderReads(reader, "", "rules", []);
    assert ["rules"] + Values([]) == ["rules"];
    hide ReadLine, ReadLines, HeaderLine, PrintableRule, AllRuleLines;
    OneLine(reader, RulesHeader());
    AllRulesRead(inside, rules);
    CloseLineReads(done, "");
    Chain(reader, [RulesHeader()], inside, AllRuleLines(rules), done);
    Chain(reader, [RulesHeader()] + AllRuleLines(rules), done, ["" + "}"], reader.(rules := reader.rules + rules));
  }

  // ---- the whole file --------------------------------------------------------------------------

  ghost predicate OneLiners(lines: seq<string>) { forall line :: line in lines ==> '\n' !in line }

  lemma FieldLinesAreLines(rule: WindowRule)
    requires PrintableRule(rule)
    ensures OneLiners(FieldLines(rule))
  {
    hide EntryLine, TextField, ShowInt, PrintableText, OneLiners;
    var m := rule.matchers;
    NumbersAreLines(rule.priority, rule.enabled);
    TextFieldIsLines("match-process-name", m.processName);
    TextFieldIsLines("match-class-substring", m.classSubstring);
    TextFieldIsLines("match-title-substring", m.titleSubstring);
    var lines := [EntryLine(FIELD_INDENT, "priority", [Bare(ShowInt(rule.priority))])]
                 + [EntryLine(FIELD_INDENT, "enabled", [Bare(ShowBool(rule.enabled))])];
    ConcatIsLines(lines, TextField("match-process-name", m.processName));
    ConcatIsLines(lines + TextField("match-process-name", m.processName), TextField("match-class-substring", m.classSubstring));
    ConcatIsLines(lines + TextField("match-process-name", m.processName) + TextField("match-class-substring", m.classSubstring),
                  TextField("match-title-substring", m.titleSubstring));
  }

  lemma ConcatIsLines(first: seq<string>, second: seq<string>)
    requires OneLiners(first) && OneLiners(second)
    ensures OneLiners(first + second)
  {
  }

  lemma NumbersAreLines(priority: i32, enabled: bool)
    ensures OneLiners([EntryLine(FIELD_INDENT, "priority", [Bare(ShowInt(priority))])]
                      + [EntryLine(FIELD_INDENT, "enabled", [Bare(ShowBool(enabled))])])
  {
    hide EntryLine, ShowInt;
    NumbersInvertShow(priority);
    LineIsOneLine(FIELD_INDENT, "priority", [Bare(ShowInt(priority))]);
    LineIsOneLine(FIELD_INDENT, "enabled", [Bare(ShowBool(enabled))]);
  }

  lemma TextFieldIsLines(name: string, value: Option<string>)
    requires '\n' !in name && PrintableText(value)
    ensures OneLiners(TextField(name, value))
  {
    if value.Some? {
      LineIsOneLine(FIELD_INDENT, name, [Quoted(value.value)]);
    }
  }

  lemma ActionLinesAreLines(actions: RuleActions)
    ensures OneLiners(ActionLines(actions))
  {
    LayerIsLines(actions.layer);
    ModeIsLines(actions.columnMode);
    WidthIsLines(actions.width);
    ManagedIsLines(actions.managed);
    hide LayerField, ModeField, WidthField, ManagedField;
  }

  lemma LayerIsLines(layer: Option<WindowLayer>)
    ensures OneLiners(LayerField(layer))
  {
    hide EntryLine;
    if layer.Some? {
      LineIsOneLine(ACTION_INDENT, "layer", [Quoted(ShowLayer(layer.value))]);
    }
  }

  lemma ModeIsLines(mode: Option<ColumnMode>)
    ensures OneLiners(ModeField(mode))
  {
    hide EntryLine;
    if mode.Some? {
      LineIsOneLine(ACTION_INDENT, "column-mode", [Quoted(ShowMode(mode.value))]);
    }
  }

  lemma WidthIsLines(width: Option<WidthSemantics>)
    ensures OneLiners(WidthField(width))
  {
    hide EntryLine, ShowWidth;
    if width.Some? {
      WidthIsPrintable(width.value);
      LineIsOneLine(ACTION_INDENT, "width", ShowWidth(width.value));
    }
  }

  lemma ManagedIsLines(managed: Option<bool>)
    ensures OneLiners(ManagedField(managed))
  {
    hide EntryLine;
    if managed.Some? {
      LineIsOneLine(ACTION_INDENT, "managed", [Bare(ShowBool(managed.value))]);
    }
  }

  lemma RuleLinesAreLines(rule: WindowRule)
    requires PrintableRule(rule)
    ensures OneLiners(RuleLines(rule))
  {
    FieldLinesAreLines(rule);
    ActionLinesAreLines(rule.actions);
    LineIsOneLine("  ", "rule", [Quoted(rule.id)]);
    LineIsOneLine(FIELD_INDENT, "actions", []);
    hide FieldLines, ActionLines, HeaderLine;
  }

  lemma {:induction false} RulesSectionIsLines(rules: seq<WindowRule>)
    requires forall r :: r in rules ==> PrintableRule(r)
    ensures OneLiners(AllRuleLines(rules)) && OneLiners(RulesSection(rules))
  {
    if rules != [] {
      assert rules[0] in rules;
      RuleLinesAreLines(rules[0]);
      RulesSectionIsLines(rules[1..]);
    }
    LineIsOneLine("", "rules", []);
    hide HeaderLine, RuleLines;
  }

  lemma InputSectionIsLines(bindings: seq<HotkeyBinding>)
    requires forall b :: b in bindings ==> PrintableBinding(b)
    ensures OneLiners(InputSection(bindings))
  {
    HotkeyLinesHaveNoNewline(bindings);
    LineIsOneLine("", "input", []);
    hide HeaderLine, HotkeyLines;
  }

  /**
   * Printing hotkeys and rules and parsing the text gives back the hotkeys in order, the rules sorted,
   * the number of enabled rules, and the defaults everywhere else.
   */
  lemma ConfigRoundTrips(bindings: seq<HotkeyBinding>, rules: seq<WindowRule>, version: nat)
    requires forall b :: b in bindings ==> PrintableBinding(b)
    requires forall r :: r in rules ==> PrintableRule(r)
    ensures ParseSource(Join(InputSection(bindings) + RulesSection(rules)), version)
         == Ok(LoadedConfig(
                 DEFAULT_CONFIG.(configVersion := version, activeRuleCount := EnabledCount(SortRules(rules))),
                 Coexistence, bindings, TouchpadConfig(false, []), SortRules(rules)))
  {
    hide ReadLines, InputSection, PrintableRule, PrintableBinding, AllRuleLines;
    var start := NewReader(version);
    var middle := start.(hotkeys := bindings);
    var lines := InputSection(bindings) + RulesSection(rules);
    InputSectionIsLines(bindings);
    RulesSectionIsLines(rules);
    LinesInvertJoin(lines);
    assert [] + bindings == bindings && [] + rules == rules;
    InputSectionReads(start, bindings);
    RulesSectionReads(middle, rules);
    Chain(start, InputSection(bindings), middle, RulesSection(rules), middle.(rules := rules));
  }
}
