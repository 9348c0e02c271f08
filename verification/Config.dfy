// The line-based configuration parser: parse_kdl_like_source in crates/config-rules.
module Config {
  import opened Wrappers
  import opened MachineInt
  import opened Domain
  import opened Text
  import opened WindowRules

  datatype ConfigError = Parse(message: string) | Validation(message: string)

  datatype BindControlMode = Coexistence | ManagedShell | DeepOverride

  datatype HotkeyBinding = HotkeyBinding(trigger: string, command: string)

  datatype GestureBinding = GestureBinding(gesture: string, command: string)

  datatype TouchpadConfig = TouchpadConfig(overrideEnabled: bool, gestures: seq<GestureBinding>)

  datatype LoadedConfig = LoadedConfig(
    projection: ConfigProjection,
    bindControlMode: BindControlMode,
    hotkeys: seq<HotkeyBinding>,
    touchpad: TouchpadConfig,
    rules: seq<WindowRule>)

  type Tokens = seq<string>

  // ---- tokens ----------------------------------------------------------------------------------

  function Prepend(tokens: Tokens, rest: Result<Tokens, ConfigError>): Result<Tokens, ConfigError> {
    match rest
    case Ok(more) => Ok(tokens + more)
    case Err(e) => Err(e)
  }

  lemma PrependNothing(rest: Result<Tokens, ConfigError>)
    ensures Prepend([], rest) == rest
  {
    if rest.Ok? {
      assert [] + rest.value == rest.value;
    }
  }

  lemma PrependTwice(tokens: Tokens, token: string, rest: Result<Tokens, ConfigError>)
    ensures Prepend(tokens, Prepend([token], rest)) == Prepend(tokens + [token], rest)
  {
    if rest.Ok? {
      assert tokens + ([token] + rest.value) == (tokens + [token]) + rest.value;
    }
  }

  /** The tokens of the rest of a line, given the token being read and whether it is quoted. */
  function Scan(text: string, current: string, quoted: bool): Result<Tokens, ConfigError>
    decreases |text|
  {
    if text == "" then
      if quoted then Err(Parse("unterminated quoted string in config"))
      else if current != "" then Ok([current])
      else Ok([])
    else if text[0] == '"' then
      if quoted then Prepend([current], Scan(text[1..], "", false))
      else if Trim(current) != "" then Prepend([Trim(current)], Scan(text[1..], "", true))
      else Scan(text[1..], current, true)
    else if IsWhitespace(text[0]) && !quoted then
      if current != "" then Prepend([current], Scan(text[1..], "", false)) else Scan(text[1..], "", false)
    else Scan(text[1..], current + [text[0]], quoted)
  }

  function TokensOf(line: string): Result<Tokens, ConfigError> { Scan(line, "", false) }

  method Tokenize(line: string) returns (r: Result<Tokens, ConfigError>)
    ensures r == TokensOf(line)
  {
    var tokens: Tokens := [];
    var current := "";
    var inQuotes := false;
    PrependNothing(TokensOf(line));
    assert line[0..] == line;
    for i := 0 to |line|
      invariant TokensOf(line) == Prepend(tokens, Scan(line[i..], current, inQuotes))
    {
      PrependTwice(tokens, current, Scan(line[i + 1..], "", false));
      PrependTwice(tokens, Trim(current), Scan(line[i + 1..], "", true));
      assert line[i..][1..] == line[i + 1..];
      if line[i] == '"' {
        if inQuotes {
          tokens := tokens + [current];
          current := "";
          inQuotes := false;
        } else {
          if Trim(current) != "" {
            tokens := tokens + [Trim(current)];
            current := "";
          }
          inQuotes := true;
        }
      } else if IsWhitespace(line[i]) && !inQuotes {
        if current != "" {
          tokens := tokens + [current];
          current := "";
        }
      } else {
        current := current + [line[i]];
      }
    }
    assert line[|line|..] == "" && tokens + [] == tokens;
    if inQuotes {
      return Err(Parse("unterminated quoted string in config"));
    }
    if current != "" {
      tokens := tokens + [current];
    }
    r := Ok(tokens);
  }

  // ---- numbers and names -----------------------------------------------------------------------

  predicate IsDigit(c: char) { '0' <= c <= '9' }

  function DigitsValue(s: string): Option<nat> {
    if s == "" then Some(0)
    else if !IsDigit(s[|s| - 1]) then None
    else
      match DigitsValue(s[..|s| - 1])
      case None => None
      case Some(n) => Some(10 * n + (s[|s| - 1] - '0') as nat)
  }

  function Unsigned(s: string): Option<nat> { if s == "" then None else DigitsValue(s) }

  /** `str::parse::<u32>` */
  function ParseU32(s: string): Option<u32> {
    match Unsigned(if s != "" && s[0] == '+' then s[1..] else s)
    case Some(n) => if n <= U32_MAX then Some(n) else None
    case None => None
  }

  /** `str::parse::<i32>` */
  function ParseI32(s: string): Option<i32> {
    var signed := s != "" && (s[0] == '+' || s[0] == '-');
    match Unsigned(if signed then s[1..] else s)
    case None => None
    case Some(n) =>
      var value: int := if signed && s[0] == '-' then -(n as int) else n;
      if I32_MIN <= value <= I32_MAX then Some(value) else None
  }

  function Required<T>(value: Option<T>, message: string): Result<T, ConfigError> {
    match value
    case Some(v) => Ok(v)
    case None => Err(Validation(message))
  }

  function TokenAt(tokens: Tokens, i: nat): Option<string> { if i < |tokens| then Some(tokens[i]) else None }

  function ParseNonNegative(value: string, field: string): Result<u32, ConfigError> {
    Required(ParseU32(value), field + " must be a non-negative integer")
  }

  function ParseBool(value: string, field: string): Result<bool, ConfigError> {
    if value == "true" then Ok(true)
    else if value == "false" then Ok(false)
    else Err(Validation(field + " must be true or false"))
  }

  function ParseColumnMode(value: string): Result<ColumnMode, ConfigError> {
    match value
    case "normal" => Ok(Normal)
    case "tabbed" => Ok(Tabbed)
    case "maximized-column" => Ok(MaximizedColumn)
    case "custom-width" => Ok(CustomWidth)
    case _ => Err(Validation("unsupported column mode '" + value + "'"))
  }

  function ParseBindControlMode(value: string): Result<BindControlMode, ConfigError> {
    match value
    case "coexistence" => Ok(Coexistence)
    case "managed-shell" => Ok(ManagedShell)
    case "deep-override" => Ok(DeepOverride)
    case _ => Err(Validation("unsupported bind control mode '" + value + "'"))
  }

  function ParseLayer(value: string): Result<WindowLayer, ConfigError> {
    match value
    case "tiled" => Ok(Tiled)
    case "floating" => Ok(Floating)
    case "fullscreen" => Ok(Fullscreen)
    case _ => Err(Validation("unsupported window layer '" + value + "'"))
  }

  function ParseWidth(tokens: Tokens): Result<WidthSemantics, ConfigError> {
    var kind :- Required(TokenAt(tokens, 0), "width entry is missing width kind");
    match kind
    case "fixed" =>
      var value :- Required(TokenAt(tokens, 1), "fixed width requires a numeric value");
      var width :- Required(ParseU32(value), "fixed width must be a positive integer");
      Ok(Fixed(width))
    case "fraction" =>
      var numerator :- Required(TokenAt(tokens, 1), "fraction width requires numerator");
      var denominator :- Required(TokenAt(tokens, 2), "fraction width requires denominator");
      var n :- Required(ParseU32(numerator), "fraction numerator must be a positive integer");
      var d :- Required(ParseU32(denominator), "fraction denominator must be a positive integer");
      Ok(MonitorFraction(n, d))
    case "full" => Ok(Full)
    case _ => Err(Validation("unsupported width kind '" + kind + "'"))
  }

  function AppendBinding(bindings: seq<string>, binding: string): Result<seq<string>, ConfigError> {
    var normalized := Trim(binding);
    if normalized == "" then Err(Validation("monitors managed-binding must not be empty"))
    else if exists i :: 0 <= i < |bindings| && EqIgnoreAsciiCase(bindings[i], normalized) then Ok(bindings)
    else Ok(bindings + [normalized])
  }

  // ---- one line --------------------------------------------------------------------------------

  /** The variables of the parser's line loop. */
  datatype Reader = Reader(
    projection: ConfigProjection,
    bindControlMode: BindControlMode,
    hotkeys: seq<HotkeyBinding>,
    touchpad: TouchpadConfig,
    rules: seq<WindowRule>,
    section: Option<string>,
    rule: Option<WindowRule>,
    inActions: bool)

  type Reading = Result<Reader, ConfigError>

  function NewReader(version: nat): Reader {
    Reader(DEFAULT_CONFIG.(configVersion := version), Coexistence, [], TouchpadConfig(false, []), [], None, None, false)
  }

  function NewRule(id: string): WindowRule {
    WindowRule(id, 0, true, RuleMatch(None, None, None), RuleActions(None, None, None, None))
  }

  function OpenBlock(reader: Reader, tokens: Tokens): Reading {
    if reader.section.None? then Ok(reader.(section := TokenAt(tokens, 0)))
    else if reader.section == Some("rules") && reader.rule.None? && TokenAt(tokens, 0) == Some("rule") then
      var id :- Required(TokenAt(tokens, 1), "rule id is missing");
      Ok(reader.(rule := Some(NewRule(id))))
    else if reader.section == Some("rules") && reader.rule.Some? && TokenAt(tokens, 0) == Some("actions") then
      Ok(reader.(inActions := true))
    else Ok(reader)
  }

  function CloseBlock(reader: Reader): Reader {
    if reader.inActions then reader.(inActions := false)
    else if reader.rule.Some? then reader.(rules := reader.rules + [reader.rule.value], rule := None)
    else reader.(section := None)
  }

  function GeneralEntry(reader: Reader, tokens: Tokens): Reading
    requires tokens != []
  {
    if tokens[0] == "mode" && |tokens| > 1 && tokens[1] !in ["wm-only", "extended-shell", "safe-mode"] then
      Err(Validation("unsupported general mode '" + tokens[1] + "'"))
    else Ok(reader)
  }

  function MonitorsEntry(reader: Reader, tokens: Tokens): Reading
    requires tokens != []
  {
    if tokens[0] == "managed-binding" then
      var binding :- Required(TokenAt(tokens, 1), "monitors managed-binding is missing value");
      var bindings :- AppendBinding(reader.projection.managedMonitorBindings, binding);
      Ok(reader.(projection := reader.projection.(managedMonitorBindings := bindings)))
    else Ok(reader)
  }

  function LayoutNumber(tokens: Tokens, field: string): Result<u32, ConfigError> {
    var value :- Required(TokenAt(tokens, 1), field + " is missing value");
    ParseNonNegative(value, field)
  }

  function LayoutEntry(p: ConfigProjection, tokens: Tokens): Result<ConfigProjection, ConfigError>
    requires tokens != []
  {
    match tokens[0]
    case "strip-scroll-step" =>
      var value :- Required(TokenAt(tokens, 1), "layout strip-scroll-step is missing value");
      var step :- Required(ParseU32(value), "layout strip-scroll-step must be a positive integer");
      Ok(p.(stripScrollStep := step))
    case "outer-padding" =>
      var n :- LayoutNumber(tokens, "layout outer-padding");
      Ok(p.(outerPadding := EdgeInsets(n, n, n, n)))
    case "outer-padding-left" =>
      var n :- LayoutNumber(tokens, "layout outer-padding-left");
      Ok(p.(outerPadding := p.outerPadding.(left := n)))
    case "outer-padding-top" =>
      var n :- LayoutNumber(tokens, "layout outer-padding-top");
      Ok(p.(outerPadding := p.outerPadding.(top := n)))
    case "outer-padding-right" =>
      var n :- LayoutNumber(tokens, "layout outer-padding-right");
      Ok(p.(outerPadding := p.outerPadding.(right := n)))
    case "outer-padding-bottom" =>
      var n :- LayoutNumber(tokens, "layout outer-padding-bottom");
      Ok(p.(outerPadding := p.outerPadding.(bottom := n)))
    case "column-gap" =>
      var n :- LayoutNumber(tokens, "layout column-gap");
      Ok(p.(columnGap := n))
    case "window-gap" =>
      var n :- LayoutNumber(tokens, "layout window-gap");
      Ok(p.(windowGap := n))
    case "floating-margin" =>
      var n :- LayoutNumber(tokens, "layout floating-margin");
      Ok(p.(floatingMargin := n))
    case "default-column-mode" =>
      var value :- Required(TokenAt(tokens, 1), "layout default-column-mode is missing value");
      var mode :- ParseColumnMode(value);
      Ok(p.(defaultColumnMode := mode))
    case "default-column-width" =>
      var width :- ParseWidth(tokens[1..]);
      Ok(p.(defaultColumnWidth := width))
    case _ => Ok(p)
  }

  function InputEntry(reader: Reader, tokens: Tokens): Reading
    requires tokens != []
  {
    match tokens[0]
    case "bind-control-mode" =>
      var value :- Required(TokenAt(tokens, 1), "input bind-control-mode is missing value");
      var mode :- ParseBindControlMode(value);
      Ok(reader.(bindControlMode := mode))
    case "hotkey" =>
      var trigger :- Required(TokenAt(tokens, 1), "input hotkey is missing trigger");
      var command :- Required(TokenAt(tokens, 2), "input hotkey is missing command");
      Ok(reader.(hotkeys := reader.hotkeys + [HotkeyBinding(trigger, command)]))
    case "touchpad-override" =>
      var value :- Required(TokenAt(tokens, 1), "input touchpad-override is missing value");
      var enabled :- ParseBool(value, "input touchpad-override");
      Ok(reader.(touchpad := reader.touchpad.(overrideEnabled := enabled)))
    case "touchpad-gesture" =>
      var gesture :- Required(TokenAt(tokens, 1), "input touchpad-gesture is missing gesture");
      var command :- Required(TokenAt(tokens, 2), "input touchpad-gesture is missing command");
      Ok(reader.(touchpad := reader.touchpad.(gestures := reader.touchpad.gestures + [GestureBinding(gesture, command)])))
    case _ => Ok(reader)
  }

  function RuleEntry(rule: WindowRule, tokens: Tokens): Result<WindowRule, ConfigError>
    requires tokens != []
  {
    match tokens[0]
    case "priority" =>
      var value :- Required(TokenAt(tokens, 1), "rule priority is missing value");
      var priority :- Required(ParseI32(value), "rule priority must be a valid integer");
      Ok(rule.(priority := priority))
    case "enabled" =>
      var value :- Required(TokenAt(tokens, 1), "rule enabled flag is missing value");
      var enabled :- ParseBool(value, "rule enabled");
      Ok(rule.(enabled := enabled))
    case "match-process-name" => Ok(rule.(matchers := rule.matchers.(processName := TokenAt(tokens, 1))))
    case "match-class-substring" => Ok(rule.(matchers := rule.matchers.(classSubstring := TokenAt(tokens, 1))))
    case "match-title-substring" => Ok(rule.(matchers := rule.matchers.(titleSubstring := TokenAt(tokens, 1))))
    case _ => Ok(rule)
  }

  function ActionEntry(actions: RuleActions, tokens: Tokens): Result<RuleActions, ConfigError>
    requires tokens != []
  {
    match tokens[0]
    case "layer" =>
      var value :- Required(TokenAt(tokens, 1), "rule action layer is missing value");
      var layer :- ParseLayer(value);
      Ok(actions.(layer := Some(layer)))
    case "column-mode" =>
      var value :- Required(TokenAt(tokens, 1), "rule action column-mode is missing value");
      var mode :- ParseColumnMode(value);
      Ok(actions.(columnMode := Some(mode)))
    case "width" =>
      var width :- ParseWidth(tokens[1..]);
      Ok(actions.(width := Some(width)))
    case "managed" =>
      var value :- Required(TokenAt(tokens, 1), "rule action managed is missing value");
      var managed :- ParseBool(value, "rule action managed");
      Ok(actions.(managed := Some(managed)))
    case _ => Ok(actions)
  }

  function Entry(reader: Reader, tokens: Tokens): Reading
    requires tokens != []
  {
    if reader.section == Some("general") then GeneralEntry(reader, tokens)
    else if reader.section == Some("monitors") then MonitorsEntry(reader, tokens)
    else if reader.section == Some("layout") then
      var projection :- LayoutEntry(reader.projection, tokens);
      Ok(reader.(projection := projection))
    else if reader.section == Some("input") then InputEntry(reader, tokens)
    else if reader.section == Some("rules") && reader.rule.Some? then
      if reader.inActions then
        var actions :- ActionEntry(reader.rule.value.actions, tokens);
        Ok(reader.(rule := Some(reader.rule.value.(actions := actions))))
      else
        var rule :- RuleEntry(reader.rule.value, tokens);
        Ok(reader.(rule := Some(rule)))
    else Ok(reader)
  }

  predicate IsComment(line: string) { |line| >= 2 && line[..2] == "//" }

  function ReadLine(reader: Reader, rawLine: string): Reading {
    var line := Trim(rawLine);
    if line == "" || IsComment(line) then Ok(reader)
    else if line[|line| - 1] == '{' then
      var tokens :- TokensOf(Trim(line[..|line| - 1]));
      OpenBlock(reader, tokens)
    else if line == "}" then Ok(CloseBlock(reader))
    else
      var tokens :- TokensOf(line);
      if tokens == [] then Ok(reader) else Entry(reader, tokens)
  }

  // ---- the whole source ------------------------------------------------------------------------

  /**
   * `str::lines`: the pieces between newlines, without an empty last one. The carriage return the
   * source also drops is whitespace, so the trim of every line removes it.
   */
  function Lines(text: string): (lines: seq<string>)
    decreases |text|
  {
    if text == "" then []
    else
      var n := LineLength(text);
      [text[..n]] + if n == |text| then [] else Lines(text[n + 1..])
  }

  function LineLength(text: string): (n: nat)
    ensures n <= |text|
  {
    if text == "" || text[0] == '\n' then 0 else 1 + LineLength(text[1..])
  }

  function ReadLines(reader: Reader, lines: seq<string>): Reading
    decreases |lines|
  {
    if lines == [] then Ok(reader)
    else
      var next :- ReadLine(reader, lines[0]);
      ReadLines(next, lines[1..])
  }

  function EnabledCount(rules: seq<WindowRule>): nat {
    if rules == [] then 0
    else EnabledCount(rules[..|rules| - 1]) + if rules[|rules| - 1].enabled then 1 else 0
  }

  /** End of file: an open rule still counts, and the rules are sorted. */
  function Finish(reader: Reader): LoadedConfig {
    var all := if reader.rule.Some? then reader.rules + [reader.rule.value] else reader.rules;
    var rules := SortRules(all);
    LoadedConfig(reader.projection.(activeRuleCount := EnabledCount(rules)), reader.bindControlMode,
                 reader.hotkeys, reader.touchpad, rules)
  }

  function ParseSource(source: string, version: nat): Result<LoadedConfig, ConfigError> {
    var reader :- ReadLines(NewReader(version), Lines(source));
    Ok(Finish(reader))
  }

  method ParseKdlLikeSource(source: string, version: nat) returns (r: Result<LoadedConfig, ConfigError>)
    ensures r == ParseSource(source, version)
  {
    var reader := NewReader(version);
    var lines := Lines(source);
    for i := 0 to |lines|
      invariant ReadLines(NewReader(version), lines) == ReadLines(reader, lines[i..])
    {
      assert lines[i..][1..] == lines[i + 1..];
      var line := Trim(lines[i]);
      if line == "" || IsComment(line) {
        continue;
      }
      if line[|line| - 1] == '{' {
        var tokens :- Tokenize(Trim(line[..|line| - 1]));
        reader :- OpenBlock(reader, tokens);
        continue;
      }
      if line == "}" {
        reader := CloseBlock(reader);
        continue;
      }
      var tokens :- Tokenize(line);
      if tokens == [] {
        continue;
      }
      reader :- Entry(reader, tokens);
    }
    if reader.rule.Some? {
      reader := reader.(rules := reader.rules + [reader.rule.value], rule := None);
    }
    var rules := SortRules(reader.rules);
    r := Ok(LoadedConfig(reader.projection.(activeRuleCount := EnabledCount(rules)), reader.bindControlMode,
                         reader.hotkeys, reader.touchpad, rules));
  }
}
