// The parser inverts printing: tokens, lines and whole sections come back as they were written.
module ConfigProofs {
  import opened Wrappers
  import opened MachineInt
  import opened Domain
  import opened Text
  import opened WindowRules
  import opened Config

  // ---- tokens ----------------------------------------------------------------------------------

  datatype Piece = Bare(text: string) | Quoted(text: string)
  {
    function Shown(): string {
      match this
      case Bare(text) => text
      case Quoted(text) => "\"" + text + "\""
    }

    ghost predicate Valid() {
      match this
      case Bare(text) => text != "" && IsPlainText(text)
      case Quoted(text) => '"' !in text
    }
  }

  /** A token with the white space printed before it. */
  datatype Spaced = Spaced(gap: string, piece: Piece)

  ghost predicate IsSpace(text: string) { forall c :: c in text ==> IsWhitespace(c) }

  ghost predicate IsPlainText(text: string) { forall c :: c in text ==> !IsWhitespace(c) && c != '"' }

  function Print(items: seq<Spaced>): string {
    if items == [] then "" else items[0].gap + items[0].piece.Shown() + Print(items[1..])
  }

  function Texts(items: seq<Spaced>): Tokens {
    if items == [] then [] else [items[0].piece.text] + Texts(items[1..])
  }

  /** Bare tokens need white space between them; next to a quoted one it may be missing. */
  ghost predicate WellSpaced(items: seq<Spaced>) {
    && (forall i :: 0 <= i < |items| ==> items[i].piece.Valid() && IsSpace(items[i].gap))
    && (forall i :: 0 < i < |items| && items[i - 1].piece.Bare? && items[i].piece.Bare? ==> items[i].gap != "")
  }

  lemma {:induction false} ScanSkipsSpace(gap: string, rest: string)
    requires IsSpace(gap)
    ensures Scan(gap + rest, "", false) == Scan(rest, "", false)
  {
    if gap == "" {
      assert gap + rest == rest;
    } else {
      assert (gap + rest)[1..] == gap[1..] + rest;
      assert IsWhitespace(gap[0]);
      ScanSkipsSpace(gap[1..], rest);
    }
  }

  lemma {:induction false} ScanReadsQuoted(text: string, current: string, rest: string)
    requires '"' !in text
    ensures Scan(text + "\"" + rest, current, true) == Prepend([current + text], Scan(rest, "", false))
    decreases |text|
  {
    var all := text + "\"" + rest;
    if text == "" {
      assert all == "\"" + rest && all[1..] == rest && current + text == current;
    } else {
      assert all[1..] == text[1..] + "\"" + rest;
      ScanReadsQuoted(text[1..], current + [text[0]], rest);
      assert current + [text[0]] + text[1..] == current + text;
    }
  }

  lemma {:induction false} ScanReadsBare(text: string, current: string, rest: string)
    requires IsPlainText(text)
    ensures Scan(text + rest, current, false) == Scan(rest, current + text, false)
    decreases |text|
  {
    if text == "" {
      assert text + rest == rest && current + text == current;
    } else {
      assert (text + rest)[1..] == text[1..] + rest;
      assert text[0] in text;
      ScanReadsBare(text[1..], current + [text[0]], rest);
      assert current + [text[0]] + text[1..] == current + text;
    }
  }

  lemma TrimKeeps(text: string)
    requires text != "" && !IsWhitespace(text[0]) && !IsWhitespace(text[|text| - 1])
    ensures Trim(text) == text
  {
  }

  lemma ScanEndsBare(text: string, rest: string)
    requires text != "" && IsPlainText(text)
    requires rest != "" ==> IsWhitespace(rest[0]) || rest[0] == '"'
    ensures Scan(rest, text, false) == Prepend([text], Scan(rest, "", false))
  {
    assert text[0] in text && text[|text| - 1] in text;
    TrimKeeps(text);
    if rest == "" {
      assert [text] + [] == [text];
    } else if rest[0] == '"' {
      assert Scan(rest, "", false) == Scan(rest[1..], "", true);
    }
  }

  lemma {:induction false} TokensInvertPrint(items: seq<Spaced>, tail: string)
    requires WellSpaced(items) && IsSpace(tail)
    ensures TokensOf(Print(items) + tail) == Ok(Texts(items))
  {
    if items == [] {
      ScanSkipsSpace(tail, "");
      assert "" + tail == tail == tail + "";
    } else {
      hide Scan, IsWhitespace;
      var Spaced(gap, piece) := items[0];
      var rest := Print(items[1..]) + tail;
      TokensInvertPrint(items[1..], tail);
      ScanSkipsSpace(gap, piece.Shown() + rest);
      PrintSplits(items, tail);
      if piece.Bare? {
        PrintStarts(items, tail);
      }
      ScanReadsPiece(piece, rest);
    }
  }

  lemma PrintSplits(items: seq<Spaced>, tail: string)
    requires items != []
    ensures Print(items) + tail == items[0].gap + (items[0].piece.Shown() + (Print(items[1..]) + tail))
  {
    hide Piece.Shown;
    var rest := Print(items[1..]);
    assert Print(items) == items[0].gap + items[0].piece.Shown() + rest;
  }

  lemma ScanReadsPiece(piece: Piece, rest: string)
    requires piece.Valid()
    requires piece.Bare? && rest != "" ==> IsWhitespace(rest[0]) || rest[0] == '"'
    ensures Scan(piece.Shown() + rest, "", false) == Prepend([piece.text], Scan(rest, "", false))
  {
    hide Scan, IsWhitespace;
    assert "" + piece.text == piece.text;
    if piece.Quoted? {
      assert piece.Shown() + rest == "\"" + (piece.text + "\"" + rest);
      ScanOpensQuote(piece.text + "\"" + rest);
      ScanReadsQuoted(piece.text, "", rest);
    } else {
      ScanReadsBare(piece.text, "", rest);
      ScanEndsBare(piece.text, rest);
    }
  }

  lemma ScanOpensQuote(rest: string)
    ensures Scan("\"" + rest, "", false) == Scan(rest, "", true)
  {
    assert ("\"" + rest)[1..] == rest;
  }

  /** After a bare token comes white space, a quote or the end of the line. */
  lemma PrintStarts(items: seq<Spaced>, tail: string)
    requires WellSpaced(items) && IsSpace(tail) && items != [] && items[0].piece.Bare?
    ensures var rest := Print(items[1..]) + tail; rest != "" ==> IsWhitespace(rest[0]) || rest[0] == '"'
  {
    if |items| > 1 {
      var next := items[1];
      assert items[1..][0] == next;
      if next.gap != "" {
        assert next.gap[0] in next.gap;
      } else {
        assert next.piece.Quoted?;
        assert next.gap + next.piece.Shown() == next.piece.Shown();
      }
    }
  }

  function Quotes(text: string): nat {
    if text == "" then 0 else (if text[0] == '"' then 1 else 0) + Quotes(text[1..])
  }

  lemma {:induction false} ScanFails(text: string, current: string, quoted: bool)
    ensures Scan(text, current, quoted).Err? <==> (Quotes(text) + if quoted then 1 else 0) % 2 == 1
    decreases |text|
  {
    if text != "" {
      ScanFails(text[1..], "", false);
      ScanFails(text[1..], "", true);
      ScanFails(text[1..], current, true);
      ScanFails(text[1..], current + [text[0]], quoted);
    }
  }

  /** A line is rejected exactly when its quotes do not pair up. */
  lemma TokensFailOnOddQuotes(line: string)
    ensures TokensOf(line).Err? <==> Quotes(line) % 2 == 1
  {
    ScanFails(line, "", false);
  }

  // ---- lines -----------------------------------------------------------------------------------

  function Join(lines: seq<string>): string {
    if lines == [] then ""
    else if |lines| == 1 then lines[0]
    else lines[0] + "\n" + Join(lines[1..])
  }

  lemma {:induction false} LineLengthOf(line: string, rest: string)
    requires '\n' !in line && (rest == "" || rest[0] == '\n')
    ensures LineLength(line + rest) == |line|
  {
    if line == "" {
      assert line + rest == rest;
    } else {
      assert (line + rest)[1..] == line[1..] + rest;
      assert line[0] in line;
      LineLengthOf(line[1..], rest);
    }
  }

  lemma {:induction false} LinesInvertJoin(lines: seq<string>)
    requires lines != [] && lines[|lines| - 1] != ""
    requires forall line :: line in lines ==> '\n' !in line
    ensures Lines(Join(lines)) == lines
    decreases |lines|
  {
    var first := lines[0];
    assert first in lines;
    if |lines| == 1 {
      LineLengthOf(first, "");
      assert first + "" == first;
    } else {
      var rest := "\n" + Join(lines[1..]);
      LinesInvertJoin(lines[1..]);
      LineLengthOf(first, rest);
      assert Join(lines) == first + rest;
      assert (first + rest)[|first| + 1..] == Join(lines[1..]);
      assert lines == [first] + lines[1..];
    }
  }

  lemma {:induction false} ReadLinesConcat(reader: Reader, first: seq<string>, second: seq<string>)
    ensures ReadLines(reader, first + second) ==
            match ReadLines(reader, first)
            case Ok(middle) => ReadLines(middle, second)
            case Err(e) => Err(e)
    decreases |first|
  {
    if first == [] {
      assert first + second == second;
    } else {
      assert (first + second)[1..] == first[1..] + second;
      hide ReadLine;
      var next := ReadLine(reader, first[0]);
      if next.Ok? {
        ReadLinesConcat(next.value, first[1..], second);
      }
    }
  }

  // ---- the lines a configuration is written in ---------------------------------------------------

  /** Each value after one space. */
  function SpacedOut(values: seq<Piece>): seq<Spaced> {
    if values == [] then [] else [Spaced(" ", values[0])] + SpacedOut(values[1..])
  }

  function Items(name: string, values: seq<Piece>): seq<Spaced> { [Spaced("", Bare(name))] + SpacedOut(values) }

  function Values(values: seq<Piece>): Tokens {
    if values == [] then [] else [values[0].text] + Values(values[1..])
  }

  function EntryLine(indent: string, name: string, values: seq<Piece>): string { indent + Print(Items(name, values)) }

  function HeaderLine(indent: string, name: string, values: seq<Piece>): string {
    indent + Print(Items(name, values)) + " {"
  }

  ghost predicate IsName(name: string) { name != "" && IsPlainText(name) && name[0] != '/' }

  ghost predicate AllValid(values: seq<Piece>) { forall v :: v in values ==> v.Valid() }

  lemma OneValue(a: Piece)
    ensures Values([a]) == [a.text]
  {
    assert [a][1..] == [] && Values([]) == [];
  }

  lemma TwoValues(a: Piece, b: Piece)
    ensures Values([a, b]) == [a.text, b.text]
  {
    assert [a, b][1..] == [b];
    OneValue(b);
  }

  lemma {:induction false} SpacedOutFits(values: seq<Piece>)
    requires AllValid(values)
    ensures WellSpaced(SpacedOut(values)) && Texts(SpacedOut(values)) == Values(values)
    ensures forall i :: 0 <= i < |SpacedOut(values)| ==> SpacedOut(values)[i].gap == " "
  {
    if values != [] {
      SpacedOutFits(values[1..]);
      assert values[0] in values;
    }
  }

  lemma ItemsTokens(name: string, values: seq<Piece>)
    requires IsName(name) && AllValid(values)
    ensures TokensOf(Print(Items(name, values))) == Ok([name] + Values(values))
  {
    SpacedOutFits(values);
    var items := Items(name, values);
    assert items[1..] == SpacedOut(values);
    TokensInvertPrint(items, "");
    assert Print(items) + "" == Print(items);
  }

  ghost predicate HasSolidEnds(text: string) {
    text != "" && !IsWhitespace(text[0]) && !IsWhitespace(text[|text| - 1])
  }

  lemma ShownHasSolidEnds(piece: Piece)
    requires piece.Valid()
    ensures HasSolidEnds(piece.Shown())
    ensures piece.Quoted? ==> piece.Shown()[|piece.Shown()| - 1] == '"'
  {
    if piece.Bare? {
      assert piece.text[0] in piece.text && piece.text[|piece.text| - 1] in piece.text;
    }
  }

  lemma {:induction false} PrintValuesEnds(values: seq<Piece>)
    requires AllValid(values) && values != []
    ensures var text := Print(SpacedOut(values));
            var last := values[|values| - 1].Shown();
            && text != "" && last != "" && text[|text| - 1] == last[|last| - 1] && !IsWhitespace(text[|text| - 1])
  {
    assert values[0] in values;
    ShownHasSolidEnds(values[0]);
    if |values| > 1 {
      PrintValuesEnds(values[1..]);
    } else {
      assert Print(SpacedOut(values)) == " " + values[0].Shown() + "";
    }
  }

  lemma PrintStartsWithName(name: string, values: seq<Piece>)
    ensures Print(Items(name, values)) == name + Print(SpacedOut(values))
  {
    assert Items(name, values)[1..] == SpacedOut(values);
    assert "" + name == name;
  }

  lemma NoValuesNoText()
    ensures Print(SpacedOut([])) == ""
  {
  }

  lemma PrintItemsEnds(name: string, values: seq<Piece>)
    requires IsName(name) && AllValid(values)
    ensures var text := Print(Items(name, values));
            && HasSolidEnds(text) && text[0] == name[0]
            && (values != [] ==>
                  var last := values[|values| - 1].Shown(); last != "" && text[|text| - 1] == last[|last| - 1] && |text| > 1)
  {
    assert name[0] in name && name[|name| - 1] in name;
    PrintStartsWithName(name, values);
    hide Print, Items, Piece.Shown;
    if values != [] {
      PrintValuesEnds(values);
    } else {
      assert Print(SpacedOut(values)) == "" by { NoValuesNoText(); }
    }
  }

  lemma {:induction false} TrimStartSkips(indent: string, text: string)
    requires IsSpace(indent) && text != "" && !IsWhitespace(text[0])
    ensures TrimStart(indent + text) == text
  {
    if indent == "" {
      assert indent + text == text;
    } else {
      assert indent[0] in indent;
      assert (indent + text)[1..] == indent[1..] + text;
      TrimStartSkips(indent[1..], text);
    }
  }

  lemma TrimIndented(indent: string, text: string)
    requires IsSpace(indent) && HasSolidEnds(text)
    ensures Trim(indent + text) == text
  {
    TrimStartSkips(indent, text);
  }

  lemma TrimTrailing(text: string)
    requires HasSolidEnds(text)
    ensures Trim(text + " ") == text
  {
    assert TrimStart(text + " ") == text + " ";
    assert (text + " ")[..|text|] == text;
    assert TrimEnd(text + " ") == TrimEnd(text) == text;
  }

  ghost predicate EndsEntry(piece: Piece) { piece.Quoted? || (piece.text != "" && piece.text[|piece.text| - 1] != '{') }

  lemma ReadLineAsEntry(reader: Reader, raw: string, line: string, tokens: Tokens)
    requires Trim(raw) == line && line != "" && !IsComment(line) && line[|line| - 1] != '{' && line != "}"
    requires TokensOf(line) == Ok(tokens) && tokens != []
    ensures ReadLine(reader, raw) == Entry(reader, tokens)
  {
    hide TokensOf, Trim, Entry;
  }

  lemma ReadLineAsHeader(reader: Reader, raw: string, line: string, head: string, tokens: Tokens)
    requires Trim(raw) == line && line == head + " {" && head != "" && head[0] != '/'
    requires Trim(head + " ") == head && TokensOf(head) == Ok(tokens)
    ensures ReadLine(reader, raw) == OpenBlock(reader, tokens)
  {
    hide TokensOf, Trim, OpenBlock;
    assert line[..|line| - 1] == head + " " && line[0] == head[0];
  }

  /** An indented entry is read as its name and values. */
  lemma EntryReads(reader: Reader, indent: string, name: string, values: seq<Piece>)
    requires IsSpace(indent) && IsName(name) && AllValid(values) && values != [] && EndsEntry(values[|values| - 1])
    ensures ReadLine(reader, EntryLine(indent, name, values)) == Entry(reader, [name] + Values(values))
  {
    hide ReadLine, Entry, TokensOf, Trim, Print, Values, EndsEntry;
    var text := Print(Items(name, values));
    ItemsTokens(name, values);
    EntryTextFits(name, values);
    TrimIndented(indent, text);
    ReadLineAsEntry(reader, EntryLine(indent, name, values), text, [name] + Values(values));
  }

  lemma EntryTextFits(name: string, values: seq<Piece>)
    requires IsName(name) && AllValid(values) && values != [] && EndsEntry(values[|values| - 1])
    ensures var text := Print(Items(name, values));
            HasSolidEnds(text) && !IsComment(text) && |text| > 1 && text[|text| - 1] != '{'
  {
    hide Print, SpacedOut, IsWhitespace;
    assert values[|values| - 1] in values;
    PrintItemsEnds(name, values);
    ShownHasSolidEnds(values[|values| - 1]);
  }

  /** An indented block header is read as the opening of that block. */
  lemma HeaderReads(reader: Reader, indent: string, name: string, values: seq<Piece>)
    requires IsSpace(indent) && IsName(name) && AllValid(values)
    ensures ReadLine(reader, HeaderLine(indent, name, values)) == OpenBlock(reader, [name] + Values(values))
  {
    hide ReadLine, OpenBlock, TokensOf, Trim, Print, Values, SpacedOut;
    var text := Print(Items(name, values));
    ItemsTokens(name, values);
    PrintItemsEnds(name, values);
    TrimIndented(indent, text + " {");
    assert indent + text + " {" == indent + (text + " {");
    TrimTrailing(text);
    ReadLineAsHeader(reader, HeaderLine(indent, name, values), text + " {", text, [name] + Values(values));
  }

  lemma CloseReads(reader: Reader, indent: string)
    requires IsSpace(indent)
    ensures ReadLine(reader, indent + "}") == Ok(CloseBlock(reader))
  {
    TrimIndented(indent, "}");
  }

  lemma OneLine(reader: Reader, line: string)
    ensures ReadLines(reader, [line]) == ReadLine(reader, line)
  {
    hide ReadLine;
    assert [line][1..] == [];
  }

  /** Chain one more line onto lines already known to read. */
  lemma ThenLine(reader: Reader, lines: seq<string>, middle: Reader, line: string)
    requires ReadLines(reader, lines) == Ok(middle)
    ensures ReadLines(reader, lines + [line]) == ReadLine(middle, line)
  {
    hide ReadLine;
    ReadLinesConcat(reader, lines, [line]);
    OneLine(middle, line);
  }

  // ---- the hotkeys of an input section -----------------------------------------------------------

  ghost predicate Printable(text: string) { '"' !in text && '\n' !in text }

  ghost predicate PrintableBinding(binding: HotkeyBinding) { Printable(binding.trigger) && Printable(binding.command) }

  function HotkeyLine(binding: HotkeyBinding): string {
    EntryLine("  ", "hotkey", [Quoted(binding.trigger), Quoted(binding.command)])
  }

  lemma HotkeyLineFormat(binding: HotkeyBinding)
    ensures HotkeyLine(binding) == "  hotkey " + "\"" + binding.trigger + "\"" + " " + "\"" + binding.command + "\""
  {
    var trigger, command := Quoted(binding.trigger), Quoted(binding.command);
    assert [trigger, command][1..] == [command] && [command][1..] == [];
    assert SpacedOut([]) == [] && SpacedOut([command]) == [Spaced(" ", command)];
    var items := SpacedOut([trigger, command]);
    assert items[1..] == [Spaced(" ", command)] && [Spaced(" ", command)][1..] == [];
    assert Print([Spaced(" ", command)]) == " " + command.Shown() + "" == " " + command.Shown();
    assert Print(items) == " " + trigger.Shown() + (" " + command.Shown());
    assert Items("hotkey", [trigger, command])[1..] == items;
    assert Print(Items("hotkey", [trigger, command])) == "" + "hotkey" + Print(items);
  }

  function HotkeyLines(bindings: seq<HotkeyBinding>): seq<string> {
    if bindings == [] then [] else [HotkeyLine(bindings[0])] + HotkeyLines(bindings[1..])
  }

  function InputSection(bindings: seq<HotkeyBinding>): seq<string> {
    [HeaderLine("", "input", [])] + HotkeyLines(bindings) + ["" + "}"]
  }

  /** Outside every block. */
  predicate AtTop(reader: Reader) { reader.section.None? && reader.rule.None? && !reader.inActions }

  lemma ReadsHotkey(reader: Reader, binding: HotkeyBinding)
    requires PrintableBinding(binding) && reader.section == Some("input")
    ensures ReadLine(reader, HotkeyLine(binding)) == Ok(reader.(hotkeys := reader.hotkeys + [binding]))
  {
    var values := [Quoted(binding.trigger), Quoted(binding.command)];
    EntryReads(reader, "  ", "hotkey", values);
    TwoValues(values[0], values[1]);
    assert ["hotkey"] + Values(values) == ["hotkey", binding.trigger, binding.command];
    hide ReadLine;
  }

  lemma AppendHead<T>(front: seq<T>, rest: seq<T>)
    requires rest != []
    ensures front + [rest[0]] + rest[1..] == front + rest
  {
  }

  lemma ReadFirst(reader: Reader, line: string, lines: seq<string>, next: Reader)
    requires ReadLine(reader, line) == Ok(next)
    ensures ReadLines(reader, [line] + lines) == ReadLines(next, lines)
  {
    hide ReadLine;
    assert ([line] + lines)[1..] == lines;
  }

  lemma {:induction false} ReadsHotkeys(reader: Reader, bindings: seq<HotkeyBinding>)
    requires (forall b :: b in bindings ==> PrintableBinding(b)) && reader.section == Some("input")
    ensures ReadLines(reader, HotkeyLines(bindings)) == Ok(reader.(hotkeys := reader.hotkeys + bindings))
    decreases |bindings|
  {
    hide ReadLine, PrintableBinding, HotkeyLine;
    if bindings == [] {
      assert reader.hotkeys + bindings == reader.hotkeys;
    } else {
      ReadsHotkey(reader, bindings[0]);
      var next := reader.(hotkeys := reader.hotkeys + [bindings[0]]);
      ReadsHotkeys(next, bindings[1..]);
      assert bindings == [bindings[0]] + bindings[1..];
      AppendHead(reader.hotkeys, bindings);
      ReadFirst(reader, HotkeyLine(bindings[0]), HotkeyLines(bindings[1..]), next);
    }
  }

  /** An input section appends exactly its hotkeys, in order, and leaves everything else alone. */
  lemma InputSectionReads(reader: Reader, bindings: seq<HotkeyBinding>)
    requires AtTop(reader) && forall b :: b in bindings ==> PrintableBinding(b)
    ensures ReadLines(reader, InputSection(bindings)) == Ok(reader.(hotkeys := reader.hotkeys + bindings))
  {
    var header := HeaderLine("", "input", []);
    var inside := reader.(section := Some("input"));
    var done := inside.(hotkeys := reader.hotkeys + bindings);
    HeaderReads(reader, "", "input", []);
    assert ["input"] + Values([]) == ["input"];
    ReadsHotkeys(inside, bindings);
    CloseReads(done, "");
    hide ReadLine, HeaderLine;
    OneLine(reader, header);
    ReadLinesConcat(reader, [header], HotkeyLines(bindings));
    ThenLine(reader, [header] + HotkeyLines(bindings), done, "" + "}");
  }

  // ---- numbers -----------------------------------------------------------------------------------

  function Digit(n: nat): char
    requires n < 10
  {
    '0' + n as char
  }

  function ShowNat(n: nat): string {
    (if n < 10 then "" else ShowNat(n / 10)) + [Digit(n % 10)]
  }

  function ShowInt(n: int): string { if n < 0 then "-" + ShowNat(-n) else ShowNat(n) }

  lemma {:induction false} DigitsInvertShow(n: nat)
    ensures var text := ShowNat(n);
            && text != "" && DigitsValue(text) == Some(n)
            && (forall c :: c in text ==> IsDigit(c))
  {
    if n >= 10 {
      DigitsInvertShow(n / 10);
    }
    var text := ShowNat(n);
    assert text[..|text| - 1] == if n < 10 then "" else ShowNat(n / 10);
  }

  lemma NumbersInvertShow(n: int)
    ensures 0 <= n <= U32_MAX ==> ParseU32(ShowInt(n)) == Some(n as u32)
    ensures I32_MIN <= n <= I32_MAX ==> ParseI32(ShowInt(n)) == Some(n as i32)
    ensures Bare(ShowInt(n)).Valid() && EndsEntry(Bare(ShowInt(n))) && '\n' !in ShowInt(n)
  {
    if n < 0 {
      NegativesInvertShow(-n);
    } else {
      NaturalsInvertShow(n);
    }
  }

  lemma NaturalsInvertShow(n: nat)
    ensures n <= U32_MAX ==> ParseU32(ShowNat(n)) == Some(n as u32)
    ensures n <= I32_MAX ==> ParseI32(ShowNat(n)) == Some(n as i32)
    ensures Bare(ShowNat(n)).Valid() && EndsEntry(Bare(ShowNat(n))) && '\n' !in ShowNat(n)
  {
    var digits := ShowNat(n);
    DigitsInvertShow(n);
    hide ShowNat, DigitsValue;
    assert digits[0] in digits && digits[|digits| - 1] in digits;
  }

  lemma NegativesInvertShow(n: int)
    requires n > 0
    ensures -n >= I32_MIN ==> ParseI32("-" + ShowNat(n)) == Some(-n as i32)
    ensures var text := "-" + ShowNat(n); Bare(text).Valid() && EndsEntry(Bare(text)) && '\n' !in text
  {
    DigitsInvertShow(n);
    NegatedText(ShowNat(n));
    hide ShowNat, DigitsValue, IsDigit, EndsEntry;
  }

  lemma NegatedText(digits: string)
    requires digits != "" && forall c :: c in digits ==> IsDigit(c)
    ensures var text := "-" + digits;
            && text[0] == '-' && text[1..] == digits
            && Bare(text).Valid() && EndsEntry(Bare(text)) && '\n' !in text
  {
    assert digits[|digits| - 1] in digits;
    assert forall c :: c in "-" + digits ==> c == '-' || IsDigit(c);
  }

  // ---- whole sections ------------------------------------------------------------------------------

  lemma {:induction false} PrintIsOneLine(values: seq<Piece>)
    requires forall v :: v in values ==> '\n' !in v.text
    ensures '\n' !in Print(SpacedOut(values))
  {
    if values != [] {
      assert values[0] in values;
      PrintIsOneLine(values[1..]);
      assert SpacedOut(values)[1..] == SpacedOut(values[1..]);
    }
  }

  lemma LineIsOneLine(indent: string, name: string, values: seq<Piece>)
    requires '\n' !in indent && '\n' !in name && forall v :: v in values ==> '\n' !in v.text
    ensures '\n' !in EntryLine(indent, name, values) && '\n' !in HeaderLine(indent, name, values)
  {
    PrintIsOneLine(values);
    assert Items(name, values)[1..] == SpacedOut(values);
  }

  lemma {:induction false} HotkeyLinesHaveNoNewline(bindings: seq<HotkeyBinding>)
    requires forall b :: b in bindings ==> PrintableBinding(b)
    ensures forall line :: line in HotkeyLines(bindings) ==> '\n' !in line
  {
    if bindings != [] {
      assert bindings[0] in bindings;
      HotkeyLinesHaveNoNewline(bindings[1..]);
      LineIsOneLine("  ", "hotkey", [Quoted(bindings[0].trigger), Quoted(bindings[0].command)]);
      hide EntryLine;
    }
  }

  /** A printed input section parses back to exactly its hotkey list. */
  lemma HotkeysRoundTrip(bindings: seq<HotkeyBinding>, version: nat)
    requires forall b :: b in bindings ==> PrintableBinding(b)
    ensures ParseSource(Join(InputSection(bindings)), version)
         == Ok(Finish(NewReader(version).(hotkeys := bindings)))
  {
    HotkeyLinesHaveNoNewline(bindings);
    LinesInvertJoin(InputSection(bindings));
    InputSectionReads(NewReader(version), bindings);
    assert [] + bindings == bindings;
  }

  /** The same inside any file: whatever is read before stays, whatever follows is read from there. */
  lemma HotkeysRoundTripInFile(before: seq<string>, reader: Reader, bindings: seq<HotkeyBinding>, after: seq<string>, version: nat)
    requires ReadLines(NewReader(version), before) == Ok(reader) && AtTop(reader)
    requires forall b :: b in bindings ==> PrintableBinding(b)
    ensures ReadLines(NewReader(version), before + InputSection(bindings) + after)
         == ReadLines(reader.(hotkeys := reader.hotkeys + bindings), after)
  {
    InputSectionReads(reader, bindings);
    ReadLinesConcat(NewReader(version), before + InputSection(bindings), after);
    ReadLinesConcat(NewReader(version), before, InputSection(bindings));
  }
}
