// What folding ASCII case, searching and trimming mean, character by character.
module TextProofs {
  import opened Text
  import opened WindowRules

  /** The same character, or the same ASCII letter in the other case. */
  predicate SameLetter(a: char, b: char) {
    || a == b
    || ('A' <= a <= 'Z' && b as int == a as int + 32)
    || ('A' <= b <= 'Z' && a as int == b as int + 32)
  }

  predicate SameIgnoringCase(a: string, b: string) {
    |a| == |b| && forall i :: 0 <= i < |a| ==> SameLetter(a[i], b[i])
  }

  lemma LowerLetters(a: char, b: char)
    ensures LowerChar(a) == LowerChar(b) <==> SameLetter(a, b)
  {
    if 'A' <= a <= 'Z' {
      assert LowerChar(a) as int == a as int + 32;
    }
    if 'A' <= b <= 'Z' {
      assert LowerChar(b) as int == b as int + 32;
    }
  }

  /** Two strings are equal ignoring case exactly when they are, letter by letter. */
  lemma {:induction false} CaseIsFolded(a: string, b: string)
    ensures EqIgnoreAsciiCase(a, b) <==> SameIgnoringCase(a, b)
  {
    if a != "" && b != "" {
      CaseIsFolded(a[1..], b[1..]);
      LowerLetters(a[0], b[0]);
      hide LowerChar, SameLetter;
      assert AsciiLower(a) == [LowerChar(a[0])] + AsciiLower(a[1..]) && AsciiLower(b) == [LowerChar(b[0])] + AsciiLower(b[1..]);
      assert AsciiLower(a)[0] == LowerChar(a[0]) && AsciiLower(b)[0] == LowerChar(b[0]);
      assert AsciiLower(a)[1..] == AsciiLower(a[1..]) && AsciiLower(b)[1..] == AsciiLower(b[1..]);
      if SameIgnoringCase(a, b) {
        forall i | 0 <= i < |a[1..]|
          ensures SameLetter(a[1..][i], b[1..][i])
        {
          assert a[1..][i] == a[i + 1] && b[1..][i] == b[i + 1];
        }
      } else if SameLetter(a[0], b[0]) && SameIgnoringCase(a[1..], b[1..]) {
        forall i | 0 <= i < |a|
          ensures SameLetter(a[i], b[i])
        {
          assert i > 0 ==> a[i] == a[1..][i - 1] && b[i] == b[1..][i - 1];
        }
      }
    }
  }

  lemma {:induction false} LowerOfSlice(s: string, i: nat, j: nat)
    requires i <= j <= |s|
    ensures AsciiLower(s)[i..j] == AsciiLower(s[i..j])
    decreases |s|
  {
    hide LowerChar;
    if i > 0 {
      LowerOfSlice(s[1..], i - 1, j - 1);
      assert s[1..][i - 1..j - 1] == s[i..j];
      assert AsciiLower(s)[i..j] == AsciiLower(s[1..])[i - 1..j - 1];
    } else if j > 0 {
      LowerOfSlice(s[1..], 0, j - 1);
      assert s[..j][0] == s[0] && s[..j][1..] == s[1..][..j - 1];
      assert AsciiLower(s)[..j] == [LowerChar(s[0])] + AsciiLower(s[1..])[..j - 1];
      assert s[0..j] == s[..j] && s[1..][0..j - 1] == s[1..][..j - 1];
    }
  }

  /** `text` is `before`, then `needle` in some case, then `after`. */
  ghost predicate SplitsAround(text: string, needle: string, before: string, middle: string, after: string) {
    text == before + middle + after && SameIgnoringCase(middle, needle)
  }

  ghost predicate HoldsText(text: string, needle: string) {
    exists before, middle, after :: SplitsAround(text, needle, before, middle, after)
  }

  /** A search that ignores case succeeds exactly when the text splits around the needle. */
  lemma SearchFinds(text: string, needle: string)
    ensures ContainsIgnoreCase(text, needle) <==> HoldsText(text, needle)
  {
    var lower, low := AsciiLower(text), AsciiLower(needle);
    if ContainsIgnoreCase(text, needle) {
      var i :| 0 <= i <= |lower| && OccursAt(lower, low, i);
      var j := i + |needle|;
      LowerOfSlice(text, i, j);
      CaseIsFolded(text[i..j], needle);
      assert text == text[..i] + text[i..j] + text[j..];
      assert SplitsAround(text, needle, text[..i], text[i..j], text[j..]);
    }
    if HoldsText(text, needle) {
      var before, middle, after :| SplitsAround(text, needle, before, middle, after);
      var i, j := |before|, |before| + |middle|;
      assert text[i..j] == middle;
      CaseIsFolded(middle, needle);
      LowerOfSlice(text, i, j);
      assert OccursAt(lower, low, i);
    }
  }

  // ---- trimming ----------------------------------------------------------------------------------

  /** Space, tab, newline and the other white space below U+0100. */
  predicate BlankChar(c: char) { c as int in {0x09, 0x0A, 0x0B, 0x0C, 0x0D, 0x20, 0x85, 0xA0} }

  predicate IsBlank(s: string) { forall c :: c in s ==> BlankChar(c) }

  lemma WhitespaceIs(c: char)
    ensures IsWhitespace(c) <==> BlankChar(c)
  {
  }

  lemma {:induction false} TrimStartDrops(s: string) returns (before: string)
    ensures s == before + TrimStart(s) && IsBlank(before)
    ensures TrimStart(s) != "" ==> !BlankChar(TrimStart(s)[0])
  {
    before := "";
    if s != "" {
      WhitespaceIs(s[0]);
    }
    if s != "" && IsWhitespace(s[0]) {
      var rest := TrimStartDrops(s[1..]);
      before := [s[0]] + rest;
      assert s == [s[0]] + s[1..];
    }
  }

  lemma {:induction false} TrimEndDrops(s: string) returns (after: string)
    ensures s == TrimEnd(s) + after && IsBlank(after)
    ensures TrimEnd(s) != "" ==> !BlankChar(TrimEnd(s)[|TrimEnd(s)| - 1])
  {
    after := "";
    if s != "" {
      WhitespaceIs(s[|s| - 1]);
    }
    if s != "" && IsWhitespace(s[|s| - 1]) {
      var rest := TrimEndDrops(s[..|s| - 1]);
      after := rest + [s[|s| - 1]];
      assert s == s[..|s| - 1] + [s[|s| - 1]];
    }
  }

  /** Trimming takes blanks off both ends, and all of them. */
  lemma TrimDropsBlanks(s: string) returns (before: string, after: string)
    ensures s == before + Trim(s) + after && IsBlank(before) && IsBlank(after)
    ensures Trim(s) != "" ==> !BlankChar(Trim(s)[0]) && !BlankChar(Trim(s)[|Trim(s)| - 1])
  {
    hide BlankChar;
    before := TrimStartDrops(s);
    after := TrimEndDrops(TrimStart(s));
    assert Trim(s) != "" ==> TrimStart(s)[0] == Trim(s)[0];
  }
}
