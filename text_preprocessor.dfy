/**
 * The text normaliser: a fixed chain of character-class deletions and
 * whitespace rewrites applied to the text of an uploaded résumé.
 */
module TextPreProcessor {
  import opened Strings

  // ---------------------------------------------------------------------
  // The character classes the normaliser deletes
  // ---------------------------------------------------------------------

  /** Java's `\p{Cntrl}`: U+0000..U+001F and U+007F. */
  predicate IsControl(c: char) { c <= '\U{1F}' || c == '\U{7F}' }
  /** `[\p{Cntrl}&&[^\r\n\t]]`. */
  predicate IsStrayControl(c: char) { IsControl(c) && c != '\r' && c != '\n' && c != '\t' }
  predicate IsC1Control(c: char) { '\U{80}' <= c <= '\U{9F}' }
  predicate IsSpecials(c: char) { '\U{FFF0}' <= c <= '\U{FFFF}' }
  predicate IsPrivateUse(c: char) { '\U{E000}' <= c <= '\U{F8FF}' }
  predicate IsMiscSymbol(c: char) { '\U{2600}' <= c <= '\U{26FF}' }
  predicate IsDingbat(c: char) { '\U{2700}' <= c <= '\U{27BF}' }
  predicate IsVariationSelector(c: char) { '\U{FE00}' <= c <= '\U{FE0F}' }
  /** Zero-width space, non-joiner, joiner, and the byte-order mark. */
  predicate IsZeroWidth(c: char) { '\U{200B}' <= c <= '\U{200D}' || c == '\U{FEFF}' }
  /** `[\x00-\x08\x0B\x0C\x0E-\x1F\x7F]`: the controls except tab, line feed and carriage return. */
  predicate IsLowControl(c: char)
  {
    c <= '\U{08}' || c == '\U{0B}' || c == '\U{0C}' || ('\U{0E}' <= c <= '\U{1F}') || c == '\U{7F}'
  }

  /** The UTF-8 bytes of U+FFFD read back as Latin-1: "ï¿½". */
  const Mojibake: string := ['\U{EF}', '\U{BF}', '\U{BD}']

  /** A character that can survive normalisation: no control character and none of the deleted ranges. */
  predicate IsKept(c: char)
  {
    !IsControl(c) && !IsC1Control(c) && !IsSpecials(c) && !IsPrivateUse(c) && !IsMiscSymbol(c)
    && !IsDingbat(c) && !IsVariationSelector(c) && !IsZeroWidth(c)
  }

  predicate IsSpaceOrKept(c: char) { IsSpace(c) || IsKept(c) }

  // ---------------------------------------------------------------------
  // The normaliser
  // ---------------------------------------------------------------------

  /** The eight range deletions, in source order. */
  function StripSymbols(s: string): string
  {
    RemoveChars(RemoveChars(RemoveChars(RemoveChars(RemoveChars(RemoveChars(RemoveChars(RemoveChars(
      s, IsStrayControl), IsC1Control), IsSpecials), IsPrivateUse), IsMiscSymbol), IsDingbat),
      IsVariationSelector), IsZeroWidth)
  }

  /** `\s+` to one space, `\n+` to one line feed, carriage returns deleted, then `trim()`. */
  function NormalizeWhitespace(s: string): string
  {
    Trim(RemoveChars(CollapseRuns(CollapseRuns(s, IsSpace, ' '), c => c == '\n', '\n'), c => c == '\r'))
  }

  /** The final clean-up: the no-op `replace("", "")`, the mojibake deletion and the control deletion. */
  function FinalCleanup(s: string): string
  {
    RemoveChars(ReplaceLiteral(ReplaceLiteral(s, [], []), Mojibake, []), IsLowControl)
  }

  /** `preprocessText`: `None` stands for a null text. */
  function PreprocessText(text: Option<string>): (r: string)
  {
    if text.None? || IsBlank(text.value) then []
    else FinalCleanup(NormalizeWhitespace(StripSymbols(text.value)))
  }

  /** `splitIntoLines`. */
  function SplitIntoLines(text: string): (r: seq<string>)
    ensures forall j :: 0 <= j < |r| ==> '\n' !in r[j]
  {
    SplitLines(text)
  }

  /** The lines are exactly the text's line-feed-separated segments, only empty trailing ones lost. */
  lemma SplitIntoLinesSegments(text: string)
    ensures IsLineSplit(text, SplitIntoLines(text))
  {
    SplitLinesIsLineSplit(text);
  }

  /** `cleanLine`: trim, then every `\s` run becomes one space. */
  function CleanLine(line: string): (r: string)
  {
    CollapseRuns(Trim(line), IsSpace, ' ')
  }

  // ---------------------------------------------------------------------
  // Shape of each stage
  // ---------------------------------------------------------------------

  predicate NoAdjacentSpaces(s: string)
  {
    forall i :: 0 <= i < |s| - 1 ==> !(IsSpace(s[i]) && IsSpace(s[i + 1]))
  }

  predicate SpacesAreBlanks(s: string)
  {
    forall i :: 0 <= i < |s| ==> IsSpace(s[i]) ==> s[i] == ' '
  }

  predicate Trimmed(s: string)
  {
    s == [] || (!IsTrimmable(s[0]) && !IsTrimmable(s[|s| - 1]))
  }

  lemma TrimmedIsFixed(r: string)
    requires Trimmed(r)
    ensures Trim(r) == r
  {
    TrimNoop(r);
  }

  lemma SingleSpacedIsFixed(r: string)
    requires NoAdjacentSpaces(r) && SpacesAreBlanks(r)
    ensures CollapseRuns(r, IsSpace, ' ') == r
  {
    CollapseRunsNoop(r, IsSpace, ' ');
  }

  lemma SliceKeepsNoAdjacentSpaces(s: string, k: nat, n: nat)
    requires k + n <= |s| && NoAdjacentSpaces(s)
    ensures NoAdjacentSpaces(s[k..k + n])
  {
    var t := s[k..k + n];
    forall i | 0 <= i < n - 1 ensures !(IsSpace(t[i]) && IsSpace(t[i + 1])) {
      assert t[i] == s[k + i] && t[i + 1] == s[k + i + 1];
    }
  }

  /** The range deletions leave only whitespace and kept characters. */
  lemma StripSymbolsShape(s: string)
    ensures All(StripSymbols(s), IsSpaceOrKept)
    ensures |StripSymbols(s)| <= |s|
  {
    var s1 := RemoveChars(s, IsStrayControl);
    var s2 := RemoveChars(s1, IsC1Control);
    var s3 := RemoveChars(s2, IsSpecials);
    var s4 := RemoveChars(s3, IsPrivateUse);
    var s5 := RemoveChars(s4, IsMiscSymbol);
    var s6 := RemoveChars(s5, IsDingbat);
    var s7 := RemoveChars(s6, IsVariationSelector);
    var s8 := RemoveChars(s7, IsZeroWidth);
    RemoveCharsKeeps(s1, IsC1Control, c => !IsStrayControl(c));
    RemoveCharsKeeps(s2, IsSpecials, c => !IsStrayControl(c) && !IsC1Control(c));
    RemoveCharsKeeps(s3, IsPrivateUse, c => !IsStrayControl(c) && !IsC1Control(c) && !IsSpecials(c));
    RemoveCharsKeeps(s4, IsMiscSymbol, c => !IsStrayControl(c) && !IsC1Control(c) && !IsSpecials(c) && !IsPrivateUse(c));
    RemoveCharsKeeps(s5, IsDingbat, c => !IsStrayControl(c) && !IsC1Control(c) && !IsSpecials(c) && !IsPrivateUse(c)
      && !IsMiscSymbol(c));
    RemoveCharsKeeps(s6, IsVariationSelector, c => !IsStrayControl(c) && !IsC1Control(c) && !IsSpecials(c)
      && !IsPrivateUse(c) && !IsMiscSymbol(c) && !IsDingbat(c));
    RemoveCharsKeeps(s7, IsZeroWidth, c => !IsStrayControl(c) && !IsC1Control(c) && !IsSpecials(c)
      && !IsPrivateUse(c) && !IsMiscSymbol(c) && !IsDingbat(c) && !IsVariationSelector(c));
    assert s8 == StripSymbols(s);
  }

  /** After the `\\s+` collapse only kept characters remain, so the line-feed and carriage-return steps do nothing. */
  lemma CollapseStageShape(s: string)
    requires All(s, IsSpaceOrKept)
    ensures var s2 := CollapseRuns(s, IsSpace, ' ');
      && All(s2, IsKept)
      && RemoveChars(CollapseRuns(s2, c => c == '\n', '\n'), c => c == '\r') == s2
  {
    var s2 := CollapseRuns(s, IsSpace, ' ');
    assert All(s, c => IsSpace(c) || IsKept(c));
    CollapseRunsKeeps(s, IsSpace, ' ', IsKept);
    assert All(s2, c => !(c == '\n'));
    CollapseRunsAbsent(s2, c => c == '\n', '\n');
    assert All(s2, c => !(c == '\r'));
    RemoveCharsNoop(s2, c => c == '\r');
  }

  /** What is left after the whitespace stage, when the input has passed the range deletions. */
  lemma NormalizeWhitespaceShape(s: string)
    requires All(s, IsSpaceOrKept)
    ensures var r := NormalizeWhitespace(s);
      |r| <= |s| && All(r, IsKept) && NoAdjacentSpaces(r) && Trimmed(r)
  {
    var s2 := CollapseRuns(s, IsSpace, ' ');
    CollapseStageShape(s);
    var r := Trim(s2);
    assert NormalizeWhitespace(s) == r;
    SliceKeepsNoAdjacentSpaces(s2, |s2| - |TrimStart(s2)|, |r|);
    TrimKeeps(s2, IsKept);
  }

  /** The final clean-up keeps the kept characters and deletes nothing else once the mojibake is absent. */
  lemma FinalCleanupShape(s: string)
    requires All(s, IsKept)
    ensures All(FinalCleanup(s), IsKept) && |FinalCleanup(s)| <= |s|
    ensures '\U{EF}' !in s ==> FinalCleanup(s) == s
  {
    ReplaceEmptyByEmpty(s);
    DeleteLiteralKeeps(s, Mojibake, IsKept);
    DeleteLiteralShrinks(s, Mojibake);
    var t := ReplaceLiteral(s, Mojibake, []);
    RemoveCharsKeeps(t, IsLowControl, IsKept);
    if '\U{EF}' !in s {
      ReplaceAbsent(s, Mojibake, []);
      assert All(s, c => !IsLowControl(c));
      RemoveCharsNoop(s, IsLowControl);
    }
  }

  /** Text that is trimmed, single-spaced and free of control characters passes the whitespace stage unchanged. */
  lemma NormalizeWhitespaceFixpoint(y: string)
    requires All(y, IsKept) && NoAdjacentSpaces(y) && Trimmed(y)
    ensures NormalizeWhitespace(y) == y
  {
    assert SpacesAreBlanks(y);
    SingleSpacedIsFixed(y);
    assert All(y, c => !(c == '\n'));
    CollapseRunsAbsent(y, c => c == '\n', '\n');
    assert All(y, c => !(c == '\r'));
    RemoveCharsNoop(y, c => c == '\r');
    TrimmedIsFixed(y);
  }

  /** Every step only deletes characters or shortens a run. */
  lemma PreprocessShrinks(text: string)
    ensures |PreprocessText(Some(text))| <= |text|
  {
    if !IsBlank(text) {
      StripSymbolsShape(text);
      NormalizeWhitespaceShape(StripSymbols(text));
      FinalCleanupShape(NormalizeWhitespace(StripSymbols(text)));
    }
  }

  /** A null or blank text gives the empty string. */
  lemma PreprocessBlank(text: Option<string>)
    requires text.None? || All(text.value, IsTrimmable)
    ensures PreprocessText(text) == []
  {
  }

  /** The result holds no control character (so no tab, line feed or carriage return) and none of the deleted ranges. */
  lemma PreprocessCharacters(text: Option<string>)
    ensures All(PreprocessText(text), IsKept)
    ensures '\n' !in PreprocessText(text) && '\r' !in PreprocessText(text) && '\t' !in PreprocessText(text)
  {
    if text.Some? && !IsBlank(text.value) {
      StripSymbolsShape(text.value);
      NormalizeWhitespaceShape(StripSymbols(text.value));
      FinalCleanupShape(NormalizeWhitespace(StripSymbols(text.value)));
    }
  }

  /** The normalised text is a single line for every later stage that splits it into lines. */
  lemma PreprocessSingleLine(text: Option<string>)
    ensures SplitIntoLines(PreprocessText(text)) == [PreprocessText(text)]
  {
    PreprocessCharacters(text);
  }

  /** When the mojibake deletion cannot fire, the result is trimmed, its only blanks are plain spaces and no two are adjacent. */
  lemma PreprocessShape(text: string)
    requires '\U{EF}' !in text
    ensures var r := PreprocessText(Some(text));
      NoAdjacentSpaces(r) && SpacesAreBlanks(r) && Trimmed(r) && '\U{EF}' !in r
  {
    PreprocessCharacters(Some(text));
    KeptBlanksArePlain(PreprocessText(Some(text)));
    PreprocessSpacing(text);
  }

  /** A text of kept characters has no blank other than the plain space. */
  lemma KeptBlanksArePlain(r: string)
    requires All(r, IsKept)
    ensures SpacesAreBlanks(r)
  {
    forall i | 0 <= i < |r| && IsSpace(r[i]) ensures r[i] == ' ' {
      assert IsKept(r[i]);
    }
  }

  /** The spacing half of `PreprocessShape`: trimmed, no two adjacent spaces, and no 'ï'. */
  lemma PreprocessSpacing(text: string)
    requires '\U{EF}' !in text
    ensures var r := PreprocessText(Some(text));
      NoAdjacentSpaces(r) && Trimmed(r) && '\U{EF}' !in r
  {
    if !IsBlank(text) {
      var s1 := StripSymbols(text);
      StripSymbolsShape(text);
      RemoveCharsKeeps(text, IsStrayControl, c => c != '\U{EF}');
      assert All(s1, c => c != '\U{EF}') by {
        var t := text;
        t := RemoveChars(t, IsStrayControl);
        RemoveCharsKeeps(t, IsC1Control, c => c != '\U{EF}');
        t := RemoveChars(t, IsC1Control);
        RemoveCharsKeeps(t, IsSpecials, c => c != '\U{EF}');
        t := RemoveChars(t, IsSpecials);
        RemoveCharsKeeps(t, IsPrivateUse, c => c != '\U{EF}');
        t := RemoveChars(t, IsPrivateUse);
        RemoveCharsKeeps(t, IsMiscSymbol, c => c != '\U{EF}');
        t := RemoveChars(t, IsMiscSymbol);
        RemoveCharsKeeps(t, IsDingbat, c => c != '\U{EF}');
        t := RemoveChars(t, IsDingbat);
        RemoveCharsKeeps(t, IsVariationSelector, c => c != '\U{EF}');
        t := RemoveChars(t, IsVariationSelector);
        RemoveCharsKeeps(t, IsZeroWidth, c => c != '\U{EF}');
      }
      NormalizeWhitespaceShape(s1);
      var s5 := NormalizeWhitespace(s1);
      var s2 := CollapseRuns(s1, IsSpace, ' ');
      CollapseRunsKeeps(s1, IsSpace, ' ', c => c != '\U{EF}');
      RemoveCharsKeeps(s2, c => c == '\r', c => c != '\U{EF}');
      assert CollapseRuns(s2, c => c == '\n', '\n') == s2 by {
        CollapseRunsKeeps(s1, IsSpace, ' ', IsKept);
        CollapseRunsAbsent(s2, c => c == '\n', '\n');
      }
      TrimKeeps(RemoveChars(s2, c => c == '\r'), c => c != '\U{EF}');
      assert All(s5, c => c != '\U{EF}');
      FinalCleanupShape(s5);
    }
  }

  lemma StripSymbolsFixpoint(y: string)
    requires All(y, IsKept)
    ensures StripSymbols(y) == y
  {
    forall i | 0 <= i < |y| ensures !IsStrayControl(y[i]) { assert IsKept(y[i]); }
    RemoveCharsNoop(y, IsStrayControl);
    RemoveCharsNoop(y, IsC1Control);
    RemoveCharsNoop(y, IsSpecials);
    RemoveCharsNoop(y, IsPrivateUse);
    RemoveCharsNoop(y, IsMiscSymbol);
    RemoveCharsNoop(y, IsDingbat);
    RemoveCharsNoop(y, IsVariationSelector);
    RemoveCharsNoop(y, IsZeroWidth);
  }

  /** On text that is already trimmed, single-spaced and free of control characters only the final clean-up acts. */
  lemma PreprocessOfNormal(y: string)
    requires y != [] && All(y, IsKept) && NoAdjacentSpaces(y) && Trimmed(y)
    ensures PreprocessText(Some(y)) == RemoveChars(ReplaceLiteral(y, Mojibake, []), IsLowControl)
  {
    assert !IsBlank(y);
    StripSymbolsFixpoint(y);
    NormalizeWhitespaceFixpoint(y);
    ReplaceEmptyByEmpty(y);
  }

  /** Normalised text without the mojibake's first character is its own normal form. */
  lemma PreprocessFixpoint(y: string)
    requires All(y, IsKept) && NoAdjacentSpaces(y) && Trimmed(y) && '\U{EF}' !in y
    ensures PreprocessText(Some(y)) == y
  {
    if y != [] {
      PreprocessOfNormal(y);
      ReplaceAbsent(y, Mojibake, []);
      DeleteNoControl(y);
    }
  }

  /** Normalising twice is normalising once, for text without the mojibake sequence's first character. */
  lemma PreprocessIdempotent(text: string)
    requires '\U{EF}' !in text
    ensures PreprocessText(Some(PreprocessText(Some(text)))) == PreprocessText(Some(text))
  {
    PreprocessShape(text);
    PreprocessCharacters(Some(text));
    PreprocessFixpoint(PreprocessText(Some(text)));
  }

  /** A character of an ordinary word: kept, not whitespace, and not the mojibake's first character. */
  predicate IsWordLetter(c: char) { IsKept(c) && !IsSpace(c) && c != '\U{EF}' }

  lemma WordShape(u: string)
    requires All(u, IsWordLetter)
    ensures All(u, IsKept) && All(u, c => !IsSpace(c)) && NoAdjacentSpaces(u) && '\U{EF}' !in u
  {
  }

  lemma DeleteMojibakeBetween(u: string, v: string)
    requires All(u, IsWordLetter) && All(v, IsWordLetter)
    ensures ReplaceLiteral(u + " " + Mojibake + " " + v, Mojibake, []) == u + "  " + v
  {
    WordShape(u);
    WordShape(v);
    var tail := Mojibake + " " + v;
    assert u + " " + Mojibake + " " + v == (u + " ") + tail;
    assert '\U{EF}' !in u + " ";
    DeleteLiteralPrefix(u + " ", tail, Mojibake);
    assert tail[..|Mojibake|] == Mojibake && tail[|Mojibake|..] == " " + v;
    assert ReplaceLiteral(tail, Mojibake, []) == ReplaceLiteral(" " + v, Mojibake, []);
    assert '\U{EF}' !in " " + v;
    ReplaceAbsent(" " + v, Mojibake, []);
    assert (u + " ") + (" " + v) == u + "  " + v;
  }

  lemma CollapseLeadingSpaces(v: string)
    requires All(v, IsWordLetter)
    ensures CollapseRuns("  " + v, IsSpace, ' ') == " " + v
  {
    var w := "  " + v;
    assert w[0] == ' ' && w[1..] == " " + v;
    assert (" " + v)[0] == ' ' && (" " + v)[1..] == v;
    assert v == [] || !IsSpace(v[0]);
    assert DropWhile(v, IsSpace) == v;
    assert RunEnd(" " + v, 1, IsSpace) == 1;
    assert DropWhile(" " + v, IsSpace) == v;
    assert All(v, c => !IsSpace(c));
    CollapseRunsAbsent(v, IsSpace, ' ');
  }

  lemma CollapseBetween(u: string, v: string)
    requires All(u, IsWordLetter) && All(v, IsWordLetter)
    ensures CollapseRuns(u + "  " + v, IsSpace, ' ') == u + " " + v
  {
    assert u + "  " + v == u + ("  " + v);
    assert All(u, c => !IsSpace(c));
    CollapseRunsPrefix(u, "  " + v, IsSpace, ' ');
    CollapseLeadingSpaces(v);
    assert u + (" " + v) == u + " " + v;
  }

  lemma JoinNoAdjacentSpaces(a: string, b: string)
    requires NoAdjacentSpaces(a) && NoAdjacentSpaces(b)
    requires a == [] || b == [] || !IsSpace(a[|a| - 1]) || !IsSpace(b[0])
    ensures NoAdjacentSpaces(a + b)
  {
    var x := a + b;
    forall i | 0 <= i < |x| - 1 ensures !(IsSpace(x[i]) && IsSpace(x[i + 1])) {
      if i + 1 < |a| {
        assert x[i] == a[i] && x[i + 1] == a[i + 1];
      } else if i + 1 == |a| {
        assert x[i] == a[|a| - 1] && x[i + 1] == b[0];
      } else {
        assert x[i] == b[i - |a|] && x[i + 1] == b[i + 1 - |a|];
      }
    }
  }

  /** The mojibake sequence survives the symbol filter and holds no whitespace. */
  lemma MojibakeShape()
    ensures All(Mojibake, IsKept) && NoAdjacentSpaces(Mojibake) && All(" ", IsKept) && All("  ", IsKept)
  {
    assert forall i :: 0 <= i < |Mojibake| ==> Mojibake[i] in {'\U{EF}', '\U{BF}', '\U{BD}'};
  }

  lemma FirstPassShape(u: string, v: string)
    requires u != [] && v != [] && All(u, IsWordLetter) && All(v, IsWordLetter)
    ensures var x := u + " " + Mojibake + " " + v;
      All(x, IsKept) && NoAdjacentSpaces(x) && Trimmed(x)
  {
    WordShape(u);
    WordShape(v);
    var a1 := u + " ";
    var a2 := a1 + Mojibake;
    var a3 := a2 + " ";
    var x := a3 + v;
    MojibakeShape();
    AllConcat(u, " ", IsKept);
    AllConcat(a1, Mojibake, IsKept);
    AllConcat(a2, " ", IsKept);
    AllConcat(a3, v, IsKept);
    JoinNoAdjacentSpaces(u, " ");
    JoinNoAdjacentSpaces(a1, Mojibake);
    JoinNoAdjacentSpaces(a2, " ");
    JoinNoAdjacentSpaces(a3, v);
    assert x[0] == u[0] && x[|x| - 1] == v[|v| - 1];
  }

  /** Two words around a single space, a mojibake sequence and another space. */
  lemma FirstPass(u: string, v: string)
    requires u != [] && v != [] && All(u, IsWordLetter) && All(v, IsWordLetter)
    ensures PreprocessText(Some(u + " " + Mojibake + " " + v)) == u + "  " + v
  {
    var x := u + " " + Mojibake + " " + v;
    FirstPassShape(u, v);
    PreprocessOfNormal(x);
    DeleteMojibakeBetween(u, v);
    WordShape(u);
    WordShape(v);
    MojibakeShape();
    AllConcat(u, "  ", IsKept);
    AllConcat(u + "  ", v, IsKept);
    DeleteNoControl(u + "  " + v);
  }

  lemma DeleteNoControl(y: string)
    requires All(y, IsKept)
    ensures RemoveChars(y, IsLowControl) == y
  {
    assert All(y, c => !IsLowControl(c));
    RemoveCharsNoop(y, IsLowControl);
  }

  /** When the collapse already yields trimmed text without line breaks, the rest of the whitespace stage keeps it. */
  lemma NormalizeWhitespaceVia(z: string, y: string)
    requires CollapseRuns(z, IsSpace, ' ') == y && All(y, IsKept) && Trimmed(y)
    ensures NormalizeWhitespace(z) == y
  {
    assert All(y, c => !(c == '\n'));
    CollapseRunsAbsent(y, c => c == '\n', '\n');
    assert All(y, c => !(c == '\r'));
    RemoveCharsNoop(y, c => c == '\r');
    TrimmedIsFixed(y);
  }

  lemma SecondPassShape(u: string, v: string)
    requires u != [] && v != [] && All(u, IsWordLetter) && All(v, IsWordLetter)
    ensures var y := u + " " + v;
      All(y, IsKept) && NoAdjacentSpaces(y) && Trimmed(y) && '\U{EF}' !in y
    ensures All(u + "  " + v, IsKept) && (u + "  " + v)[0] == u[0]
  {
    WordShape(u);
    WordShape(v);
    AllConcat(u, " ", IsKept);
    AllConcat(u + " ", v, IsKept);
    AllConcat(u, "  ", IsKept);
    AllConcat(u + "  ", v, IsKept);
    JoinNoAdjacentSpaces(u, " ");
    JoinNoAdjacentSpaces(u + " ", v);
    var y := u + " " + v;
    assert y[0] == u[0] && y[|y| - 1] == v[|v| - 1];
  }

  /** The same words around two spaces. */
  lemma SecondPass(u: string, v: string)
    requires u != [] && v != [] && All(u, IsWordLetter) && All(v, IsWordLetter)
    ensures PreprocessText(Some(u + "  " + v)) == u + " " + v
  {
    var z := u + "  " + v;
    var y := u + " " + v;
    SecondPassShape(u, v);
    assert !IsBlank(z);
    StripSymbolsFixpoint(z);
    CollapseBetween(u, v);
    NormalizeWhitespaceVia(z, y);
    FinalCleanupShape(y);
  }

  /**
   * Without that restriction the normaliser is not idempotent: deleting the
   * mojibake after the whitespace collapse leaves two spaces side by side,
   * which a second pass collapses.
   */
  lemma PreprocessNotIdempotent(u: string, v: string)
    requires u != [] && v != [] && All(u, IsWordLetter) && All(v, IsWordLetter)
    ensures PreprocessText(Some(u + " " + Mojibake + " " + v)) == u + "  " + v
    ensures PreprocessText(Some(PreprocessText(Some(u + " " + Mojibake + " " + v)))) == u + " " + v
  {
    FirstPass(u, v);
    SecondPass(u, v);
  }

  /** `cleanLine` output has no leading or trailing blank, no two adjacent `\s` characters, and uses only plain spaces. */
  lemma CleanLineShape(line: string)
    ensures var r := CleanLine(line);
      Trimmed(r) && NoAdjacentSpaces(r) && SpacesAreBlanks(r) && |r| <= |line|
  {
    var t := Trim(line);
    CollapseRunsKeeps(t, IsSpace, ' ', c => !IsSpace(c) || c == ' ');
  }

  /** A trimmed line with single plain spaces is its own clean form. */
  lemma CleanLineFixpoint(r: string)
    requires Trimmed(r) && NoAdjacentSpaces(r) && SpacesAreBlanks(r)
    ensures CleanLine(r) == r
  {
    TrimmedIsFixed(r);
    SingleSpacedIsFixed(r);
  }

  lemma CleanLineIdempotent(line: string)
    ensures CleanLine(CleanLine(line)) == CleanLine(line)
  {
    CleanLineShape(line);
    CleanLineFixpoint(CleanLine(line));
  }
}
