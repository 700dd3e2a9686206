/**
 * Contact details and the candidate's name, pulled out of the cleaned text
 * into a `Resume`. A field is only ever filled while it is still null.
 *
 * The e-mail and phone regular expressions are not modelled character by
 * character: each is a `Finder`, a function from the text to the span of its
 * first match. The LinkedIn, GitHub and street-address patterns are small
 * enough to be written out here.
 */
module PersonalInfo {
  import opened Strings
  import opened ResumeModel

  // ---------------------------------------------------------------------
  // First matches
  // ---------------------------------------------------------------------

  /**
   * `Matcher.find()` followed by `group()`: the span of the first match, if
   * any. A span that does not lie within the text is no match; a matcher
   * never returns one.
   */
  type Finder = string -> Option<Span>

  /** The text a match covers. */
  function MatchText(m: Option<Span>, text: string): (r: Option<string>)
    requires WithinText(m, text)
    ensures r.Some? ==> Contains(text, r.value)
    ensures r.Some? <==> m.Some?
  {
    match m
    case None => None
    case Some(sp) =>
      assert OccursAt(text, text[sp.start..sp.end], sp.start);
      Some(text[sp.start..sp.end])
  }

  /** The text of the first match of a finder. */
  function Found(f: Finder, text: string): (r: Option<string>)
  {
    var m := f(text);
    if WithinText(m, text) then MatchText(m, text) else None
  }

  // ---------------------------------------------------------------------
  // `(?:https?://)?(?:www\.)?<host>[\w-]+/?`, case-insensitive
  // ---------------------------------------------------------------------

  const LinkedInHost := "linkedin.com/in/"
  const GitHubHost := "github.com/"

  predicate IsHandleChar(c: char) { IsWordChar(c) || c == '-' }

  /** The end of the maximal run of handle characters starting at `i`. */
  function HandleEnd(t: string, i: nat): (e: nat)
    requires i <= |t|
    ensures i <= e <= |t| && (e < |t| ==> !IsHandleChar(t[e]))
    ensures forall j :: i <= j < e ==> IsHandleChar(t[j])
    decreases |t| - i
  {
    if i == |t| || !IsHandleChar(t[i]) then i else HandleEnd(t, i + 1)
  }

  /**
   * Where the host must begin for a match starting at `i` of the lower-cased
   * text `t`: after the optional scheme and the optional `www.`. The optional
   * parts never need backtracking, since dropping one leaves an `h` or a `w`
   * where the host must begin.
   */
  function HostStart(t: string, i: nat): (b: nat)
    ensures i <= b
  {
    var a := i + (if OccursAt(t, "https://", i) then 8 else if OccursAt(t, "http://", i) then 7 else 0);
    a + (if OccursAt(t, "www.", a) then 4 else 0)
  }

  /** Where the URL pattern starting at `i` of the lower-cased text `t` ends, if it matches there. */
  function UrlMatchEnd(t: string, host: string, i: nat): (r: Option<nat>)
    requires i <= |t|
    ensures r.Some? ==> OccursAt(t, host, HostStart(t, i)) && HostStart(t, i) + |host| < r.value <= |t|
  {
    var b := HostStart(t, i);
    if !OccursAt(t, host, b) then None
    else
      var c := b + |host|;
      var d := HandleEnd(t, c);
      if d == c then None
      else Some(if d < |t| && t[d] == '/' then d + 1 else d)
  }

  /** The URL matcher for `host` over the lower-cased text `t`. */
  function UrlMatcher(t: string, host: string): (at: nat -> Option<nat>)
    ensures MatcherWithin(|t|, at)
  {
    (j: nat) => if j <= |t| then UrlMatchEnd(t, host, j) else None
  }

  /** The first URL for `host` in a text, matched case-insensitively. */
  function FoundUrl(host: string, text: string): (r: Option<string>)
  {
    var t := Lower(text);
    MatchText(Leftmost(|t|, UrlMatcher(t, host), 0), text)
  }

  /** A match starting at `i` contains the host. */
  lemma UrlMatchHasHost(t: string, host: string, i: nat)
    requires i <= |t| && UrlMatchEnd(t, host, i).Some?
    ensures Contains(t[i..UrlMatchEnd(t, host, i).value], host)
  {
    var e := UrlMatchEnd(t, host, i).value;
    var b := HostStart(t, i);
    var u := t[i..e];
    forall k | 0 <= k < |host| ensures u[b - i + k] == host[k] {
      assert host[k] == t[b..b + |host|][k];
    }
    assert u[b - i..b - i + |host|] == host;
    assert OccursAt(u, host, b - i);
  }

  /** A LinkedIn or GitHub value is a piece of the text that contains the host name, in any letter case. */
  lemma UrlFoundHasHost(host: string, text: string)
    requires FoundUrl(host, text).Some?
    ensures Contains(Lower(FoundUrl(host, text).value), host)
  {
    var t := Lower(text);
    var m := Leftmost(|t|, UrlMatcher(t, host), 0).value;
    LeftmostIsLeftmost(|t|, UrlMatcher(t, host), 0);
    assert UrlMatchEnd(t, host, m.start) == Some(m.end);
    UrlMatchHasHost(t, host, m.start);
    LowerSlice(text, m.start, m.end);
  }

  // ---------------------------------------------------------------------
  // Names
  // ---------------------------------------------------------------------

  /** Three consecutive decimal digits. */
  predicate HasDigitRun(s: string)
  {
    exists i :: 0 <= i && i + 3 <= |s| && IsDigit(s[i]) && IsDigit(s[i + 1]) && IsDigit(s[i + 2])
  }

  /** The characters Java's `.` does not match. */
  predicate IsLineTerminator(c: char)
  {
    c == '\n' || c == '\r' || c == '\U{85}' || c == '\U{2028}' || c == '\U{2029}'
  }

  /** `s.matches(".*\\d{3,}.*")`: the digits must be there, and `.` must cover the rest. */
  predicate IsNotLineTerminator(c: char) { !IsLineTerminator(c) }

  predicate MatchesDigitRun(s: string)
  {
    HasDigitRun(s) && All(s, IsNotLineTerminator)
  }

  predicate IsLetterOrSpace(c: char) { IsLetter(c) || IsSpace(c) }

  /**
   * `^[A-Z][a-zA-Z]+(?:\s+[a-zA-Z]+){1,3}$` with `matches()`: letters and
   * whitespace only, no whitespace at either end, two to four words of which
   * the first has at least two letters and starts with a capital.
   */
  predicate MatchesNamePattern(line: string)
  {
    |line| >= 2 && IsUpper(line[0]) && !IsSpace(line[|line| - 1]) && All(line, IsLetterOrSpace) &&
    var words := SplitOnSpaces(line);
    2 <= |words| <= 4 && |words[0]| >= 2
  }

  /** `isLikelyName`. */
  predicate IsLikelyName(line: string)
  {
    line != [] &&
    !(Contains(line, "@") || Contains(line, "http") || Contains(line, "www") || MatchesDigitRun(line)
      || |line| < 4 || |line| > 50) &&
    MatchesNamePattern(line)
  }

  /** The rejections `isLikelyName` performs before trying the name pattern. */
  lemma LikelyNameRejects(line: string)
    ensures Contains(line, "@") || Contains(line, "http") || Contains(line, "www") ==> !IsLikelyName(line)
    ensures HasDigitRun(line) ==> !IsLikelyName(line)
    ensures |line| < 4 || |line| > 50 ==> !IsLikelyName(line)
  {
  }

  /** A likely name is already trimmed and is made of two to four words of letters, the first capitalised. */
  lemma LikelyNameShape(line: string)
    requires IsLikelyName(line)
    ensures Trim(line) == line
    ensures var words := SplitOnSpaces(line);
      && 2 <= |words| <= 4 && |words[0]| >= 2
      && (forall j :: 0 <= j < |words| ==> All(words[j], IsLetter))
      && IsUpper(line[0]) && words[0][0] == line[0]
  {
    NamePatternShape(line);
    FirstWordStartsLine(line);
  }

  /** A line that does not open with a blank and splits into several words begins with its first word. */
  lemma FirstWordStartsLine(line: string)
    requires line != [] && !IsSpace(line[0]) && |SplitOnSpaces(line)| >= 2
    ensures SplitOnSpaces(line)[0] != [] && SplitOnSpaces(line)[0][0] == line[0]
  {
    var k := IndexOfSpace(line);
    assert HasSpace(line);
    SpacePiecesCons(line);
    assert SpacePieces(line)[0] == line[..k];
  }

  /** A line matching the name pattern is already trimmed and its words are made of letters. */
  lemma NamePatternShape(line: string)
    requires MatchesNamePattern(line)
    ensures Trim(line) == line
    ensures forall j :: 0 <= j < |SplitOnSpaces(line)| ==> All(SplitOnSpaces(line)[j], IsLetter)
  {
    TrimNoop(line);
    WordsOfLetters(line);
  }

  /** The words of a string of letters and blanks are made of letters. */
  lemma WordsOfLetters(s: string)
    requires All(s, IsLetterOrSpace)
    ensures forall j :: 0 <= j < |SplitOnSpaces(s)| ==> All(SplitOnSpaces(s)[j], IsLetter)
  {
    var words := SplitOnSpaces(s);
    SplitOnSpacesKeeps(s, IsLetterOrSpace);
    forall j | 0 <= j < |words| ensures All(words[j], IsLetter) {
      forall i | 0 <= i < |words[j]| ensures IsLetter(words[j][i]) {
        assert IsLetterOrSpace(words[j][i]) && !IsSpace(words[j][i]);
      }
    }
  }

  /** A word the permissive check accepts: two or more of `[a-zA-Z-]`. */
  predicate IsNameChar(c: char) { IsLetter(c) || c == '-' }

  predicate IsNameWord(w: string)
  {
    |w| >= 2 && All(w, IsNameChar)
  }

  predicate WordsFormName(words: seq<string>)
  {
    (forall m :: 0 <= m < |words| ==> IsNameWord(words[m])) &&
    (|words| > 0 ==> IsUpper(words[0][0]))
  }

  /** The line test of `extractNameFromText`, applied to a trimmed line. */
  predicate IsPermissiveName(line: string)
  {
    line != [] && !Contains(line, "@") && !Contains(line, "http") && !MatchesDigitRun(line) &&
    2 < |line| < 50 &&
    var words := SplitOnSpaces(line);
    2 <= |words| <= 4 && WordsFormName(words)
  }

  /** The first of the lines `from` up to (not including) `limit` that satisfies `p` once trimmed, trimmed. */
  function FirstTrimmed(lines: seq<string>, from: nat, limit: nat, p: string -> bool): Option<string>
    decreases |lines| - from
  {
    if from >= limit || from >= |lines| then None
    else if p(Trim(lines[from])) then Some(Trim(lines[from]))
    else FirstTrimmed(lines, from + 1, limit, p)
  }

  /**
   * Only the lines from `from` up to `min(limit, #lines)` are looked at, and
   * the one found is the first of them that qualifies.
   */
  lemma {:induction false} FirstTrimmedIsFirst(lines: seq<string>, from: nat, limit: nat, p: string -> bool)
    ensures var r := FirstTrimmed(lines, from, limit, p);
      var m := Min(limit, |lines|);
      && (r.None? ==> forall i :: from <= i < m ==> !p(Trim(lines[i])))
      && (r.Some? ==> exists i :: from <= i < m && r.value == Trim(lines[i]) && p(r.value)
                                 && forall j :: from <= j < i ==> !p(Trim(lines[j])))
    decreases |lines| - from
  {
    if from < limit && from < |lines| && !p(Trim(lines[from])) {
      FirstTrimmedIsFirst(lines, from + 1, limit, p);
      var r := FirstTrimmed(lines, from + 1, limit, p);
      if r.Some? {
        var i :| from + 1 <= i < Min(limit, |lines|) && r.value == Trim(lines[i]) && p(r.value)
                 && forall j :: from + 1 <= j < i ==> !p(Trim(lines[j]));
        assert forall j :: from <= j < i ==> !p(Trim(lines[j]));
      }
    }
  }

  /** The line found, trimmed, satisfies `p`, is its own trim, and is a substring of the text the lines were split from. */
  lemma FirstTrimmedLineOccurs(text: string, limit: nat, p: string -> bool)
    requires FirstTrimmed(SplitLines(text), 0, limit, p).Some?
    ensures p(FirstTrimmed(SplitLines(text), 0, limit, p).value)
    ensures Contains(text, FirstTrimmed(SplitLines(text), 0, limit, p).value)
    ensures Trim(FirstTrimmed(SplitLines(text), 0, limit, p).value) == FirstTrimmed(SplitLines(text), 0, limit, p).value
  {
    var lines := SplitLines(text);
    FirstTrimmedIsFirst(lines, 0, limit, p);
    var i :| 0 <= i < Min(limit, |lines|) && FirstTrimmed(lines, 0, limit, p).value == Trim(lines[i])
             && p(Trim(lines[i]));
    SplitLinesPieceOccurs(text, i);
    TrimOccurs(lines[i]);
    ContainsTransitive(text, lines[i], Trim(lines[i]));
    TrimNoop(Trim(lines[i]));
  }

  /** What `extractNameFromFirstLines` finds: the first of the first five trimmed lines that is a likely name. */
  function NameFromFirstLines(text: string): Option<string>
  {
    FirstTrimmed(SplitLines(text), 0, 5, IsLikelyName)
  }

  /** What `extractNameFromText` finds: the first trimmed line passing the permissive test. */
  function NameFromText(text: string): Option<string>
  {
    FirstTrimmed(SplitLines(text), 0, |SplitLines(text)|, IsPermissiveName)
  }

  /**
   * Only the first `min(5, #lines)` lines are looked at, and the name found is
   * the first of them that qualifies once trimmed: a likely name and a
   * substring of the text.
   */
  lemma NameFromFirstLinesIsFirst(text: string)
    ensures var lines := SplitLines(text);
      var n := Min(5, |lines|);
      && (NameFromFirstLines(text).Some? <==> exists i :: 0 <= i < n && IsLikelyName(Trim(lines[i])))
      && (NameFromFirstLines(text).Some? ==>
            exists i :: 0 <= i < n && NameFromFirstLines(text).value == Trim(lines[i])
              && forall j :: 0 <= j < i ==> !IsLikelyName(Trim(lines[j])))
      && (NameFromFirstLines(text).Some? ==>
            IsLikelyName(NameFromFirstLines(text).value) && Contains(text, NameFromFirstLines(text).value))
  {
    var lines := SplitLines(text);
    var r := NameFromFirstLines(text);
    FirstTrimmedIsFirst(lines, 0, 5, IsLikelyName);
    if r.Some? {
      FirstTrimmedLineOccurs(text, 5, IsLikelyName);
      var i :| 0 <= i < Min(5, |lines|) && r.value == Trim(lines[i]) && IsLikelyName(r.value)
               && forall j :: 0 <= j < i ==> !IsLikelyName(Trim(lines[j]));
    }
  }

  /** Every line before the one found fails the permissive test; none passes when nothing is found. */
  lemma NameFromTextIsFirst(text: string)
    ensures var lines := SplitLines(text);
      && (NameFromText(text).Some? <==> exists i :: 0 <= i < |lines| && IsPermissiveName(Trim(lines[i])))
      && (NameFromText(text).Some? ==>
            exists i :: 0 <= i < |lines| && NameFromText(text).value == Trim(lines[i])
              && forall j :: 0 <= j < i ==> !IsPermissiveName(Trim(lines[j])))
  {
    var lines := SplitLines(text);
    var r := NameFromText(text);
    FirstTrimmedIsFirst(lines, 0, |lines|, IsPermissiveName);
    if r.Some? {
      var i :| 0 <= i < |lines| && r.value == Trim(lines[i]) && IsPermissiveName(r.value)
               && forall j :: 0 <= j < i ==> !IsPermissiveName(Trim(lines[j]));
    }
  }

  /** A name accepted by the fallback is a trimmed substring of the text that passes the permissive test. */
  lemma NameFromTextShape(text: string)
    requires NameFromText(text).Some?
    ensures var n := NameFromText(text).value;
      Contains(text, n) && Trim(n) == n && IsPermissiveName(n)
  {
    FirstTrimmedLineOccurs(text, |SplitLines(text)|, IsPermissiveName);
  }

  /**
   * An accepted name has length in (2, 50), no `@`, and two to four words
   * each of at least two characters from `[a-zA-Z-]`, the first capitalised.
   */
  lemma PermissiveNameShape(n: string)
    requires IsPermissiveName(n)
    ensures var words := SplitOnSpaces(n);
      && 2 < |n| < 50 && !Contains(n, "@")
      && 2 <= |words| <= 4 && IsUpper(words[0][0])
      && forall j :: 0 <= j < |words| ==> |words[j]| >= 2 && All(words[j], IsNameChar)
  {
  }

  // ---------------------------------------------------------------------
  // `\b\d+\s+[A-Za-z\s,]+(?:Street|St|...|Blvd)\b`, case-insensitive
  // ---------------------------------------------------------------------

  const StreetTypes: seq<string> :=
    ["street", "st", "avenue", "ave", "road", "rd", "lane", "ln", "drive", "dr", "boulevard", "blvd"]

  predicate IsAddressFill(c: char) { IsLetter(c) || IsSpace(c) || c == ',' }

  /**
   * The address pattern matches `line[i..j]`: the house number is
   * `line[i..a]`, the street name (led by at least one blank) is
   * `line[a..k]` and the street type is `line[k..j]`.
   */
  predicate AddressAt(line: string, i: nat, a: nat, k: nat, j: nat)
  {
    i < a && a + 2 <= k && k <= j <= |line| &&
    (i == 0 || !IsWordChar(line[i - 1])) &&
    All(line[i..a], IsDigit) &&
    IsSpace(line[a]) && All(line[a..k], IsAddressFill) &&
    Lower(line[k..j]) in StreetTypes &&
    (j == |line| || !IsWordChar(line[j]))
  }

  /** `addressPattern.matcher(line).find()`. */
  predicate HasAddress(line: string)
  {
    exists i: nat, a: nat, k: nat, j: nat
      :: i < |line| && a < |line| && k <= |line| && j <= |line| && AddressAt(line, i, a, k, j)
  }

  /** The address the scan of `extractAddress` settles on when the address is still null. */
  function AddressFrom(text: string): Option<string>
  {
    var lines := SplitLines(text);
    var k := FirstIndex(lines, HasAddress);
    if k < |lines| then Some(Trim(lines[k])) else None
  }

  /** The address found is the trimmed first line with a match: a non-empty substring of the text. */
  lemma AddressFromShape(text: string)
    ensures var lines := SplitLines(text);
      && (AddressFrom(text).Some? <==> exists i :: 0 <= i < |lines| && HasAddress(lines[i]))
      && (AddressFrom(text).Some? ==>
            exists i :: 0 <= i < |lines| && HasAddress(lines[i]) && AddressFrom(text).value == Trim(lines[i])
              && forall j :: 0 <= j < i ==> !HasAddress(lines[j]))
      && (AddressFrom(text).Some? ==> AddressFrom(text).value != [] && Contains(text, AddressFrom(text).value))
  {
    var lines := SplitLines(text);
    var k := FirstIndex(lines, HasAddress);
    if k < |lines| {
      var line := lines[k];
      AddressLineVisible(line);
      SplitLinesPieceOccurs(text, k);
      TrimOccurs(line);
      ContainsTransitive(text, line, Trim(line));
    }
  }

  /** A line with an address holds a digit, which trimming keeps. */
  lemma AddressLineVisible(line: string)
    requires HasAddress(line)
    ensures Trim(line) != []
  {
    var i: nat, a: nat, m: nat, j: nat :| i < |line| && a < |line| && m <= |line| && j <= |line| && AddressAt(line, i, a, m, j);
    assert line[i..a][0] == line[i];
    assert !IsTrimmable(line[i]);
    TrimBlankIff(line);
  }

  // ---------------------------------------------------------------------
  // The extractor
  // ---------------------------------------------------------------------

  /** A field left as it is when already set, otherwise given what was found (possibly nothing). */
  function FillIfNull<T>(current: Option<T>, found: Option<T>): (r: Option<T>)
    ensures current.Some? ==> r == current
    ensures current.None? ==> r == found
  {
    if current.Some? then current else found
  }

  /** `extractPersonalInfoWithPatterns`: each contact field is filled from its first match, only while null. */
  method ExtractPersonalInfoWithPatterns(resume: Resume, text: string, emailFinder: Finder, phoneFinder: Finder)
    modifies resume`email, resume`phoneNumber, resume`linkedinUrl, resume`githubUrl
    ensures resume.email == FillIfNull(old(resume.email), Found(emailFinder, text))
    ensures resume.phoneNumber == FillIfNull(old(resume.phoneNumber), Found(phoneFinder, text))
    ensures resume.linkedinUrl == FillIfNull(old(resume.linkedinUrl), FoundUrl(LinkedInHost, text))
    ensures resume.githubUrl == FillIfNull(old(resume.githubUrl), FoundUrl(GitHubHost, text))
  {
    if resume.email.None? {
      var m := Found(emailFinder, text);
      if m.Some? { resume.email := m; }
    }
    if resume.phoneNumber.None? {
      var m := Found(phoneFinder, text);
      if m.Some? { resume.phoneNumber := m; }
    }
    if resume.linkedinUrl.None? {
      var m := FoundUrl(LinkedInHost, text);
      if m.Some? { resume.linkedinUrl := m; }
    }
    if resume.githubUrl.None? {
      var m := FoundUrl(GitHubHost, text);
      if m.Some? { resume.githubUrl := m; }
    }
  }

  /** `extractNameFromFirstLines`: sets the name to the first likely name among the first five trimmed lines. */
  method ExtractNameFromFirstLines(resume: Resume, text: string)
    modifies resume`fullName
    ensures resume.fullName == FillIfNull(NameFromFirstLines(text), old(resume.fullName))
  {
    var lines := SplitLines(text);
    var n := if |lines| < 5 then |lines| else 5;
    var i := 0;
    while i < n
      invariant 0 <= i <= n
      invariant FirstTrimmed(lines, i, 5, IsLikelyName) == NameFromFirstLines(text)
      invariant resume.fullName == old(resume.fullName)
    {
      var line := Trim(lines[i]);
      if IsLikelyName(line) {
        assert FirstTrimmed(lines, i, 5, IsLikelyName) == Some(line);
        resume.fullName := Some(line);
        return;
      }
      i := i + 1;
    }
  }

  /** The word-by-word check of `extractNameFromText`, leaving at the first word that fails. */
  method CheckNameWords(words: seq<string>) returns (isName: bool)
    ensures isName == WordsFormName(words)
  {
    isName := true;
    var i := 0;
    while i < |words|
      invariant 0 <= i <= |words|
      invariant forall m :: 0 <= m < i ==> IsNameWord(words[m])
      invariant i > 0 ==> IsUpper(words[0][0])
      invariant isName
    {
      var word := words[i];
      if |word| < 2 {
        isName := false;
        break;
      }
      if i == 0 && !IsUpper(word[0]) {
        isName := false;
        break;
      }
      if !All(word, IsNameChar) {
        isName := false;
        break;
      }
      i := i + 1;
    }
  }

  /** The body of the line loop of `extractNameFromText`: the line tests, then the word check. */
  method CheckNameLine(line: string) returns (isName: bool)
    ensures isName == IsPermissiveName(line)
  {
    if !(line != [] && !Contains(line, "@") && !Contains(line, "http") && !MatchesDigitRun(line)
         && 2 < |line| < 50)
    {
      return false;
    }
    var words := SplitOnSpaces(line);
    if !(2 <= |words| <= 4) {
      return false;
    }
    isName := CheckNameWords(words);
  }

  /** `extractNameFromText`: sets the name to the first trimmed line that passes the permissive test. */
  method ExtractNameFromText(resume: Resume, text: string)
    modifies resume`fullName
    ensures resume.fullName == FillIfNull(NameFromText(text), old(resume.fullName))
  {
    var lines := SplitLines(text);
    var k := 0;
    while k < |lines|
      invariant 0 <= k <= |lines|
      invariant FirstTrimmed(lines, k, |lines|, IsPermissiveName) == NameFromText(text)
      invariant resume.fullName == old(resume.fullName)
    {
      var name := NameLineAt(lines, k);
      if name.Some? {
        resume.fullName := name;
        return;
      }
      k := k + 1;
    }
  }

  /** One pass of the line loop of `extractNameFromText`: the trimmed line at `k` when it passes the test. */
  method NameLineAt(lines: seq<string>, k: nat) returns (name: Option<string>)
    requires k < |lines|
    ensures name.Some? ==> name == FirstTrimmed(lines, k, |lines|, IsPermissiveName)
    ensures name.None? ==> FirstTrimmed(lines, k, |lines|, IsPermissiveName) == FirstTrimmed(lines, k + 1, |lines|, IsPermissiveName)
  {
    var line := Trim(lines[k]);
    var isName := CheckNameLine(line);
    name := if isName then Some(line) else None;
  }

  /**
   * `extractPersonalInfo`: the contact patterns first, then the first-lines
   * name heuristic while the name is null, then the permissive fallback while
   * it is still null. A name already set is kept, and at most one of the two
   * strategies supplies a new one.
   */
  method ExtractPersonalInfo(resume: Resume, text: string, emailFinder: Finder, phoneFinder: Finder)
    modifies resume`email, resume`phoneNumber, resume`linkedinUrl, resume`githubUrl, resume`fullName
    ensures resume.email == FillIfNull(old(resume.email), Found(emailFinder, text))
    ensures resume.phoneNumber == FillIfNull(old(resume.phoneNumber), Found(phoneFinder, text))
    ensures resume.linkedinUrl == FillIfNull(old(resume.linkedinUrl), FoundUrl(LinkedInHost, text))
    ensures resume.githubUrl == FillIfNull(old(resume.githubUrl), FoundUrl(GitHubHost, text))
    ensures resume.fullName == FillIfNull(FillIfNull(old(resume.fullName), NameFromFirstLines(text)), NameFromText(text))
  {
    ExtractPersonalInfoWithPatterns(resume, text, emailFinder, phoneFinder);
    if resume.fullName.None? {
      ExtractNameFromFirstLines(resume, text);
    }
    if resume.fullName.None? {
      ExtractNameFromText(resume, text);
    }
  }

  /** `extractAddress`: the first line with a match, trimmed, but only while the address is null. */
  method ExtractAddress(resume: Resume, text: string)
    modifies resume`address
    ensures resume.address == FillIfNull(old(resume.address), AddressFrom(text))
  {
    var lines := SplitLines(text);
    var k := 0;
    while k < |lines|
      invariant 0 <= k <= |lines|
      invariant old(resume.address).None? ==> forall j :: 0 <= j < k ==> !HasAddress(lines[j])
      invariant resume.address == old(resume.address)
    {
      if HasAddress(lines[k]) && resume.address.None? {
        FirstIndexIs(lines, HasAddress, k);
        resume.address := Some(Trim(lines[k]));
        return;
      }
      k := k + 1;
    }
    if old(resume.address).None? {
      FirstIndexIs(lines, HasAddress, |lines|);
    }
  }
}
