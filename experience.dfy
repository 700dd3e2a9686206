/**
 * The experience calculator: year tokens collected from the text, the span
 * they cover, an explicit "N years experience" mention, the seniority band
 * of the total, and the title and keyword probes. The current year is a
 * parameter (the source reads the clock).
 */
module Experience {
  import opened Strings
  import opened ResumeModel

  /** `Integer.MAX_VALUE`: a larger explicit number makes `Integer.parseInt` throw. */
  const MaxInt: int := 0x7fff_ffff

  function DigitValue(c: char): nat
    requires IsDigit(c)
  {
    c as int - '0' as int
  }

  /** The value of a string of decimal digits, read without a bound. */
  function ParseDigits(s: string): nat
    requires forall i :: 0 <= i < |s| ==> IsDigit(s[i])
  {
    if s == [] then 0 else ParseDigits(s[..|s| - 1]) * 10 + DigitValue(s[|s| - 1])
  }

  /** Reading back the decimal text of a number gives the number. */
  lemma {:induction false} ParseDigitsOfNatToString(n: nat)
    ensures ParseDigits(NatToString(n)) == n
    decreases n
  {
    if n >= 10 {
      ParseDigitsOfNatToString(n / 10);
      var s := NatToString(n);
      assert s[..|s| - 1] == NatToString(n / 10);
    }
  }

  // ---------------------------------------------------------------------
  // Year tokens: `\b(19|20)\d{2}\b`
  // ---------------------------------------------------------------------

  predicate YearAt(t: string, i: nat)
  {
    i + 4 <= |t| && IsBoundary(t, i) && IsBoundary(t, i + 4) &&
    ((t[i] == '1' && t[i + 1] == '9') || (t[i] == '2' && t[i + 1] == '0')) &&
    IsDigit(t[i + 2]) && IsDigit(t[i + 3])
  }

  function YearValue(t: string, i: nat): (y: nat)
    requires YearAt(t, i)
    ensures 1900 <= y <= 2099
  {
    DigitValue(t[i]) * 1000 + DigitValue(t[i + 1]) * 100 + DigitValue(t[i + 2]) * 10 + DigitValue(t[i + 3])
  }

  predicate InYearRange(y: int, currentYear: int) { 1990 <= y <= currentYear }

  /** The in-range years of the tokens starting before position `n`, in text order, repeats kept. */
  function YearValues(t: string, currentYear: int, n: nat): seq<int>
    requires n <= |t|
  {
    if n == 0 then []
    else
      var last := if YearAt(t, n - 1) && InYearRange(YearValue(t, n - 1), currentYear) then [YearValue(t, n - 1)] else [];
      YearValues(t, currentYear, n - 1) + last
  }

  /** Every collected year lies in `[1990, currentYear]` and is read from a `\b`-delimited token. */
  lemma {:induction false} YearValuesAreTokens(t: string, currentYear: int, n: nat)
    requires n <= |t|
    ensures forall y :: y in YearValues(t, currentYear, n) ==>
      InYearRange(y, currentYear) && exists i: nat :: i < n && YearAt(t, i) && YearValue(t, i) == y
    decreases n
  {
    if n > 0 { YearValuesAreTokens(t, currentYear, n - 1); }
  }

  /** Positions holding no token add nothing. */
  lemma {:induction false} YearValuesSkip(t: string, currentYear: int, p: nat, q: nat)
    requires p <= q <= |t|
    requires forall j :: p <= j < q ==> !YearAt(t, j)
    ensures YearValues(t, currentYear, q) == YearValues(t, currentYear, p)
    decreases q - p
  {
    if p < q { YearValuesSkip(t, currentYear, p, q - 1); }
  }

  /** Two tokens never overlap: the digits right after a token's start are not a boundary. */
  lemma YearTokensDisjoint(t: string, i: nat, j: nat)
    requires YearAt(t, i) && i < j < i + 4
    ensures !YearAt(t, j)
  {
    assert IsWordAt(t, j - 1) && IsWordAt(t, j);
  }

  /** `find()` from position `p`: the first token starting at or after `p`, or `|t|` when none is left. */
  function NextYear(t: string, p: nat): (k: nat)
    requires p <= |t|
    ensures p <= k <= |t|
    ensures k < |t| ==> YearAt(t, k)
    ensures forall j :: p <= j < k ==> !YearAt(t, j)
    decreases |t| - p
  {
    if p == |t| then p else if YearAt(t, p) then p else NextYear(t, p + 1)
  }

  /** Moving past the next token adds its year, when in range, and nothing else. */
  lemma YearValuesPastToken(t: string, currentYear: int, p: nat, i: nat)
    requires p <= i < |t| && i == NextYear(t, p)
    ensures i + 4 <= |t| && YearAt(t, i)
    ensures YearValues(t, currentYear, i + 4) == YearValues(t, currentYear, p) +
      (if InYearRange(YearValue(t, i), currentYear) then [YearValue(t, i)] else [])
  {
    YearValuesSkip(t, currentYear, p, i);
    forall j | i + 1 <= j < i + 4 ensures !YearAt(t, j) { YearTokensDisjoint(t, i, j); }
    YearValuesSkip(t, currentYear, i + 1, i + 4);
  }

  /** `extractYearsWithRegex`: the set of in-range years, as a list without repeats. */
  method ExtractYearsWithRegex(text: string, currentYear: int) returns (years: seq<int>)
    ensures NoDuplicates(years)
    ensures forall y :: y in years <==> y in YearValues(text, currentYear, |text|)
  {
    years := [];
    var p := 0;
    var more := true;
    while more
      invariant p <= |text|
      invariant NoDuplicates(years)
      invariant forall y :: y in years <==> y in YearValues(text, currentYear, p)
      invariant !more ==> forall j :: p <= j < |text| ==> !YearAt(text, j)
      decreases |text| - p, more
    {
      var i := NextYear(text, p);
      if i < |text| {
        var year := YearValue(text, i);
        YearValuesPastToken(text, currentYear, p, i);
        if InYearRange(year, currentYear) && year !in years {
          years := years + [year];
        }
        p := i + 4;
      } else {
        more := false;
      }
    }
    YearValuesSkip(text, currentYear, p, |text|);
  }

  // ---------------------------------------------------------------------
  // Span of the years found
  // ---------------------------------------------------------------------

  function SeqMin(xs: seq<int>): (m: int)
    requires xs != []
    ensures m in xs && forall x :: x in xs ==> m <= x
  {
    if |xs| == 1 then xs[0]
    else
      var rest := SeqMin(xs[1..]);
      assert xs == [xs[0]] + xs[1..];
      if xs[0] <= rest then xs[0] else rest
  }

  function SeqMax(xs: seq<int>): (m: int)
    requires xs != []
    ensures m in xs && forall x :: x in xs ==> x <= m
  {
    if |xs| == 1 then xs[0]
    else
      var rest := SeqMax(xs[1..]);
      assert xs == [xs[0]] + xs[1..];
      if xs[0] >= rest then xs[0] else rest
  }

  /** `calculateYearsFromDates`. */
  function YearsFromDates(years: seq<int>, currentYear: int): int
  {
    if years == [] then 0
    else
      var earliest := SeqMin(years);
      var latest := SeqMax(years);
      if latest - earliest > 0 then latest - earliest else currentYear - earliest
  }

  /** The span depends on which years were found, not on their order or repeats. */
  lemma YearsFromDatesOfSameYears(a: seq<int>, b: seq<int>, currentYear: int)
    requires forall y :: y in a <==> y in b
    ensures YearsFromDates(a, currentYear) == YearsFromDates(b, currentYear)
  {
    if a != [] {
      assert a[0] in a;
      assert SeqMin(a) == SeqMin(b) by { assert SeqMin(a) in b && SeqMin(b) in a; }
      assert SeqMax(a) == SeqMax(b) by { assert SeqMax(a) in b && SeqMax(b) in a; }
    }
  }

  /**
   * No years give 0; several distinct years give latest minus earliest; a
   * single year gives the years since it; and none of it is negative when
   * every year is at most the current one.
   */
  lemma YearsFromDatesCases(years: seq<int>, currentYear: int)
    requires forall y :: y in years ==> y <= currentYear
    ensures years == [] ==> YearsFromDates(years, currentYear) == 0
    ensures years != [] && (exists y :: y in years && y != years[0]) ==>
      YearsFromDates(years, currentYear) == SeqMax(years) - SeqMin(years) > 0
    ensures years != [] && (forall y :: y in years ==> y == years[0]) ==>
      YearsFromDates(years, currentYear) == currentYear - years[0]
    ensures YearsFromDates(years, currentYear) >= 0
  {
    if years != [] && (exists y :: y in years && y != years[0]) {
      var y :| y in years && y != years[0];
      assert SeqMin(years) <= y && SeqMin(years) <= years[0] && SeqMax(years) >= y && SeqMax(years) >= years[0];
    }
  }

  // ---------------------------------------------------------------------
  // Explicit mention: `(\d+)\s+years?\s+(?:of\s+)?(?:experience|work)`, case-insensitive
  // ---------------------------------------------------------------------

  /**
   * Where the digits of a match starting at `i` end, if the pattern matches
   * there. Each quantifier of the pattern can only take its longest run: a
   * shorter one leaves a digit, a blank or an `s` where the next part needs
   * something else, so no backtracking is involved.
   */
  function MentionAt(t: string, i: nat): Option<nat>
    requires i <= |t|
  {
    var d := RunEnd(t, i, IsDigit);
    var s1 := RunEnd(t, d, IsSpace);
    if d == i || s1 == d || !OccursAt(t, "year", s1) then None
    else
      var y := if s1 + 4 < |t| && t[s1 + 4] == 's' then s1 + 5 else s1 + 4;
      var s2 := RunEnd(t, y, IsSpace);
      if s2 == y then None
      else
        var afterOf := if OccursAt(t, "of", s2) then RunEnd(t, s2 + 2, IsSpace) else s2;
        var r := if afterOf > s2 + 2 then afterOf else s2;
        if OccursAt(t, "experience", r) || OccursAt(t, "work", r) then Some(d) else None
  }

  lemma MentionAtDigits(t: string, i: nat)
    requires i <= |t| && MentionAt(t, i).Some?
    ensures i < MentionAt(t, i).value <= |t|
    ensures forall k :: i <= k < MentionAt(t, i).value ==> IsDigit(t[k])
    ensures var g := t[i..MentionAt(t, i).value]; forall k :: 0 <= k < |g| ==> IsDigit(g[k])
  {
    RunEndRun(t, i, IsDigit);
    var g := t[i..MentionAt(t, i).value];
    forall k | 0 <= k < |g| ensures IsDigit(g[k]) { assert g[k] == t[i + k]; }
  }

  /** The pattern tried at every start position of `t`. */
  function MentionMatcher(t: string): (at: nat -> Option<nat>)
    ensures MatcherWithin(|t|, at)
  {
    (j: nat) => if j <= |t| then MentionAt(t, j) else None
  }

  /** `Integer.parseInt` on a string of ASCII digits. */
  datatype ParsedInt = Parsed(value: int) | NumberFormatError

  function ParseInt(s: string): (r: ParsedInt)
    requires forall i :: 0 <= i < |s| ==> IsDigit(s[i])
    ensures r.Parsed? <==> ParseDigits(s) <= MaxInt
    ensures r.Parsed? ==> r.value == ParseDigits(s)
  {
    if ParseDigits(s) <= MaxInt then Parsed(ParseDigits(s)) else NumberFormatError
  }

  /** `extractExplicitExperience`: the number in the first mention, 0 without one, an error past `int`. */
  function ExplicitExperience(text: string): ParsedInt
  {
    var t := Lower(text);
    var m := Leftmost(|t|, MentionMatcher(t), 0);
    if m.None? then Parsed(0)
    else
      LeftmostIsLeftmost(|t|, MentionMatcher(t), 0);
      MentionAtDigits(t, m.value.start);
      ParseInt(t[m.value.start..m.value.end])
  }

  lemma ExplicitExperienceRange(text: string)
    ensures ExplicitExperience(text).Parsed? ==> 0 <= ExplicitExperience(text).value <= MaxInt
  {
  }

  /** A mention at the very start of the text is the one reported. */
  lemma ExplicitAtStart(text: string)
    requires MentionAt(Lower(text), 0).Some?
    ensures var t := Lower(text); var d := MentionAt(t, 0).value;
      d <= |t| && (forall k :: 0 <= k < d ==> IsDigit(t[k])) && ExplicitExperience(text) == ParseInt(t[..d])
  {
    var t := Lower(text);
    MentionAtDigits(t, 0);
    assert MentionMatcher(t)(0) == MentionAt(t, 0);
    assert t[0..MentionAt(t, 0).value] == t[..MentionAt(t, 0).value];
  }

  /** A blank followed by a character that is not `\s` is a run of one. */
  lemma SingleBlank(t: string, i: nat)
    requires i + 1 < |t| && t[i] == ' ' && !IsSpace(t[i + 1])
    ensures RunEnd(t, i, IsSpace) == i + 1
  {
    assert RunEnd(t, i + 1, IsSpace) == i + 1;
  }

  /** A piece of a phrase found in `t` is found in `t` at the matching offset. */
  lemma PhrasePiece(t: string, n: nat, w: string, a: nat, b: nat)
    requires n + |w| <= |t| && t[n..n + |w|] == w && a <= b <= |w|
    ensures t[n + a..n + b] == w[a..b]
  {
    forall k | 0 <= k < b - a ensures t[n + a..n + b][k] == w[a..b][k] {
      assert t[n..n + |w|][a + k] == t[n + a + k];
    }
  }

  /** Where the words of ` years experience` sit. */
  lemma PhraseParts()
    ensures " years experience"[1..5] == "year" && " years experience"[7..17] == "experience"
    ensures " years experience"[0] == ' ' && " years experience"[5] == 's' && " years experience"[6] == ' '
  {
  }

  /** The characters and words of ` years experience` found at `n` in `t`. */
  lemma PhraseAt(t: string, n: nat)
    requires n + 17 <= |t| && t[n..n + 17] == " years experience"
    ensures t[n] == ' ' && t[n + 1] == 'y' && t[n + 5] == 's' && t[n + 6] == ' ' && t[n + 7] == 'e'
    ensures OccursAt(t, "year", n + 1) && OccursAt(t, "experience", n + 7) && !OccursAt(t, "of", n + 7)
  {
    var w := " years experience";
    PhraseParts();
    PhrasePiece(t, n, w, 1, 5);
    PhrasePiece(t, n, w, 7, 17);
    assert t[n] == t[n..n + 17][0] && t[n + 1] == t[n..n + 17][1];
    assert t[n + 5] == t[n..n + 17][5] && t[n + 6] == t[n..n + 17][6] && t[n + 7] == t[n..n + 17][7];
  }

  /** The pattern matches at 0 in `ds years experience…` for a run of digits `ds`, its group being `ds`. */
  lemma MentionAtLeading(ds: string, t: string)
    requires ds != [] && (forall k :: 0 <= k < |ds| ==> IsDigit(ds[k]))
    requires |t| >= |ds| + 17 && t[..|ds|] == ds && t[|ds|..|ds| + 17] == " years experience"
    ensures MentionAt(t, 0) == Some(|ds|)
  {
    var n := |ds|;
    PhraseAt(t, n);
    assert forall k :: 0 <= k < n ==> t[k] == t[..n][k];
    assert RunEnd(t, n, IsDigit) == n;
    RunEndOfRun(t, 0, n, IsDigit);
    SingleBlank(t, n);
    SingleBlank(t, n + 6);
  }

  lemma LeadingMentionLowered(ds: string, rest: string)
    requires forall k :: 0 <= k < |ds| ==> IsDigit(ds[k])
    ensures var t := Lower(ds + " years experience" + rest);
      |t| >= |ds| + 17 && t[..|ds|] == ds && t[|ds|..|ds| + 17] == " years experience"
  {
    var w := " years experience";
    LowerOfNoUpper(ds + w);
    LowerConcat(ds + w, rest);
    var t := Lower(ds + w + rest);
    assert t == ds + w + Lower(rest);
  }

  /** A text that starts with a run of digits `ds` and ` years experience` reports the value of `ds`. */
  lemma ExplicitExperienceOfDigits(ds: string, rest: string)
    requires ds != [] && forall k :: 0 <= k < |ds| ==> IsDigit(ds[k])
    ensures ExplicitExperience(ds + " years experience" + rest) == ParseInt(ds)
  {
    var text := ds + " years experience" + rest;
    LeadingMentionLowered(ds, rest);
    MentionAtLeading(ds, Lower(text));
    ExplicitAtStart(text);
  }

  /** A text that leads with `n years experience` reports `n`, or throws when `n` does not fit an `int`. */
  lemma ExplicitExperienceLeading(n: nat, rest: string)
    ensures ExplicitExperience(NatToString(n) + " years experience" + rest)
      == (if n <= MaxInt then Parsed(n) else NumberFormatError)
  {
    ExplicitExperienceOfDigits(NatToString(n), rest);
    ParseDigitsOfNatToString(n);
  }

  lemma {:induction false} RunEndOfRun(t: string, i: nat, j: nat, p: char -> bool)
    requires i <= j <= |t| && (forall k :: i <= k < j ==> p(t[k])) && RunEnd(t, j, p) == j
    ensures RunEnd(t, i, p) == j
    decreases j - i
  {
    if i < j { RunEndOfRun(t, i + 1, j, p); }
  }

  // ---------------------------------------------------------------------
  // Seniority and the total
  // ---------------------------------------------------------------------

  datatype Seniority = EntryLevel | Junior | MidLevel | Senior | ExpertLead
  {
    function Label(): string
    {
      match this
      case EntryLevel => "Entry Level"
      case Junior => "Junior"
      case MidLevel => "Mid-Level"
      case Senior => "Senior"
      case ExpertLead => "Expert/Lead"
    }

    function Rank(): nat
    {
      match this
      case EntryLevel => 0
      case Junior => 1
      case MidLevel => 2
      case Senior => 3
      case ExpertLead => 4
    }
  }

  /** The band of `setSeniorityLevel`: below 1, 3, 6 and 10 years. */
  function SeniorityOf(years: int): Seniority
  {
    if years < 1 then EntryLevel
    else if years < 3 then Junior
    else if years < 6 then MidLevel
    else if years < 10 then Senior
    else ExpertLead
  }

  /** More years never give a lower band. */
  lemma SeniorityMonotone(y1: int, y2: int)
    requires y1 <= y2
    ensures SeniorityOf(y1).Rank() <= SeniorityOf(y2).Rank()
  {
  }

  /** Each band covers exactly its interval of years, and the labels are distinct. */
  lemma SeniorityBands(years: int)
    ensures SeniorityOf(years) == EntryLevel <==> years < 1
    ensures SeniorityOf(years) == Junior <==> 1 <= years < 3
    ensures SeniorityOf(years) == MidLevel <==> 3 <= years < 6
    ensures SeniorityOf(years) == Senior <==> 6 <= years < 10
    ensures SeniorityOf(years) == ExpertLead <==> 10 <= years
  {
  }

  lemma SeniorityLabelsDistinct(a: Seniority, b: Seniority)
    ensures a.Label() == b.Label() <==> a == b
  {
  }

  /** `setSeniorityLevel`. */
  method SetSeniorityLevel(resume: Resume, experienceYears: int)
    modifies resume`seniority
    ensures resume.seniority == Some(SeniorityOf(experienceYears).Label())
  {
    if experienceYears < 1 {
      resume.seniority := Some("Entry Level");
    } else if experienceYears < 3 {
      resume.seniority := Some("Junior");
    } else if experienceYears < 6 {
      resume.seniority := Some("Mid-Level");
    } else if experienceYears < 10 {
      resume.seniority := Some("Senior");
    } else {
      resume.seniority := Some("Expert/Lead");
    }
  }

  /** The total `calculateExperience` stores: the larger of span and mention, or 0 when the mention overflows. */
  function ExperienceYears(text: string, currentYear: int): int
  {
    match ExplicitExperience(text)
    case NumberFormatError => 0
    case Parsed(n) =>
      var span := YearsFromDates(YearValues(text, currentYear, |text|), currentYear);
      if span >= n then span else n
  }

  /** The total is never negative, and it covers both the span of the years and the explicit mention. */
  lemma ExperienceYearsBounds(text: string, currentYear: int)
    ensures ExperienceYears(text, currentYear) >= 0
    ensures ExplicitExperience(text).Parsed? ==>
      ExperienceYears(text, currentYear) >= ExplicitExperience(text).value &&
      ExperienceYears(text, currentYear) >= YearsFromDates(YearValues(text, currentYear, |text|), currentYear)
  {
    var ys := YearValues(text, currentYear, |text|);
    YearValuesAreTokens(text, currentYear, |text|);
    YearsFromDatesCases(ys, currentYear);
  }

  /** The fallback of the exception handler is what zero years would give. */
  lemma OverflowIsEntryLevel(text: string, currentYear: int)
    requires ExplicitExperience(text).NumberFormatError?
    ensures ExperienceYears(text, currentYear) == 0
    ensures SeniorityOf(ExperienceYears(text, currentYear)).Label() == "Entry Level"
  {
  }

  /** `calculateExperience`. */
  method CalculateExperience(resume: Resume, text: string, currentYear: int)
    modifies resume`totalExperienceYears, resume`seniority
    ensures resume.totalExperienceYears == Some(ExperienceYears(text, currentYear))
    ensures resume.seniority == Some(SeniorityOf(ExperienceYears(text, currentYear)).Label())
  {
    var years := ExtractYearsWithRegex(text, currentYear);
    var experienceYears := YearsFromDates(years, currentYear);
    YearsFromDatesOfSameYears(years, YearValues(text, currentYear, |text|), currentYear);
    var explicit := ExplicitExperience(text);
    if explicit.NumberFormatError? {
      resume.totalExperienceYears := Some(0);
      resume.seniority := Some("Entry Level");
    } else {
      if explicit.value > experienceYears {
        experienceYears := explicit.value;
      }
      resume.totalExperienceYears := Some(experienceYears);
      SetSeniorityLevel(resume, experienceYears);
    }
  }

  // ---------------------------------------------------------------------
  // Titles and keyword probes
  // ---------------------------------------------------------------------

  const JobTitles: seq<string> := ["Developer", "Engineer", "Manager", "Analyst", "Consultant", "Architect",
    "Designer", "Specialist", "Lead", "Senior", "Junior", "Associate", "Director", "VP", "CTO", "CEO",
    "Product Manager", "Project Manager"]

  /** `extractJobTitles`. */
  method ExtractJobTitles(text: string) returns (found: seq<string>)
    ensures found == ContainedPhrases(Lower(text), JobTitles)
  {
    var lowerText := Lower(text);
    found := CollectContained(lowerText, JobTitles);
  }

  const RemotePhrases: seq<string> := ["remote", "work from home", "telecommute", "distributed team"]
  const LeadershipPhrases: seq<string> := ["lead", "manage", "supervise", "mentor", "team lead", "project manager"]
  const ExperienceKeywords: seq<string> := ["experience", "work", "employment", "career", "professional", "job",
    "position", "role", "worked", "employed", "served", "years"]

  predicate HasRemoteExperience(text: string) { ContainsAny(Lower(text), RemotePhrases) }
  predicate HasLeadershipExperience(text: string) { ContainsAny(Lower(text), LeadershipPhrases) }
  predicate HasExperienceSection(text: string) { ContainsAny(Lower(text), ExperienceKeywords) }

  /** A text containing another (ignoring case) mentions every phrase the other mentions. */
  lemma ProbesGrow(small: string, big: string)
    requires Contains(Lower(big), Lower(small))
    ensures HasRemoteExperience(small) ==> HasRemoteExperience(big)
    ensures HasLeadershipExperience(small) ==> HasLeadershipExperience(big)
    ensures HasExperienceSection(small) ==> HasExperienceSection(big)
  {
    if HasRemoteExperience(small) { ContainsAnyGrows(Lower(small), Lower(big), RemotePhrases); }
    if HasLeadershipExperience(small) { ContainsAnyGrows(Lower(small), Lower(big), LeadershipPhrases); }
    if HasExperienceSection(small) { ContainsAnyGrows(Lower(small), Lower(big), ExperienceKeywords); }
  }

  /** "team lead" and "project manager" add nothing: they contain "lead" and "manage". */
  lemma LeadershipIsLeadOrManage(text: string)
    ensures HasLeadershipExperience(text) <==>
      Contains(Lower(text), "lead") || Contains(Lower(text), "manage") ||
      Contains(Lower(text), "supervise") || Contains(Lower(text), "mentor")
  {
    var t := Lower(text);
    if Contains(t, "team lead") {
      assert OccursAt("team lead", "lead", 5);
      ContainsTransitive(t, "team lead", "lead");
    }
    if Contains(t, "project manager") {
      assert OccursAt("project manager", "manage", 8);
      ContainsTransitive(t, "project manager", "manage");
    }
    if Contains(t, "lead") { assert Contains(t, LeadershipPhrases[0]); }
    if Contains(t, "manage") { assert Contains(t, LeadershipPhrases[1]); }
    if Contains(t, "supervise") { assert Contains(t, LeadershipPhrases[2]); }
    if Contains(t, "mentor") { assert Contains(t, LeadershipPhrases[3]); }
  }

  /** "work from home" is a remote phrase and, through "work", an experience keyword too. */
  lemma RemoteWorkIsExperienceSection(text: string)
    requires Contains(Lower(text), "work from home")
    ensures HasExperienceSection(text) && HasRemoteExperience(text)
  {
    assert OccursAt("work from home", "work", 0);
    ContainsTransitive(Lower(text), "work from home", "work");
    assert Contains(Lower(text), ExperienceKeywords[1]);
    assert Contains(Lower(text), RemotePhrases[1]);
  }

  lemma ProductManagerTitles()
    ensures "Manager" in JobTitles && "Product Manager" in JobTitles
  {
    assert JobTitles[2] == "Manager" && JobTitles[16] == "Product Manager";
  }

  lemma ProductManagerContainsManager()
    ensures Contains(Lower("Product Manager"), Lower("Manager"))
  {
    assert OccursAt("Product Manager", "Manager", 8);
    ContainsLower("Product Manager", "Manager");
  }

  /** Titles are matched as substrings, so "Product Manager" in a text also lists "Manager". */
  lemma ProductManagerAlsoManager(text: string)
    requires Contains(Lower(text), Lower("Product Manager"))
    ensures "Manager" in ContainedPhrases(Lower(text), JobTitles) && "Product Manager" in ContainedPhrases(Lower(text), JobTitles)
  {
    ProductManagerTitles();
    ProductManagerContainsManager();
    ContainedBringsInner(Lower(text), JobTitles, "Product Manager", "Manager");
  }
}
