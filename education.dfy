/**
 * The education extractor: the line scan with its "in education section"
 * flag, the highest degree named, fields of study, certification lines,
 * the education score and the filter applied to captured institution names.
 */
module Education {
  import opened Strings
  import opened ResumeModel

  const EducationKeywords: seq<string> := ["education", "degree", "university", "college", "bachelor", "master",
    "phd", "doctorate", "graduated", "certification", "course", "diploma", "institute", "school", "academic", "studied"]

  const DegreeTypes: seq<string> := ["Bachelor", "Master", "PhD", "Doctorate", "Associate", "Certificate",
    "B.S.", "B.A.", "M.S.", "M.A.", "MBA", "B.E.", "B.Tech", "M.Tech"]

  const StudyFields: seq<string> := ["Computer Science", "Engineering", "Business", "Mathematics", "Physics",
    "Chemistry", "Biology", "Economics", "Finance", "Marketing", "Psychology", "Information Technology",
    "Software Engineering", "Data Science"]

  // ---------------------------------------------------------------------
  // `extractEducation`
  // ---------------------------------------------------------------------

  /** The words that close the education section. */
  const SectionEnders: seq<string> := ["experience", "work", "skills", "projects"]

  /**
   * The three word lists the line scan consults. The scan is stated over
   * any lists; `EducationRules` holds the ones the extractor uses.
   */
  datatype ScanRules = ScanRules(keywords: seq<string>, degrees: seq<string>, enders: seq<string>)

  const EducationRules := ScanRules(EducationKeywords, DegreeTypes, SectionEnders)

  /** `containsEducationKeywords` on the lower-cased line. */
  predicate Opens(r: ScanRules, line: string) { ContainsAny(Lower(line), r.keywords) }

  /** A section-ending word occurs in the lower-cased line. */
  predicate Closes(r: ScanRules, line: string) { ContainsAny(Lower(line), r.enders) }

  /** `containsDegreePattern`: some degree name occurs in the line, ignoring case. */
  predicate NamesDegree(r: ScanRules, line: string)
  {
    exists k :: 0 <= k < |r.degrees| && Contains(Lower(line), Lower(r.degrees[k]))
  }

  /** The flag after a line: set by a keyword, then cleared by a section-ending word. */
  function NextFlag(r: ScanRules, flag: bool, line: string): bool
  {
    if Closes(r, line) then false else flag || Opens(r, line)
  }

  /** `inEducationSection` as it stands before line `k` is read. */
  function SectionFlag(r: ScanRules, lines: seq<string>, k: nat): bool
    requires k <= |lines|
  {
    if k == 0 then false else NextFlag(r, SectionFlag(r, lines, k - 1), lines[k - 1])
  }

  /** The capture test, given the flag as it stood before the line. */
  predicate IsCaptured(r: ScanRules, line: string, flagBefore: bool)
  {
    (flagBefore || Opens(r, line) || NamesDegree(r, line)) && !IsBlank(line) && |line| > 5
  }

  /** The trimmed lines captured among the first `n`. */
  function EducationLines(r: ScanRules, lines: seq<string>, n: nat): seq<string>
    requires n <= |lines|
  {
    if n == 0 then [] else EducationLines(r, lines, n - 1) + CapturedAt(r, lines, n - 1)
  }

  /** What line `k` adds to the list: itself, trimmed, when it passes the capture test. */
  function CapturedAt(r: ScanRules, lines: seq<string>, k: nat): seq<string>
    requires k < |lines|
  {
    if IsCaptured(r, lines[k], SectionFlag(r, lines, k)) then [Trim(lines[k])] else []
  }

  /** No line in `lines[j..k]` closes the section. */
  predicate OpenThrough(r: ScanRules, lines: seq<string>, j: nat, k: nat)
    requires j <= k <= |lines|
  {
    forall m :: j <= m < k ==> !Closes(r, lines[m])
  }

  /** Line `j` opened the section and nothing closed it before line `k`. */
  predicate OpenedAt(r: ScanRules, lines: seq<string>, j: nat, k: nat)
    requires k <= |lines|
  {
    j < k && Opens(r, lines[j]) && OpenThrough(r, lines, j, k)
  }

  /**
   * The flag is on before line `k` exactly when some earlier line had an
   * education keyword and no line from it up to `k` had a section-ending word.
   */
  lemma {:induction false} SectionFlagMeaning(r: ScanRules, lines: seq<string>, k: nat)
    requires k <= |lines|
    ensures SectionFlag(r, lines, k) <==> exists j: nat :: OpenedAt(r, lines, j, k)
    decreases k
  {
    if k > 0 {
      SectionFlagMeaning(r, lines, k - 1);
      var line := lines[k - 1];
      if SectionFlag(r, lines, k) {
        if Opens(r, line) {
          assert OpenedAt(r, lines, k - 1, k);
        } else {
          var j: nat :| OpenedAt(r, lines, j, k - 1);
          assert OpenedAt(r, lines, j, k);
        }
      }
      if exists j: nat :: OpenedAt(r, lines, j, k) {
        var j: nat :| OpenedAt(r, lines, j, k);
        assert !Closes(r, line);
        if j < k - 1 {
          assert OpenedAt(r, lines, j, k - 1);
        }
      }
    }
  }

  /**
   * A line with a keyword is captured even when it also ends the section
   * (the flag is cleared only after the test), and the line after it then
   * starts outside the section.
   */
  lemma EndingLineStillCaptured(r: ScanRules, lines: seq<string>, k: nat)
    requires k < |lines| && Opens(r, lines[k]) && Closes(r, lines[k])
    requires !IsBlank(lines[k]) && |lines[k]| > 5
    ensures IsCaptured(r, lines[k], SectionFlag(r, lines, k))
    ensures !SectionFlag(r, lines, k + 1)
  {
  }

  /** Every captured entry is a line, trimmed, that passed the capture test. */
  lemma {:induction false} EducationLinesShape(r: ScanRules, lines: seq<string>, n: nat)
    requires n <= |lines|
    ensures forall e :: e in EducationLines(r, lines, n) ==>
      exists k :: 0 <= k < n && e == Trim(lines[k]) && e != [] && IsCaptured(r, lines[k], SectionFlag(r, lines, k))
    decreases n
  {
    if n > 0 {
      EducationLinesShape(r, lines, n - 1);
      var prev := EducationLines(r, lines, n - 1);
      forall e | e in EducationLines(r, lines, n)
        ensures exists k :: 0 <= k < n && e == Trim(lines[k]) && e != [] && IsCaptured(r, lines[k], SectionFlag(r, lines, k))
      {
        if e !in prev {
          assert e == Trim(lines[n - 1]) && IsCaptured(r, lines[n - 1], SectionFlag(r, lines, n - 1));
        }
      }
    }
  }

  /** Conversely, every line among the first `n` that passes the capture test is captured, trimmed. */
  lemma EducationLinesComplete(r: ScanRules, lines: seq<string>, n: nat, k: nat)
    requires k < n <= |lines|
    requires IsCaptured(r, lines[k], SectionFlag(r, lines, k))
    ensures Trim(lines[k]) in EducationLines(r, lines, n)
  {
    var e := Trim(lines[k]);
    CapturedLineAppended(r, lines, k);
    var i := k + 1;
    while i < n
      invariant k < i <= n && e in EducationLines(r, lines, i)
    {
      EducationLinesKeep(r, lines, i + 1, e);
      i := i + 1;
    }
  }

  /** A line that passes the capture test is appended, trimmed, to the list. */
  lemma CapturedLineAppended(r: ScanRules, lines: seq<string>, k: nat)
    requires k < |lines|
    requires IsCaptured(r, lines[k], SectionFlag(r, lines, k))
    ensures Trim(lines[k]) in EducationLines(r, lines, k + 1)
  {
    assert EducationLines(r, lines, k + 1) == EducationLines(r, lines, k) + [Trim(lines[k])];
  }

  /** An entry stays in the list when one more line is scanned. */
  lemma EducationLinesKeep(r: ScanRules, lines: seq<string>, n: nat, e: string)
    requires 0 < n <= |lines| && e in EducationLines(r, lines, n - 1)
    ensures e in EducationLines(r, lines, n)
  {
    assert EducationLines(r, lines, n) == EducationLines(r, lines, n - 1) + CapturedAt(r, lines, n - 1);
  }

  /** One pass of the loop of `extractEducation`: the flag and the list after line `i`. */
  method ScanLine(r: ScanRules, lines: seq<string>, i: nat, flag: bool, info: seq<string>)
    returns (flag': bool, info': seq<string>)
    requires i < |lines| && flag == SectionFlag(r, lines, i) && info == EducationLines(r, lines, i)
    ensures flag' == SectionFlag(r, lines, i + 1) && info' == EducationLines(r, lines, i + 1)
  {
    var line := lines[i];
    flag', info' := flag, info;
    if Opens(r, line) {
      flag' := true;
    }
    if flag' || Opens(r, line) || NamesDegree(r, line) {
      if !IsBlank(line) && |line| > 5 {
        info' := info' + [Trim(line)];
      }
    }
    if Closes(r, line) {
      flag' := false;
    }
  }

  /** The loop of `extractEducation`, over any word lists. */
  method ScanLines(r: ScanRules, lines: seq<string>) returns (educationInfo: seq<string>)
    ensures educationInfo == EducationLines(r, lines, |lines|)
  {
    educationInfo := [];
    var inEducationSection := false;
    for i := 0 to |lines|
      invariant inEducationSection == SectionFlag(r, lines, i)
      invariant educationInfo == EducationLines(r, lines, i)
    {
      inEducationSection, educationInfo := ScanLine(r, lines, i, inEducationSection, educationInfo);
    }
  }

  /**
   * `extractEducation`. The list it builds is only logged, so it is returned
   * here; the method has no `modifies` clause and cannot change the résumé.
   */
  method ExtractEducation(resume: Resume, text: string) returns (educationInfo: seq<string>)
    ensures educationInfo == EducationLines(EducationRules, SplitLines(text), |SplitLines(text)|)
  {
    educationInfo := ScanLines(EducationRules, SplitLines(text));
  }

  // ---------------------------------------------------------------------
  // `extractHighestDegree` and `calculateEducationScore`
  // ---------------------------------------------------------------------

  datatype Degree = PhdDoctorate | Masters | Bachelors | AssociateDiploma | NotSpecified
  {
    function Label(): string
    {
      match this
      case PhdDoctorate => "PhD/Doctorate"
      case Masters => "Master's"
      case Bachelors => "Bachelor's"
      case AssociateDiploma => "Associate/Diploma"
      case NotSpecified => "Not Specified"
    }

    function Rank(): nat
    {
      match this
      case PhdDoctorate => 4
      case Masters => 3
      case Bachelors => 2
      case AssociateDiploma => 1
      case NotSpecified => 0
    }

    /** The score `calculateEducationScore` gives the degree, in tenths. */
    function BaseTenths(): nat
    {
      match this
      case PhdDoctorate => 10
      case Masters => 8
      case Bachelors => 6
      case AssociateDiploma => 4
      case NotSpecified => 2
    }
  }

  /** The words that name each level. */
  function LevelWords(d: Degree): seq<string>
  {
    match d
    case PhdDoctorate => ["phd", "doctorate"]
    case Masters => ["master", "m.s.", "m.a.", "mba", "m.tech"]
    case Bachelors => ["bachelor", "b.s.", "b.a.", "b.e.", "b.tech"]
    case AssociateDiploma => ["associate", "diploma"]
    case NotSpecified => []
  }

  predicate NamesLevel(text: string, d: Degree) { ContainsAny(Lower(text), LevelWords(d)) }

  /** `extractHighestDegree`: the levels are tried from the highest down. */
  function HighestDegree(text: string): Degree
  {
    if NamesLevel(text, PhdDoctorate) then PhdDoctorate
    else if NamesLevel(text, Masters) then Masters
    else if NamesLevel(text, Bachelors) then Bachelors
    else if NamesLevel(text, AssociateDiploma) then AssociateDiploma
    else NotSpecified
  }

  /** The degree reported is named in the text and no level named in the text is higher. */
  lemma HighestDegreeIsHighest(text: string, d: Degree)
    ensures HighestDegree(text) != NotSpecified ==> NamesLevel(text, HighestDegree(text))
    ensures NamesLevel(text, d) ==> d.Rank() <= HighestDegree(text).Rank()
    ensures HighestDegree(text) == NotSpecified <==>
      !NamesLevel(text, PhdDoctorate) && !NamesLevel(text, Masters) && !NamesLevel(text, Bachelors) && !NamesLevel(text, AssociateDiploma)
  {
  }

  /** The five labels are distinct, so the score's `switch` on the label sees the level. */
  lemma DegreeLabelsDistinct(a: Degree, b: Degree)
    ensures a.Label() == b.Label() <==> a == b
  {
  }

  const CertificationKeywords: seq<string> := ["certified", "certification", "certificate", "aws certified",
    "microsoft certified", "google certified", "oracle certified", "cisco certified", "comptia", "pmp", "cissp", "cisa"]

  /** The first line from `i` on that contains `keyword` once lower-cased, or `|lines|`. */
  function FirstIndexWith(lines: seq<string>, keyword: string, i: nat): (k: nat)
    requires i <= |lines|
    ensures i <= k <= |lines| && (k < |lines| ==> Contains(Lower(lines[k]), keyword))
    ensures forall j :: i <= j < k ==> !Contains(Lower(lines[j]), keyword)
    decreases |lines| - i
  {
    if i == |lines| || Contains(Lower(lines[i]), keyword) then i else FirstIndexWith(lines, keyword, i + 1)
  }

  /** The first line that contains `keyword` once lower-cased, trimmed. */
  function FirstLineWith(lines: seq<string>, keyword: string): Option<string>
  {
    var k := FirstIndexWith(lines, keyword, 0);
    if k < |lines| then Some(Trim(lines[k])) else None
  }

  lemma FirstLineWithIsFirst(lines: seq<string>, keyword: string)
    ensures FirstLineWith(lines, keyword).None? <==> forall j :: 0 <= j < |lines| ==> !Contains(Lower(lines[j]), keyword)
    ensures FirstLineWith(lines, keyword).Some? ==>
      exists j :: 0 <= j < |lines| && Contains(Lower(lines[j]), keyword) && FirstLineWith(lines, keyword).value == Trim(lines[j]) &&
        forall i :: 0 <= i < j ==> !Contains(Lower(lines[i]), keyword)
  {
    var k := FirstIndexWith(lines, keyword, 0);
    if k < |lines| {
      assert Contains(Lower(lines[k]), keyword);
    }
  }

  /** The search stops at the first line holding the keyword. */
  lemma FirstIndexAt(lines: seq<string>, keyword: string, j: nat)
    requires j <= |lines| && (j < |lines| ==> Contains(Lower(lines[j]), keyword))
    requires forall i :: 0 <= i < j ==> !Contains(Lower(lines[i]), keyword)
    ensures FirstIndexWith(lines, keyword, 0) == j
  {
  }

  /** The inner loop of `extractCertifications`: the first line holding the keyword, trimmed; `break` ends the search. */
  method FindFirstLine(lines: seq<string>, keyword: string) returns (found: Option<string>)
    ensures found == FirstLineWith(lines, keyword)
  {
    var j := 0;
    while j < |lines|
      invariant j <= |lines|
      invariant forall i :: 0 <= i < j ==> !Contains(Lower(lines[i]), keyword)
    {
      if Contains(Lower(lines[j]), keyword) {
        FirstIndexAt(lines, keyword, j);
        return Some(Trim(lines[j]));
      }
      j := j + 1;
    }
    FirstIndexAt(lines, keyword, j);
    return None;
  }

  /** The entry for one keyword: its first line, when the text contains the keyword at all. */
  function CertificationFor(text: string, keyword: string): Option<string>
  {
    if Contains(Lower(text), keyword) then FirstLineWith(SplitLines(text), keyword) else None
  }

  /** The entries for `keywords`, keyword by keyword. */
  function CertificationsOf(text: string, keywords: seq<string>): seq<string>
  {
    if keywords == [] then []
    else
      var last := CertificationFor(text, keywords[|keywords| - 1]);
      CertificationsOf(text, keywords[..|keywords| - 1]) + (if last.Some? then [last.value] else [])
  }

  /** At most one entry per keyword, each the trimmed first line holding one of the keywords. */
  lemma {:induction false} CertificationsShape(text: string, keywords: seq<string>)
    ensures |CertificationsOf(text, keywords)| <= |keywords|
    ensures forall e :: e in CertificationsOf(text, keywords) ==>
      exists k :: 0 <= k < |keywords| && CertificationFor(text, keywords[k]) == Some(e)
    decreases |keywords|
  {
    if keywords != [] { CertificationsShape(text, keywords[..|keywords| - 1]); }
  }

  /**
   * The same line can be listed twice: when the first line containing one
   * keyword (say "certified") is also the first containing a later one
   * ("aws certified"), both keywords report it.
   */
  lemma CertificationsRepeat(text: string, keywords: seq<string>, k1: nat, k2: nat)
    requires k1 < k2 < |keywords|
    requires CertificationFor(text, keywords[k1]).Some?
    requires CertificationFor(text, keywords[k1]) == CertificationFor(text, keywords[k2])
    ensures !NoDuplicates(CertificationsOf(text, keywords))
  {
    var i := CertificationIndex(text, keywords, k1);
    var j := CertificationIndex(text, keywords, k2);
    CertificationIndexOrder(text, keywords, k1, k2);
    assert CertificationsOf(text, keywords)[i] == CertificationsOf(text, keywords)[j];
  }

  /** Where the entry of keyword `k` sits in the list; entries of later keywords sit later. */
  lemma {:induction false} CertificationIndex(text: string, keywords: seq<string>, k: nat) returns (i: nat)
    requires k < |keywords| && CertificationFor(text, keywords[k]).Some?
    ensures i < |CertificationsOf(text, keywords)| && CertificationsOf(text, keywords)[i] == CertificationFor(text, keywords[k]).value
    ensures i == |CertificationsOf(text, keywords[..k])|
    decreases |keywords|
  {
    var init := keywords[..|keywords| - 1];
    if k == |keywords| - 1 {
      i := |CertificationsOf(text, init)|;
      assert keywords[..k] == init;
    } else {
      i := CertificationIndex(text, init, k);
      assert init[..k] == keywords[..k];
    }
  }

  /** A keyword line found after an earlier keyword's line was: the two list positions differ. */
  lemma CertificationIndexOrder(text: string, keywords: seq<string>, k1: nat, k2: nat)
    requires k1 < k2 < |keywords|
    requires CertificationFor(text, keywords[k1]).Some?
    ensures |CertificationsOf(text, keywords[..k1])| < |CertificationsOf(text, keywords[..k2])|
  {
    CertificationsPrefixGrow(text, keywords, k1 + 1, k2);
    assert keywords[..k1 + 1][..k1] == keywords[..k1];
  }

  lemma {:induction false} CertificationsPrefixGrow(text: string, keywords: seq<string>, a: nat, b: nat)
    requires a <= b <= |keywords|
    ensures |CertificationsOf(text, keywords[..a])| <= |CertificationsOf(text, keywords[..b])|
    decreases b - a
  {
    if a < b {
      CertificationsPrefixGrow(text, keywords, a, b - 1);
      assert keywords[..b][..b - 1] == keywords[..b - 1];
    }
  }

  /** The loop of `extractCertifications`, over any keyword list; the inner loop stops at the first line found. */
  method CollectCertifications(text: string, keywords: seq<string>) returns (certifications: seq<string>)
    ensures certifications == CertificationsOf(text, keywords)
  {
    certifications := [];
    var lowerText := Lower(text);
    for k := 0 to |keywords|
      invariant certifications == CertificationsOf(text, keywords[..k])
    {
      var keyword := keywords[k];
      if Contains(lowerText, keyword) {
        var found := FindFirstLine(SplitLines(text), keyword);
        if found.Some? {
          certifications := certifications + [found.value];
        }
      }
      assert keywords[..k + 1][..k] == keywords[..k];
    }
    assert keywords[..|keywords|] == keywords;
  }

  /** `extractCertifications`. */
  method ExtractCertifications(text: string) returns (certifications: seq<string>)
    ensures certifications == CertificationsOf(text, CertificationKeywords)
    ensures |certifications| <= 12
  {
    certifications := CollectCertifications(text, CertificationKeywords);
    CertificationsShape(text, CertificationKeywords);
  }

  /** `calculateEducationScore`, in tenths: the degree's base plus a tenth per certification entry, capped at 1. */
  function EducationScoreTenths(text: string): nat
  {
    Min(10, HighestDegree(text).BaseTenths() + |CertificationsOf(text, CertificationKeywords)|)
  }

  /** The score lies between 0.2 and 1.0; with no certification entry it is the degree's base score. */
  lemma EducationScoreRange(text: string)
    ensures 2 <= EducationScoreTenths(text) <= 10
    ensures CertificationsOf(text, CertificationKeywords) == [] ==> EducationScoreTenths(text) == HighestDegree(text).BaseTenths()
  {
  }

  /** A higher degree never scores lower, for the same certification entries. */
  lemma {:induction false} BaseTenthsFollowsRank(a: Degree, b: Degree)
    ensures a.Rank() <= b.Rank() <==> a.BaseTenths() <= b.BaseTenths()
  {
    assert a.BaseTenths() == 2 * a.Rank() + 2 by { match a { case _ => } }
    assert b.BaseTenths() == 2 * b.Rank() + 2 by { match b { case _ => } }
  }

  /** A doctorate alone already reaches the cap. */
  lemma DoctorateScoresFull(text: string)
    requires HighestDegree(text) == PhdDoctorate
    ensures EducationScoreTenths(text) == 10
  {
  }

  // ---------------------------------------------------------------------
  // `extractFieldsOfStudy`
  // ---------------------------------------------------------------------

  /** `extractFieldsOfStudy`: the fields named in the text, in list order. */
  method ExtractFieldsOfStudy(text: string) returns (foundFields: seq<string>)
    ensures foundFields == ContainedPhrases(Lower(text), StudyFields)
  {
    foundFields := CollectContained(Lower(text), StudyFields);
  }

  lemma SoftwareEngineeringFields()
    ensures "Engineering" in StudyFields && "Software Engineering" in StudyFields
  {
    assert StudyFields[1] == "Engineering" && StudyFields[12] == "Software Engineering";
  }

  lemma SoftwareEngineeringContainsEngineering()
    ensures Contains(Lower("Software Engineering"), Lower("Engineering"))
  {
    assert OccursAt("Software Engineering", "Engineering", 9);
    ContainsLower("Software Engineering", "Engineering");
  }

  /** Fields are matched as substrings, so "Software Engineering" in a text also lists "Engineering". */
  lemma SoftwareEngineeringAlsoEngineering(text: string)
    requires Contains(Lower(text), Lower("Software Engineering"))
    ensures "Engineering" in ContainedPhrases(Lower(text), StudyFields)
    ensures "Software Engineering" in ContainedPhrases(Lower(text), StudyFields)
  {
    SoftwareEngineeringFields();
    SoftwareEngineeringContainsEngineering();
    ContainedBringsInner(Lower(text), StudyFields, "Software Engineering", "Engineering");
  }

  // ---------------------------------------------------------------------
  // `extractInstitutions`: the filter applied to each match
  // ---------------------------------------------------------------------

  /** The two capture groups of one institution match; either may be absent. */
  datatype InstitutionMatch = InstitutionMatch(group1: Option<string>, group2: Option<string>)

  /** The name a match yields: group 1 when present, else group 2, trimmed and kept only above two characters. */
  function InstitutionName(m: InstitutionMatch): Option<string>
  {
    var g := if m.group1.Some? then m.group1 else m.group2;
    if g.Some? && |Trim(g.value)| > 2 then Some(Trim(g.value)) else None
  }

  /** The names kept from the matches, in match order. */
  function Institutions(matches: seq<InstitutionMatch>): seq<string>
  {
    if matches == [] then []
    else
      var last := InstitutionName(matches[|matches| - 1]);
      Institutions(matches[..|matches| - 1]) + (if last.Some? then [last.value] else [])
  }

  /**
   * What the filter keeps: a name of more than two characters that neither
   * starts nor ends with a character `trim()` strips (so, by `TrimNoop`, its
   * own trim).
   */
  predicate IsKeptName(e: string) { |e| > 2 && !IsTrimmable(e[0]) && !IsTrimmable(e[|e| - 1]) }

  lemma InstitutionNameShape(m: InstitutionMatch)
    ensures InstitutionName(m).Some? ==> IsKeptName(InstitutionName(m).value)
  {
  }

  /** Every kept name passed the filter, and at most one name comes from each match. */
  lemma {:induction false} InstitutionsKept(matches: seq<InstitutionMatch>)
    ensures |Institutions(matches)| <= |matches|
    ensures forall i :: 0 <= i < |Institutions(matches)| ==> IsKeptName(Institutions(matches)[i])
    decreases |matches|
  {
    if matches != [] {
      var init := matches[..|matches| - 1];
      var prev := Institutions(init);
      var last := InstitutionName(matches[|matches| - 1]);
      InstitutionsKept(init);
      InstitutionNameShape(matches[|matches| - 1]);
      if last.Some? {
        assert Institutions(matches) == prev + [last.value];
        forall i | 0 <= i < |prev| + 1 ensures IsKeptName((prev + [last.value])[i]) {
          if i < |prev| { assert (prev + [last.value])[i] == prev[i]; }
        }
      }
    }
  }

  /** Every kept name is the name of one of the matches. */
  lemma {:induction false} InstitutionsFromMatches(matches: seq<InstitutionMatch>)
    ensures forall e :: e in Institutions(matches) ==> exists k :: 0 <= k < |matches| && InstitutionName(matches[k]) == Some(e)
    decreases |matches|
  {
    if matches != [] {
      var init := matches[..|matches| - 1];
      InstitutionsFromMatches(init);
      forall e | e in Institutions(init) ensures exists k :: 0 <= k < |matches| && InstitutionName(matches[k]) == Some(e) {
        var k :| 0 <= k < |init| && InstitutionName(init[k]) == Some(e);
        assert matches[k] == init[k];
      }
    }
  }

  /** The loop of `extractInstitutions` over the matches the regex found. */
  method FilterInstitutions(matches: seq<InstitutionMatch>) returns (institutions: seq<string>)
    ensures institutions == Institutions(matches)
  {
    institutions := [];
    for i := 0 to |matches|
      invariant institutions == Institutions(matches[..i])
    {
      var m := matches[i];
      var institution := if m.group1.Some? then m.group1 else m.group2;
      if institution.Some? && |Trim(institution.value)| > 2 {
        institutions := institutions + [Trim(institution.value)];
      }
      assert matches[..i + 1][..i] == matches[..i];
    }
    assert matches[..|matches|] == matches;
  }
}
