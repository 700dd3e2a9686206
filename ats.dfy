/**
 * `ATSServiceImpl`: how well a résumé fits a job description, as an
 * applicant tracking system would judge it.  The description's keywords and
 * technical skills are looked up in two fixed vocabularies, compared with the
 * résumé's text and extracted skills, and turned into a weighted score, a
 * list of recommendations and a sentence of feedback.
 *
 * Scores are `real`s: the model computes exactly the value that the source
 * approximates in `double`; floating-point rounding is not modelled.
 */
module Ats {
  import opened Strings
  import opened ResumeModel

  // ---------------------------------------------------------------------
  // `extractKeywords` and `extractSkills`
  // ---------------------------------------------------------------------

  const CommonKeywords: seq<string> := ["experience", "management", "leadership", "team", "project", "development",
    "analysis", "design", "implementation", "testing", "debugging", "optimization",
    "collaboration", "communication", "problem solving", "agile", "scrum",
    "bachelor", "master", "degree", "certification", "years"]

  const TechSkills: seq<string> := ["java", "python", "javascript", "react", "angular", "vue", "spring", "hibernate",
    "sql", "mysql", "postgresql", "mongodb", "redis", "docker", "kubernetes",
    "aws", "azure", "gcp", "git", "jenkins", "maven", "gradle", "junit",
    "rest", "api", "microservices", "html", "css", "bootstrap", "node.js",
    "express", "django", "flask", "laravel", "php", "c++", "c#", ".net",
    "machine learning", "ai", "data science", "pandas", "numpy", "tensorflow"]

  /** The vocabulary entries that occur in `lowerText`, in vocabulary order. */
  function Occurring(lowerText: string, vocabulary: seq<string>): seq<string>
  {
    if vocabulary == [] then []
    else
      var term := vocabulary[|vocabulary| - 1];
      Occurring(lowerText, vocabulary[..|vocabulary| - 1]) + (if Contains(lowerText, term) then [term] else [])
  }

  /** An entry is listed iff it is in the vocabulary and occurs in the text; the list keeps vocabulary order. */
  lemma {:induction false} OccurringExactly(lowerText: string, vocabulary: seq<string>)
    ensures forall s :: s in Occurring(lowerText, vocabulary) <==> s in vocabulary && Contains(lowerText, s)
    ensures IsSubsequence(Occurring(lowerText, vocabulary), vocabulary)
    decreases |vocabulary|
  {
    if vocabulary != [] {
      var init := vocabulary[..|vocabulary| - 1];
      var term := vocabulary[|vocabulary| - 1];
      OccurringExactly(lowerText, init);
      assert vocabulary == init + [term];
      var prev := Occurring(lowerText, init);
      var r := Occurring(lowerText, vocabulary);
      if Contains(lowerText, term) {
        assert r == prev + [term];
        assert r[..|r| - 1] == prev;
        assert IsSubsequence(r, vocabulary);
      } else {
        assert r == prev;
        assert IsSubsequence(r, vocabulary);
      }
    }
  }

  /** The loop shared by `extractKeywords` and `extractSkills`. */
  method CollectOccurring(lowerText: string, vocabulary: seq<string>) returns (found: seq<string>)
    ensures found == Occurring(lowerText, vocabulary)
  {
    found := [];
    for i := 0 to |vocabulary|
      invariant found == Occurring(lowerText, vocabulary[..i])
    {
      assert vocabulary[..i + 1][..i] == vocabulary[..i];
      if Contains(lowerText, vocabulary[i]) {
        found := found + [vocabulary[i]];
      }
    }
    assert vocabulary[..|vocabulary|] == vocabulary;
  }

  /** `extractKeywords`: the common keywords the lower-cased text contains, in vocabulary order. */
  method ExtractKeywords(text: string) returns (keywords: seq<string>)
    ensures keywords == Occurring(Lower(text), CommonKeywords)
  {
    var lowerText := Lower(text);
    keywords := CollectOccurring(lowerText, CommonKeywords);
  }

  /** `extractSkills`: the technical skills the lower-cased text contains, in vocabulary order. */
  method ExtractSkills(text: string) returns (skills: seq<string>)
    ensures skills == Occurring(Lower(text), TechSkills)
  {
    var lowerText := Lower(text);
    skills := CollectOccurring(lowerText, TechSkills);
  }

  /** Lower-casing the description once more, as `calculateATSScore` does, finds the same terms. */
  lemma OccurringLowerTwice(text: string, vocabulary: seq<string>)
    ensures Occurring(Lower(Lower(text)), vocabulary) == Occurring(Lower(text), vocabulary)
  {
    LowerIdempotent(text);
  }

  // ---------------------------------------------------------------------
  // `findMatchingSkills` and `findMissingSkills`
  // ---------------------------------------------------------------------

  /** A résumé skill answers a job skill when either name contains the other. */
  predicate Related(resumeSkill: string, jobSkill: string)
  {
    Contains(resumeSkill, jobSkill) || Contains(jobSkill, resumeSkill)
  }

  /** Some résumé skill answers the job skill. */
  predicate Covered(resumeSkills: seq<string>, jobSkill: string)
  {
    exists r :: r in resumeSkills && Related(r, jobSkill)
  }

  /** The job skills whose coverage is `covered`, in the order of `jobSkills`. */
  function SkillsWhere(resumeSkills: seq<string>, jobSkills: seq<string>, covered: bool): seq<string>
  {
    if jobSkills == [] then []
    else
      var skill := jobSkills[|jobSkills| - 1];
      SkillsWhere(resumeSkills, jobSkills[..|jobSkills| - 1], covered) + (if Covered(resumeSkills, skill) == covered then [skill] else [])
  }

  /** `findMatchingSkills`. */
  function MatchingSkills(resumeSkills: seq<string>, jobSkills: seq<string>): seq<string>
  {
    SkillsWhere(resumeSkills, jobSkills, true)
  }

  /** `findMissingSkills`. */
  function MissingSkills(resumeSkills: seq<string>, jobSkills: seq<string>): seq<string>
  {
    SkillsWhere(resumeSkills, jobSkills, false)
  }

  /** A job skill is matching iff it is covered and missing iff it is not. */
  lemma {:induction false} SkillsMembership(resumeSkills: seq<string>, jobSkills: seq<string>, covered: bool)
    ensures forall s :: s in SkillsWhere(resumeSkills, jobSkills, covered) <==> s in jobSkills && Covered(resumeSkills, s) == covered
    decreases |jobSkills|
  {
    if jobSkills != [] {
      var init := jobSkills[..|jobSkills| - 1];
      var skill := jobSkills[|jobSkills| - 1];
      SkillsMembership(resumeSkills, init, covered);
      assert jobSkills == init + [skill];
      assert SkillsWhere(resumeSkills, jobSkills, covered)
        == SkillsWhere(resumeSkills, init, covered) + (if Covered(resumeSkills, skill) == covered then [skill] else []);
      forall x
        ensures x in SkillsWhere(resumeSkills, jobSkills, covered) <==> x in jobSkills && Covered(resumeSkills, x) == covered
      {
        assert x in jobSkills <==> x in init || x == skill;
      }
    }
  }

  /** Both lists keep the order of the job skills. */
  lemma {:induction false} SkillsInOrder(resumeSkills: seq<string>, jobSkills: seq<string>, covered: bool)
    ensures IsSubsequence(SkillsWhere(resumeSkills, jobSkills, covered), jobSkills)
    decreases |jobSkills|
  {
    if jobSkills != [] {
      var init := jobSkills[..|jobSkills| - 1];
      var skill := jobSkills[|jobSkills| - 1];
      var prev := SkillsWhere(resumeSkills, init, covered);
      SkillsInOrder(resumeSkills, init, covered);
      SubsequenceSnoc(prev, init, skill);
      assert jobSkills == init + [skill];
      if Covered(resumeSkills, skill) == covered {
        assert SkillsWhere(resumeSkills, jobSkills, covered) == prev + [skill];
      } else {
        assert SkillsWhere(resumeSkills, jobSkills, covered) == prev;
      }
    }
  }

  /** Together the two lists hold every job skill exactly as often as the job lists it. */
  lemma {:induction false} SkillsSplit(resumeSkills: seq<string>, jobSkills: seq<string>)
    ensures multiset(MatchingSkills(resumeSkills, jobSkills)) + multiset(MissingSkills(resumeSkills, jobSkills)) == multiset(jobSkills)
    decreases |jobSkills|
  {
    if jobSkills != [] {
      var init := jobSkills[..|jobSkills| - 1];
      SkillsSplit(resumeSkills, init);
      assert jobSkills == init + [jobSkills[|jobSkills| - 1]];
    }
  }

  /** The lower-cased names of the résumé's extracted skills; none when the list is null. */
  function ResumeSkillNames(extractions: Option<seq<SkillExtraction>>): (names: seq<string>)
    ensures extractions.None? ==> names == []
    ensures extractions.Some? ==> |names| == |extractions.value|
    ensures extractions.Some? ==> forall i :: 0 <= i < |names| ==> names[i] == Lower(extractions.value[i].skillName)
  {
    if extractions.None? then []
    else seq(|extractions.value|, i requires 0 <= i < |extractions.value| => Lower(extractions.value[i].skillName))
  }

  /** A résumé with no extracted skills matches no job skill and misses every one. */
  lemma {:induction false} NoResumeSkills(jobSkills: seq<string>)
    ensures MatchingSkills([], jobSkills) == []
    ensures MissingSkills([], jobSkills) == jobSkills
    decreases |jobSkills|
  {
    if jobSkills != [] {
      NoResumeSkills(jobSkills[..|jobSkills| - 1]);
      assert jobSkills == jobSkills[..|jobSkills| - 1] + [jobSkills[|jobSkills| - 1]];
    }
  }

  // ---------------------------------------------------------------------
  // `findKeywordMatches` and `findMissingKeywords`
  // ---------------------------------------------------------------------

  /** The job keywords whose lower-cased form the résumé text contains (`found`) or lacks (`!found`). */
  function KeywordsWhere(resumeText: string, keywords: seq<string>, found: bool): seq<string>
  {
    if keywords == [] then []
    else
      var keyword := keywords[|keywords| - 1];
      KeywordsWhere(resumeText, keywords[..|keywords| - 1], found) + (if Contains(resumeText, Lower(keyword)) == found then [keyword] else [])
  }

  /** `findKeywordMatches`. */
  function KeywordMatches(resumeText: string, keywords: seq<string>): seq<string>
  {
    KeywordsWhere(resumeText, keywords, true)
  }

  /** `findMissingKeywords`. */
  function MissingKeywords(resumeText: string, keywords: seq<string>): seq<string>
  {
    KeywordsWhere(resumeText, keywords, false)
  }

  /** A job keyword is found iff the résumé text contains it lower-cased, and missing iff not. */
  lemma {:induction false} KeywordsMembership(resumeText: string, keywords: seq<string>, found: bool)
    ensures forall k :: k in KeywordsWhere(resumeText, keywords, found) <==> k in keywords && Contains(resumeText, Lower(k)) == found
    decreases |keywords|
  {
    if keywords != [] {
      var init := keywords[..|keywords| - 1];
      var keyword := keywords[|keywords| - 1];
      KeywordsMembership(resumeText, init, found);
      assert keywords == init + [keyword];
      assert KeywordsWhere(resumeText, keywords, found)
        == KeywordsWhere(resumeText, init, found) + (if Contains(resumeText, Lower(keyword)) == found then [keyword] else []);
      forall x
        ensures x in KeywordsWhere(resumeText, keywords, found) <==> x in keywords && Contains(resumeText, Lower(x)) == found
      {
        assert x in keywords <==> x in init || x == keyword;
      }
    }
  }

  /** Both lists keep the order of the job keywords. */
  lemma {:induction false} KeywordsInOrder(resumeText: string, keywords: seq<string>, found: bool)
    ensures IsSubsequence(KeywordsWhere(resumeText, keywords, found), keywords)
    decreases |keywords|
  {
    if keywords != [] {
      var init := keywords[..|keywords| - 1];
      var keyword := keywords[|keywords| - 1];
      var prev := KeywordsWhere(resumeText, init, found);
      KeywordsInOrder(resumeText, init, found);
      SubsequenceSnoc(prev, init, keyword);
      assert keywords == init + [keyword];
      if Contains(resumeText, Lower(keyword)) == found {
        assert KeywordsWhere(resumeText, keywords, found) == prev + [keyword];
      } else {
        assert KeywordsWhere(resumeText, keywords, found) == prev;
      }
    }
  }

  /** Together the two lists hold every job keyword exactly as often as the job lists it. */
  lemma {:induction false} KeywordsSplit(resumeText: string, keywords: seq<string>)
    ensures multiset(KeywordMatches(resumeText, keywords)) + multiset(MissingKeywords(resumeText, keywords)) == multiset(keywords)
    decreases |keywords|
  {
    if keywords != [] {
      var init := keywords[..|keywords| - 1];
      KeywordsSplit(resumeText, init);
      assert keywords == init + [keywords[|keywords| - 1]];
    }
  }

  /** The résumé's text as the matcher reads it: lower-cased, or empty when null. */
  function ResumeText(originalText: Option<string>): (text: string)
    ensures originalText.None? ==> text == []
    ensures originalText.Some? ==> |text| == |originalText.value|
  {
    if originalText.Some? then Lower(originalText.value) else []
  }

  // ---------------------------------------------------------------------
  // `calculateSkillMatchPercentage` and `calculateKeywordMatchPercentage`
  // ---------------------------------------------------------------------

  /** The number of covered job skills, counted one by one as `mapToLong(...).sum()` does. */
  function CoveredCount(resumeSkills: seq<string>, jobSkills: seq<string>): nat
  {
    if jobSkills == [] then 0
    else CoveredCount(resumeSkills, jobSkills[..|jobSkills| - 1]) + (if Covered(resumeSkills, jobSkills[|jobSkills| - 1]) then 1 else 0)
  }

  /** The number of job keywords the text contains, counted one by one. */
  function FoundCount(resumeText: string, keywords: seq<string>): nat
  {
    if keywords == [] then 0
    else FoundCount(resumeText, keywords[..|keywords| - 1]) + (if Contains(resumeText, Lower(keywords[|keywords| - 1])) then 1 else 0)
  }

  /** `hits` out of `total` as a percentage; an empty total counts as a full match. */
  function Percentage(hits: nat, total: nat): real
  {
    if total == 0 then 100.0 else (hits as real) / (total as real) * 100.0
  }

  lemma ShareAtMostOne(part: real, whole: real)
    requires 0.0 <= part <= whole && 0.0 < whole
    ensures 0.0 <= part / whole <= 1.0
  {
  }

  lemma PercentageRange(hits: nat, total: nat)
    requires hits <= total
    ensures 0.0 <= Percentage(hits, total) <= 100.0
  {
    if total != 0 {
      ShareAtMostOne(hits as real, total as real);
    }
  }

  function SkillMatchPercentage(resumeSkills: seq<string>, jobSkills: seq<string>): real
  {
    Percentage(CoveredCount(resumeSkills, jobSkills), |jobSkills|)
  }

  function KeywordMatchPercentage(resumeText: string, keywords: seq<string>): real
  {
    Percentage(FoundCount(resumeText, keywords), |keywords|)
  }

  /** The covered count is the length of the matching list. */
  lemma {:induction false} CoveredCountIsMatching(resumeSkills: seq<string>, jobSkills: seq<string>)
    ensures CoveredCount(resumeSkills, jobSkills) == |MatchingSkills(resumeSkills, jobSkills)|
    decreases |jobSkills|
  {
    if jobSkills != [] {
      CoveredCountIsMatching(resumeSkills, jobSkills[..|jobSkills| - 1]);
    }
  }

  /** The found count is the length of the list of keyword matches. */
  lemma {:induction false} FoundCountIsMatches(resumeText: string, keywords: seq<string>)
    ensures FoundCount(resumeText, keywords) == |KeywordMatches(resumeText, keywords)|
    decreases |keywords|
  {
    if keywords != [] {
      FoundCountIsMatches(resumeText, keywords[..|keywords| - 1]);
    }
  }

  /** The skill percentage is 100 with no job skills and otherwise the matched share, within [0, 100]. */
  lemma SkillMatchPercentageMeaning(resumeSkills: seq<string>, jobSkills: seq<string>)
    ensures jobSkills == [] ==> SkillMatchPercentage(resumeSkills, jobSkills) == 100.0
    ensures jobSkills != [] ==>
      SkillMatchPercentage(resumeSkills, jobSkills) == (|MatchingSkills(resumeSkills, jobSkills)| as real) / (|jobSkills| as real) * 100.0
    ensures 0.0 <= SkillMatchPercentage(resumeSkills, jobSkills) <= 100.0
  {
    CoveredCountIsMatching(resumeSkills, jobSkills);
    SkillsSplit(resumeSkills, jobSkills);
    var m := MatchingSkills(resumeSkills, jobSkills);
    var x := MissingSkills(resumeSkills, jobSkills);
    assert |m| + |x| == |jobSkills| by {
      assert |multiset(m) + multiset(x)| == |multiset(jobSkills)|;
    }
    PercentageRange(|m|, |jobSkills|);
  }

  /** The keyword percentage is 100 with no job keywords and otherwise the found share, within [0, 100]. */
  lemma KeywordMatchPercentageMeaning(resumeText: string, keywords: seq<string>)
    ensures keywords == [] ==> KeywordMatchPercentage(resumeText, keywords) == 100.0
    ensures keywords != [] ==>
      KeywordMatchPercentage(resumeText, keywords) == (|KeywordMatches(resumeText, keywords)| as real) / (|keywords| as real) * 100.0
    ensures 0.0 <= KeywordMatchPercentage(resumeText, keywords) <= 100.0
  {
    FoundCountIsMatches(resumeText, keywords);
    KeywordsSplit(resumeText, keywords);
    var m := KeywordMatches(resumeText, keywords);
    var x := MissingKeywords(resumeText, keywords);
    assert |m| + |x| == |keywords| by {
      assert |multiset(m) + multiset(x)| == |multiset(keywords)|;
    }
    PercentageRange(|m|, |keywords|);
  }

  // ---------------------------------------------------------------------
  // `calculateExperienceRelevance`
  // ---------------------------------------------------------------------

  /** A job's duration, a null duration counting as zero months. */
  function MonthsOf(e: ExperienceExtraction): int
  {
    if e.durationMonths.Some? then e.durationMonths.value else 0
  }

  function TotalMonths(records: seq<ExperienceExtraction>): int
  {
    if records == [] then 0 else TotalMonths(records[..|records| - 1]) + MonthsOf(records[|records| - 1])
  }

  /** No recorded duration is negative. */
  predicate DurationsNonNegative(records: Option<seq<ExperienceExtraction>>)
  {
    records.Some? ==> forall i :: 0 <= i < |records.value| ==> MonthsOf(records.value[i]) >= 0
  }

  lemma {:induction false} TotalMonthsNonNegative(records: seq<ExperienceExtraction>)
    requires DurationsNonNegative(Some(records))
    ensures TotalMonths(records) >= 0
    decreases |records|
  {
    if records != [] {
      TotalMonthsNonNegative(records[..|records| - 1]);
      assert MonthsOf(records[|records| - 1]) >= 0;
    }
  }

  /** Java's `int` division, which truncates toward zero. */
  function TruncatedDiv(a: int, b: nat): (q: int)
    requires b > 0
    ensures a >= 0 ==> q >= 0
  {
    if a >= 0 then a / b else -((-a) / b)
  }

  /** The quotient is rounded toward zero: `q * b` never passes `a` and misses it by less than `b`. */
  lemma TruncatedDivRounds(a: int, b: nat)
    requires b > 0
    ensures var q := TruncatedDiv(a, b);
      if a >= 0 then q * b <= a < q * b + b else q <= 0 && q * b - b < a <= q * b
  {
    var n := if a >= 0 then a else -a;
    assert n == (n / b) * b + n % b && 0 <= n % b < b;
  }

  function RealMax(a: real, b: real): real { if a >= b then a else b }
  function RealMin(a: real, b: real): real { if a <= b then a else b }

  const EntryLevel: seq<string> := ["entry level", "0-2 years"]
  const MidLevel: seq<string> := ["mid level", "3-5 years"]
  const SeniorLevel: seq<string> := ["senior", "5+ years"]

  /** The relevance of `years` of experience to a lower-cased job description, requirement checks in source order. */
  function RelevanceForYears(years: int, jobDesc: string): real
  {
    if Contains(jobDesc, EntryLevel[0]) || Contains(jobDesc, EntryLevel[1]) then
      (if years >= 0 then 100.0 else 50.0)
    else if Contains(jobDesc, MidLevel[0]) || Contains(jobDesc, MidLevel[1]) then
      (if years >= 3 then 100.0 else RealMax(50.0, years as real * 20.0))
    else if Contains(jobDesc, SeniorLevel[0]) || Contains(jobDesc, SeniorLevel[1]) then
      (if years >= 5 then 100.0 else RealMax(30.0, years as real * 15.0))
    else
      RealMin(100.0, years as real * 10.0 + 50.0)
  }

  /** `calculateExperienceRelevance`: 50 without experience records, else the relevance of the whole years served. */
  function ExperienceRelevance(records: Option<seq<ExperienceExtraction>>, jobDescription: string): real
  {
    if records.None? || records.value == [] then 50.0
    else RelevanceForYears(TruncatedDiv(TotalMonths(records.value), 12), Lower(jobDescription))
  }

  /** Relevance never exceeds 100, and from zero years on it is at least 30. */
  lemma RelevanceForYearsRange(years: int, jobDesc: string)
    ensures RelevanceForYears(years, jobDesc) <= 100.0
    ensures years >= 0 ==> RelevanceForYears(years, jobDesc) >= 30.0
  {
  }

  /** More experience never lowers the relevance to the same description. */
  lemma RelevanceMonotone(fewer: int, more: int, jobDesc: string)
    requires fewer <= more
    ensures RelevanceForYears(fewer, jobDesc) <= RelevanceForYears(more, jobDesc)
  {
    assert fewer as real * 20.0 <= more as real * 20.0;
    assert fewer as real * 15.0 <= more as real * 15.0;
    assert fewer as real * 10.0 <= more as real * 10.0;
  }

  /** Five whole years meet every requirement the description can state. */
  lemma FiveYearsSuffice(years: int, jobDesc: string)
    requires years >= 5
    ensures RelevanceForYears(years, jobDesc) == 100.0
  {
    assert years as real * 10.0 >= 50.0;
  }

  /** A description asking for entry level gets full relevance from any non-negative experience, whatever else it says. */
  lemma EntryLevelFirst(years: int, jobDesc: string)
    requires Contains(jobDesc, "entry level") && years >= 0
    ensures RelevanceForYears(years, jobDesc) == 100.0
  {
  }

  /** The relevance is 50 without records, at most 100 always, and at least 30 when no duration is negative. */
  lemma ExperienceRelevanceRange(records: Option<seq<ExperienceExtraction>>, jobDescription: string)
    ensures records.None? || records.value == [] ==> ExperienceRelevance(records, jobDescription) == 50.0
    ensures ExperienceRelevance(records, jobDescription) <= 100.0
    ensures DurationsNonNegative(records) ==> 30.0 <= ExperienceRelevance(records, jobDescription)
  {
    if records.Some? && records.value != [] {
      var years := TruncatedDiv(TotalMonths(records.value), 12);
      RelevanceForYearsRange(years, Lower(jobDescription));
      if DurationsNonNegative(records) {
        TotalMonthsNonNegative(records.value);
      }
    }
  }

  // ---------------------------------------------------------------------
  // `calculateATSScore`
  // ---------------------------------------------------------------------

  /** Skills weigh 50%, keywords 30% and experience 20%. */
  function WeightedScore(skillScore: real, keywordScore: real, experienceScore: real): real
  {
    skillScore * 0.5 + keywordScore * 0.3 + experienceScore * 0.2
  }

  /** `Math.round(x * 100.0) / 100.0`: `x` rounded to hundredths, halves upward. */
  function RoundHundredths(x: real): real
  {
    ((x * 100.0 + 0.5).Floor as real) / 100.0
  }

  /** Rounding to hundredths moves a score by at most half a hundredth and keeps [0, 100]. */
  lemma RoundHundredthsBounds(x: real)
    ensures x - 0.005 < RoundHundredths(x) <= x + 0.005
    ensures 0.0 <= x <= 100.0 ==> 0.0 <= RoundHundredths(x) <= 100.0
  {
    var n := (x * 100.0 + 0.5).Floor;
    assert n as real <= x * 100.0 + 0.5 < n as real + 1.0;
    if 0.0 <= x <= 100.0 {
      assert 0 <= n <= 10000;
    }
  }

  /** The unrounded score of a non-blank description. */
  function RawScore(resume: Resume, jobDescription: string): real
    reads resume
  {
    var jobDesc := Lower(jobDescription);
    var resumeSkills := ResumeSkillNames(resume.skillExtractions);
    WeightedScore(
      SkillMatchPercentage(resumeSkills, Occurring(Lower(jobDesc), TechSkills)),
      KeywordMatchPercentage(ResumeText(resume.originalText), Occurring(Lower(jobDesc), CommonKeywords)),
      ExperienceRelevance(resume.experienceExtractions, jobDesc))
  }

  /** `calculateATSScore`: 0 for a null or blank description, else the weighted score rounded to hundredths. */
  function ATSScore(resume: Resume, jobDescription: Option<string>): real
    reads resume
  {
    if jobDescription.None? || Trim(jobDescription.value) == [] then 0.0
    else RoundHundredths(RawScore(resume, jobDescription.value))
  }

  /** The weighted score stays within [0, 100] before rounding, given no negative duration; it never exceeds 100. */
  lemma RawScoreRange(resume: Resume, jobDescription: string)
    ensures RawScore(resume, jobDescription) <= 100.0
    ensures DurationsNonNegative(resume.experienceExtractions) ==> 0.0 <= RawScore(resume, jobDescription)
  {
    var jobDesc := Lower(jobDescription);
    var resumeSkills := ResumeSkillNames(resume.skillExtractions);
    SkillMatchPercentageMeaning(resumeSkills, Occurring(Lower(jobDesc), TechSkills));
    KeywordMatchPercentageMeaning(ResumeText(resume.originalText), Occurring(Lower(jobDesc), CommonKeywords));
    ExperienceRelevanceRange(resume.experienceExtractions, jobDesc);
  }

  /** The score is 0 for a blank description and otherwise lies in [0, 100] when no duration is negative. */
  lemma ATSScoreRange(resume: Resume, jobDescription: Option<string>)
    ensures jobDescription.None? || All(jobDescription.value, IsTrimmable) ==> ATSScore(resume, jobDescription) == 0.0
    ensures ATSScore(resume, jobDescription) <= 100.0
    ensures DurationsNonNegative(resume.experienceExtractions) ==> 0.0 <= ATSScore(resume, jobDescription)
  {
    if jobDescription.Some? {
      TrimBlankIff(jobDescription.value);
      if Trim(jobDescription.value) != [] {
        var raw := RawScore(resume, jobDescription.value);
        RawScoreRange(resume, jobDescription.value);
        RoundHundredthsBounds(raw);
        var n := (raw * 100.0 + 0.5).Floor;
        assert n <= 10000;
      }
    }
  }

  // ---------------------------------------------------------------------
  // `generateRecommendations`
  // ---------------------------------------------------------------------

  /** The five recommendations `generateRecommendations` can give. */
  datatype Advice = SkillsAdvice | KeywordsAdvice | ExperienceAdvice | EducationAdvice | FormatAdvice

  /**
   * `ATSAnalysisResponse.ATSRecommendation`.  Its category, issue, suggestion
   * and priority strings follow from the advice given, and the skills
   * advice's issue names the skills in `named`.
   */
  datatype Recommendation = Recommendation(advice: Advice, named: seq<string>)

  function Category(a: Advice): string
  {
    match a
    case SkillsAdvice => "Skills"
    case KeywordsAdvice => "Keywords"
    case ExperienceAdvice => "Experience"
    case EducationAdvice => "Education"
    case FormatAdvice => "Format"
  }

  const SkillsIssuePrefix := "Missing key technical skills: "

  /** The issue of the skills advice: the named skills, joined by commas. */
  function SkillsIssue(named: seq<string>): string
  {
    SkillsIssuePrefix + Join(named, ", ")
  }

  function Issue(r: Recommendation): string
  {
    match r.advice
    case SkillsAdvice => SkillsIssue(r.named)
    case KeywordsAdvice => "Missing important keywords from job description"
    case ExperienceAdvice => "No work experience detected"
    case EducationAdvice => "Education information not clearly formatted"
    case FormatAdvice => "Optimize for ATS scanning"
  }

  function Suggestion(a: Advice): string
  {
    match a
    case SkillsAdvice => "Consider adding these skills to your resume if you have experience with them, or highlight similar/related technologies"
    case KeywordsAdvice => "Incorporate relevant keywords naturally throughout your resume, especially in summary and experience sections"
    case ExperienceAdvice => "Add internships, projects, or volunteer work that demonstrates relevant skills"
    case EducationAdvice => "Ensure education section is clearly labeled with degree, institution, and graduation year"
    case FormatAdvice => "Use standard section headings (Summary, Experience, Education, Skills), avoid complex formatting, tables, or graphics"
  }

  /** "HIGH" for missing skills and missing experience, "MEDIUM" otherwise. */
  function Priority(a: Advice): string
  {
    if a == SkillsAdvice || a == ExperienceAdvice then "HIGH" else "MEDIUM"
  }

  /** Different advice carries a different category name. */
  lemma CategoriesDistinct(a: Advice, b: Advice)
    ensures Category(a) == Category(b) <==> a == b
  {
    if a != b {
      assert Category(a)[0] != Category(b)[0] || |Category(a)| != |Category(b)|;
    }
  }

  /** How many missing skills the skills recommendation names at most. */
  const NamedSkillLimit: nat := 5

  /** The skills advice, naming the first missing skills, at most five of them. */
  function SkillsRecommendation(missingSkills: seq<string>): Recommendation
  {
    Recommendation(SkillsAdvice, missingSkills[..Min(NamedSkillLimit, |missingSkills|)])
  }

  /** An advice that names no skill. */
  function Plain(a: Advice): Recommendation
  {
    Recommendation(a, [])
  }

  /** A null list and an empty list both mean that nothing was extracted. */
  predicate NoneExtracted<T>(records: Option<seq<T>>)
  {
    records.None? || records.value == []
  }

  /** The recommendations, in the order the source adds them. */
  function Recommendations(missingSkills: seq<string>, missingKeywords: seq<string>,
                           experience: Option<seq<ExperienceExtraction>>, education: Option<seq<EducationExtraction>>): seq<Recommendation>
  {
    (if missingSkills != [] then [SkillsRecommendation(missingSkills)] else [])
    + (if missingKeywords != [] then [Plain(KeywordsAdvice)] else [])
    + (if NoneExtracted(experience) then [Plain(ExperienceAdvice)] else [])
    + (if NoneExtracted(education) then [Plain(EducationAdvice)] else [])
    + [Plain(FormatAdvice)]
  }

  /** `generateRecommendations`: appends each recommendation whose condition holds, the format advice last. */
  method GenerateRecommendations(missingSkills: seq<string>, missingKeywords: seq<string>, resume: Resume)
    returns (recommendations: seq<Recommendation>)
    ensures recommendations == Recommendations(missingSkills, missingKeywords, resume.experienceExtractions, resume.educationExtractions)
  {
    recommendations := [];
    if missingSkills != [] {
      recommendations := recommendations + [SkillsRecommendation(missingSkills)];
    }
    ghost var s := recommendations;
    if missingKeywords != [] {
      recommendations := recommendations + [Plain(KeywordsAdvice)];
    }
    ghost var k := recommendations;
    if resume.experienceExtractions.None? || resume.experienceExtractions.value == [] {
      recommendations := recommendations + [Plain(ExperienceAdvice)];
    }
    ghost var e := recommendations;
    if resume.educationExtractions.None? || resume.educationExtractions.value == [] {
      recommendations := recommendations + [Plain(EducationAdvice)];
    }
    assert s == (if missingSkills != [] then [SkillsRecommendation(missingSkills)] else []);
    assert k == s + (if missingKeywords != [] then [Plain(KeywordsAdvice)] else []);
    assert e == k + (if NoneExtracted(resume.experienceExtractions) then [Plain(ExperienceAdvice)] else []);
    assert recommendations == e + (if NoneExtracted(resume.educationExtractions) then [Plain(EducationAdvice)] else []);
    recommendations := recommendations + [Plain(FormatAdvice)];
  }

  /** Some recommendation gives the advice. */
  predicate Gives(recommendations: seq<Recommendation>, a: Advice)
  {
    exists i :: 0 <= i < |recommendations| && recommendations[i].advice == a
  }

  lemma GivesConcat(r: seq<Recommendation>, t: seq<Recommendation>, a: Advice)
    ensures Gives(r + t, a) <==> Gives(r, a) || Gives(t, a)
  {
    if Gives(r + t, a) {
      var i :| 0 <= i < |r + t| && (r + t)[i].advice == a;
      if i >= |r| {
        assert t[i - |r|].advice == a;
      } else {
        assert r[i].advice == a;
      }
    }
    if Gives(r, a) {
      var i :| 0 <= i < |r| && r[i].advice == a;
      assert (r + t)[i] == r[i];
    }
    if Gives(t, a) {
      var i :| 0 <= i < |t| && t[i].advice == a;
      assert (r + t)[|r| + i] == t[i];
      assert 0 <= |r| + i < |r + t| && (r + t)[|r| + i].advice == a;
    }
  }

  lemma GivesOfAtMostOne(r: seq<Recommendation>, a: Advice)
    requires |r| <= 1
    ensures Gives(r, a) <==> r != [] && r[0].advice == a
  {
  }

  /**
   * One to five recommendations, the format advice always last; the skills,
   * keywords, experience and education advice are given exactly when their
   * condition holds, and the skills advice, when given, comes first and
   * names the first missing skills, at most five.
   */
  lemma RecommendationsShape(missingSkills: seq<string>, missingKeywords: seq<string>,
                             experience: Option<seq<ExperienceExtraction>>, education: Option<seq<EducationExtraction>>)
    ensures var r := Recommendations(missingSkills, missingKeywords, experience, education);
      1 <= |r| <= 5 && r[|r| - 1] == Plain(FormatAdvice)
      && (Gives(r, SkillsAdvice) <==> missingSkills != [])
      && (Gives(r, KeywordsAdvice) <==> missingKeywords != [])
      && (Gives(r, ExperienceAdvice) <==> NoneExtracted(experience))
      && (Gives(r, EducationAdvice) <==> NoneExtracted(education))
      && (missingSkills != [] ==> r[0].advice == SkillsAdvice && |r[0].named| <= NamedSkillLimit
                                  && r[0].named == missingSkills[..|r[0].named|])
  {
    var s := if missingSkills != [] then [SkillsRecommendation(missingSkills)] else [];
    var k := if missingKeywords != [] then [Plain(KeywordsAdvice)] else [];
    var e := if NoneExtracted(experience) then [Plain(ExperienceAdvice)] else [];
    var d := if NoneExtracted(education) then [Plain(EducationAdvice)] else [];
    var f := [Plain(FormatAdvice)];
    var r := Recommendations(missingSkills, missingKeywords, experience, education);
    assert r == s + k + e + d + f;
    forall a: Advice
      ensures Gives(r, a) <==>
        ((s != [] && s[0].advice == a) || (k != [] && k[0].advice == a)
         || (e != [] && e[0].advice == a) || (d != [] && d[0].advice == a) || f[0].advice == a)
    {
      GivesConcat(s + k + e + d, f, a);
      GivesConcat(s + k + e, d, a);
      GivesConcat(s + k, e, a);
      GivesConcat(s, k, a);
      GivesOfAtMostOne(s, a);
      GivesOfAtMostOne(k, a);
      GivesOfAtMostOne(e, a);
      GivesOfAtMostOne(d, a);
      GivesOfAtMostOne(f, a);
    }
  }

  /** Every part of a join occurs in it. */
  lemma {:induction false} JoinContainsPart(parts: seq<string>, sep: string, k: nat)
    requires k < |parts|
    ensures Contains(Join(parts, sep), parts[k])
    decreases |parts|
  {
    var j := Join(parts, sep);
    if |parts| == 1 {
      ContainsSelf(j);
    } else {
      var rest := Join(parts[1..], sep);
      assert j == parts[0] + sep + rest;
      if k == 0 {
        assert j[..|parts[0]|] == parts[0];
        assert OccursAt(j, parts[0], 0);
      } else {
        JoinContainsPart(parts[1..], sep, k - 1);
        ContainsAfter(parts[0] + sep, rest, parts[k]);
      }
    }
  }

  /** Every named skill appears in the skills issue. */
  lemma SkillsIssueContains(named: seq<string>, k: nat)
    requires k < |named|
    ensures Contains(SkillsIssue(named), named[k])
  {
    JoinContainsPart(named, ", ", k);
    ContainsAfter(SkillsIssuePrefix, Join(named, ", "), named[k]);
  }

  /** The skills advice's issue names the first missing skills, up to five and in order. */
  lemma SkillsIssueNames(missingSkills: seq<string>)
    ensures StartsWith(SkillsIssue(SkillsRecommendation(missingSkills).named), SkillsIssuePrefix)
    ensures forall k :: 0 <= k < Min(NamedSkillLimit, |missingSkills|) ==>
      Contains(SkillsIssue(SkillsRecommendation(missingSkills).named), missingSkills[k])
    ensures |missingSkills| <= NamedSkillLimit ==> SkillsIssue(SkillsRecommendation(missingSkills).named) == SkillsIssuePrefix + Join(missingSkills, ", ")
  {
    var named := SkillsRecommendation(missingSkills).named;
    ConcatPieces(SkillsIssuePrefix, Join(named, ", "), []);
    assert SkillsIssuePrefix + Join(named, ", ") + [] == SkillsIssue(named);
    forall k | 0 <= k < |named|
      ensures Contains(SkillsIssue(named), missingSkills[k])
    {
      SkillsIssueContains(named, k);
    }
    if |missingSkills| <= NamedSkillLimit {
      assert named == missingSkills;
    }
  }

  // ---------------------------------------------------------------------
  // `generateOverallFeedback`
  // ---------------------------------------------------------------------

  const ExcellentBand := "Excellent ATS compatibility! Your resume aligns well with the job requirements. "
  const GoodBand := "Good ATS score with room for improvement. "
  const ModerateBand := "Moderate ATS compatibility. Consider significant improvements. "
  const LowBand := "Low ATS score. Major improvements needed for better job matching. "

  /** The opening sentence for a score: bands at 80, 60 and 40. */
  function Band(score: real): string
  {
    if score >= 80.0 then ExcellentBand
    else if score >= 60.0 then GoodBand
    else if score >= 40.0 then ModerateBand
    else LowBand
  }

  const RequirementsEnd := " key requirements"
  const MissingLead := " and could strengthen your profile by adding "
  const MissingSkillsEnd := " missing skills."

  function MatchSentence(matching: nat): string
  {
    "You match " + NatToString(matching) + RequirementsEnd
  }

  function MissingClause(missing: nat): string
  {
    if missing > 0 then MissingLead + (NatToString(missing) + MissingSkillsEnd) else "."
  }

  function Feedback(score: real, matching: nat, missing: nat): string
  {
    Band(score) + MatchSentence(matching) + MissingClause(missing)
  }

  /** `generateOverallFeedback`: the band, the number of matches and, when skills are missing, how many. */
  method GenerateOverallFeedback(score: real, matching: nat, missing: nat) returns (feedback: string)
    ensures feedback == Feedback(score, matching, missing)
  {
    feedback := [];
    if score >= 80.0 {
      feedback := feedback + ExcellentBand;
    } else if score >= 60.0 {
      feedback := feedback + GoodBand;
    } else if score >= 40.0 {
      feedback := feedback + ModerateBand;
    } else {
      feedback := feedback + LowBand;
    }
    assert feedback == Band(score);
    feedback := feedback + MatchSentence(matching);
    if missing > 0 {
      feedback := feedback + (MissingLead + (NatToString(missing) + MissingSkillsEnd));
    } else {
      feedback := feedback + ".";
    }
  }

  /**
   * The feedback opens with the band sentence of the score, and each band
   * sentence is chosen by exactly its range of scores.
   */
  lemma FeedbackBands(score: real, matching: nat, missing: nat)
    ensures StartsWith(Feedback(score, matching, missing), Band(score))
    ensures Band(score) == ExcellentBand <==> score >= 80.0
    ensures Band(score) == GoodBand <==> 60.0 <= score < 80.0
    ensures Band(score) == ModerateBand <==> 40.0 <= score < 60.0
    ensures Band(score) == LowBand <==> score < 40.0
  {
    ConcatPieces(Band(score), MatchSentence(matching), MissingClause(missing));
    assert |ExcellentBand| != |GoodBand| && |ExcellentBand| != |ModerateBand| && |ExcellentBand| != |LowBand|;
    assert |GoodBand| != |ModerateBand| && |GoodBand| != |LowBand| && |ModerateBand| != |LowBand|;
  }

  /** What follows any opening sentence: the match count, and how many skills are missing when some are. */
  lemma TailAfter(opening: string, matching: nat, missing: nat)
    ensures Contains(opening + MatchSentence(matching) + MissingClause(missing), MatchSentence(matching))
    ensures EndsWith(opening + MatchSentence(matching) + MissingClause(missing), RequirementsEnd + ".") <==> missing == 0
    ensures missing > 0 ==> EndsWith(opening + MatchSentence(matching) + MissingClause(missing), NatToString(missing) + MissingSkillsEnd)
  {
    var f := opening + MatchSentence(matching) + MissingClause(missing);
    ConcatPieces(opening, MatchSentence(matching), MissingClause(missing));
    if missing == 0 {
      EndsWithLastTwo(opening, "You match " + NatToString(matching), RequirementsEnd, ".");
    } else {
      var w := NatToString(missing) + MissingSkillsEnd;
      EndsWithLastTwo(opening + MatchSentence(matching), MissingLead, NatToString(missing), MissingSkillsEnd);
      if EndsWith(f, RequirementsEnd + ".") {
        EndingsAgree(f, RequirementsEnd + ".", w, 3);
      }
    }
  }

  /** The feedback ends right after the match count exactly when no skill is missing. */
  lemma FeedbackEnding(score: real, matching: nat, missing: nat)
    ensures Contains(Feedback(score, matching, missing), MatchSentence(matching))
    ensures EndsWith(Feedback(score, matching, missing), RequirementsEnd + ".") <==> missing == 0
    ensures missing > 0 ==> EndsWith(Feedback(score, matching, missing), NatToString(missing) + MissingSkillsEnd)
  {
    TailAfter(Band(score), matching, missing);
  }

  // ---------------------------------------------------------------------
  // `analyzeATS`
  // ---------------------------------------------------------------------

  /** `ATSAnalysisResponse`. */
  datatype AnalysisResponse = AnalysisResponse(
    atsScore: real,
    matchingSkills: seq<string>,
    missingSkills: seq<string>,
    keywordMatches: seq<string>,
    missingKeywords: seq<string>,
    recommendations: seq<Recommendation>,
    overallFeedback: string)

  /**
   * `analyzeATS`.  The lists are the job's skills and keywords split by the
   * résumé, the recommendations and feedback are made from those lists, and
   * for a non-blank description the score is computed from the very shares
   * the lists report.
   */
  method AnalyzeATS(resume: Resume, jobDescription: string) returns (response: AnalysisResponse)
    ensures var jobSkills := Occurring(Lower(jobDescription), TechSkills);
      var resumeSkills := ResumeSkillNames(resume.skillExtractions);
      response.matchingSkills == MatchingSkills(resumeSkills, jobSkills)
      && response.missingSkills == MissingSkills(resumeSkills, jobSkills)
      && multiset(response.matchingSkills) + multiset(response.missingSkills) == multiset(jobSkills)
    ensures var jobKeywords := Occurring(Lower(jobDescription), CommonKeywords);
      var resumeText := ResumeText(resume.originalText);
      response.keywordMatches == KeywordMatches(resumeText, jobKeywords)
      && response.missingKeywords == MissingKeywords(resumeText, jobKeywords)
      && multiset(response.keywordMatches) + multiset(response.missingKeywords) == multiset(jobKeywords)
    ensures response.atsScore == ATSScore(resume, Some(jobDescription))
    ensures Trim(jobDescription) != [] ==> response.atsScore == RoundHundredths(WeightedScore(
      Percentage(|response.matchingSkills|, |Occurring(Lower(jobDescription), TechSkills)|),
      Percentage(|response.keywordMatches|, |Occurring(Lower(jobDescription), CommonKeywords)|),
      ExperienceRelevance(resume.experienceExtractions, jobDescription)))
    ensures response.recommendations
      == Recommendations(response.missingSkills, response.missingKeywords, resume.experienceExtractions, resume.educationExtractions)
    ensures response.overallFeedback == Feedback(response.atsScore, |response.matchingSkills|, |response.missingSkills|)
  {
    var jobKeywords := ExtractKeywords(jobDescription);
    var jobSkills := ExtractSkills(jobDescription);
    var resumeText := ResumeText(resume.originalText);
    var resumeSkills := ResumeSkillNames(resume.skillExtractions);
    var matching := MatchingSkills(resumeSkills, jobSkills);
    var missing := MissingSkills(resumeSkills, jobSkills);
    var keywordMatches := KeywordMatches(resumeText, jobKeywords);
    var missingKeywords := MissingKeywords(resumeText, jobKeywords);
    SkillsSplit(resumeSkills, jobSkills);
    KeywordsSplit(resumeText, jobKeywords);
    var score := ATSScore(resume, Some(jobDescription));
    if Trim(jobDescription) != [] {
      ScoreFromLists(resume, jobDescription);
    }
    var recommendations := GenerateRecommendations(missing, missingKeywords, resume);
    var feedback := GenerateOverallFeedback(score, |matching|, |missing|);
    response := AnalysisResponse(score, matching, missing, keywordMatches, missingKeywords, recommendations, feedback);
  }

  /** The score of a non-blank description uses the same job skills and keywords as `analyzeATS` reports. */
  lemma ScoreFromLists(resume: Resume, jobDescription: string)
    requires Trim(jobDescription) != []
    ensures var jobSkills := Occurring(Lower(jobDescription), TechSkills);
      var jobKeywords := Occurring(Lower(jobDescription), CommonKeywords);
      ATSScore(resume, Some(jobDescription)) == RoundHundredths(WeightedScore(
        Percentage(|MatchingSkills(ResumeSkillNames(resume.skillExtractions), jobSkills)|, |jobSkills|),
        Percentage(|KeywordMatches(ResumeText(resume.originalText), jobKeywords)|, |jobKeywords|),
        ExperienceRelevance(resume.experienceExtractions, jobDescription)))
  {
    var jobSkills := Occurring(Lower(jobDescription), TechSkills);
    var jobKeywords := Occurring(Lower(jobDescription), CommonKeywords);
    OccurringLowerTwice(jobDescription, TechSkills);
    OccurringLowerTwice(jobDescription, CommonKeywords);
    LowerIdempotent(jobDescription);
    CoveredCountIsMatching(ResumeSkillNames(resume.skillExtractions), jobSkills);
    FoundCountIsMatches(ResumeText(resume.originalText), jobKeywords);
  }
}
