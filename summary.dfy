/**
 * The summary generator: the domain and education probes, the one-line
 * summary stored on the résumé, the longer detailed summary and the overall score.
 */
module Summary {
  import opened Strings
  import opened ResumeModel
  import Skills
  import Education

  // ---------------------------------------------------------------------
  // `countOccurrences`
  // ---------------------------------------------------------------------

  /** How many entries of `keywords` occur in `text` (an entry listed twice counts twice). */
  function CountPresent(text: string, keywords: seq<string>): nat
  {
    if keywords == [] then 0
    else CountPresent(text, keywords[..|keywords| - 1]) + (if Contains(text, keywords[|keywords| - 1]) then 1 else 0)
  }

  /** The count never exceeds the list; it is zero exactly when no entry occurs and full exactly when all do. */
  lemma {:induction false} CountPresentBounds(text: string, keywords: seq<string>)
    ensures CountPresent(text, keywords) <= |keywords|
    ensures CountPresent(text, keywords) == 0 <==> forall k :: 0 <= k < |keywords| ==> !Contains(text, keywords[k])
    ensures CountPresent(text, keywords) == |keywords| <==> forall k :: 0 <= k < |keywords| ==> Contains(text, keywords[k])
    decreases |keywords|
  {
    if keywords != [] {
      var init := keywords[..|keywords| - 1];
      CountPresentBounds(text, init);
      assert forall k :: 0 <= k < |init| ==> init[k] == keywords[k];
    }
  }

  /** A text that contains another finds at least as many keywords. */
  lemma {:induction false} CountPresentGrows(small: string, big: string, keywords: seq<string>)
    requires Contains(big, small)
    ensures CountPresent(small, keywords) <= CountPresent(big, keywords)
    decreases |keywords|
  {
    if keywords != [] {
      CountPresentGrows(small, big, keywords[..|keywords| - 1]);
      if Contains(small, keywords[|keywords| - 1]) {
        ContainsTransitive(big, small, keywords[|keywords| - 1]);
      }
    }
  }

  /** `countOccurrences`. */
  method CountOccurrences(text: string, keywords: seq<string>) returns (count: nat)
    ensures count == CountPresent(text, keywords)
  {
    count := 0;
    for k := 0 to |keywords|
      invariant count == CountPresent(text, keywords[..k])
    {
      if Contains(text, keywords[k]) {
        count := count + 1;
      }
      assert keywords[..k + 1][..k] == keywords[..k];
    }
    assert keywords[..|keywords|] == keywords;
  }

  // ---------------------------------------------------------------------
  // `detectDomainExpertise`
  // ---------------------------------------------------------------------

  datatype Domain = Frontend | Backend | FullStack | Mobile | DataScience | DevOps
  {
    function Label(): string
    {
      match this
      case Frontend => "Frontend Development"
      case Backend => "Backend Development"
      case FullStack => "Full Stack Development"
      case Mobile => "Mobile Development"
      case DataScience => "Data Science & Analytics"
      case DevOps => "DevOps & Cloud"
    }

    function Keywords(): seq<string>
    {
      match this
      case Frontend => ["web", "frontend", "react", "angular", "vue"]
      case Backend => ["backend", "api", "server", "database", "microservices"]
      case FullStack => ["fullstack", "full stack", "frontend", "backend"]
      case Mobile => ["mobile", "android", "ios", "react native", "flutter"]
      case DataScience => ["data science", "machine learning", "ai", "analytics", "python"]
      case DevOps => ["devops", "cloud", "aws", "docker", "kubernetes"]
    }

    /** How many of its keywords a domain needs. */
    function Threshold(): nat
    {
      match this
      case Frontend => 3
      case Backend => 3
      case FullStack => 2
      case Mobile => 2
      case DataScience => 3
      case DevOps => 3
    }

    /** The position in which the domains are tried. */
    function Order(): nat
    {
      match this
      case Frontend => 0
      case Backend => 1
      case FullStack => 2
      case Mobile => 3
      case DataScience => 4
      case DevOps => 5
    }
  }

  predicate Qualifies(lowerText: string, d: Domain) { CountPresent(lowerText, d.Keywords()) >= d.Threshold() }

  /** `detectDomainExpertise`: the first domain, in the fixed order, whose threshold the text meets. */
  function DomainOf(text: string): Option<Domain>
  {
    var lowerText := Lower(text);
    if Qualifies(lowerText, Frontend) then Some(Frontend)
    else if Qualifies(lowerText, Backend) then Some(Backend)
    else if Qualifies(lowerText, FullStack) then Some(FullStack)
    else if Qualifies(lowerText, Mobile) then Some(Mobile)
    else if Qualifies(lowerText, DataScience) then Some(DataScience)
    else if Qualifies(lowerText, DevOps) then Some(DevOps)
    else None
  }

  /** The label `detectDomainExpertise` returns, `""` when no domain qualifies. */
  function DomainExpertise(text: string): string
  {
    match DomainOf(text)
    case None => ""
    case Some(d) => d.Label()
  }

  /** The domain reported qualifies and no domain tried before it does; none is reported exactly when none qualifies. */
  lemma DomainFirstWins(text: string, e: Domain)
    ensures DomainOf(text).Some? ==> Qualifies(Lower(text), DomainOf(text).value)
    ensures DomainOf(text).Some? && Qualifies(Lower(text), e) ==> DomainOf(text).value.Order() <= e.Order()
    ensures DomainOf(text).None? ==> !Qualifies(Lower(text), e)
  {
    match e { case _ => }
  }

  /** The six labels are non-empty and distinct, so the empty label means "no domain". */
  lemma DomainLabels(d: Domain, e: Domain)
    ensures d.Label() != [] && (d.Label() == e.Label() <==> d == e)
  {
  }

  // ---------------------------------------------------------------------
  // `detectEducationLevel`
  // ---------------------------------------------------------------------

  /** `detectEducationLevel`: doctorate, then master's (master, mba), then bachelor's; none otherwise. */
  function EducationLevel(text: string): Option<Education.Degree>
  {
    var lowerText := Lower(text);
    if Contains(lowerText, "phd") || Contains(lowerText, "doctorate") then Some(Education.PhdDoctorate)
    else if Contains(lowerText, "master") || Contains(lowerText, "mba") then Some(Education.Masters)
    else if Contains(lowerText, "bachelor") then Some(Education.Bachelors)
    else None
  }

  /**
   * The summary's level never exceeds the education extractor's highest
   * degree (which also knows "m.s.", "b.tech" and the rest), and the two agree
   * on a doctorate.
   */
  lemma EducationLevelBelowHighest(text: string)
    ensures EducationLevel(text).Some? ==> EducationLevel(text).value.Rank() <= Education.HighestDegree(text).Rank()
    ensures EducationLevel(text) == Some(Education.PhdDoctorate) <==> Education.HighestDegree(text) == Education.PhdDoctorate
  {
    var lowerText := Lower(text);
    var phd := Education.LevelWords(Education.PhdDoctorate);
    assert phd[0] == "phd" && phd[1] == "doctorate";
    var masters := Education.LevelWords(Education.Masters);
    assert masters[0] == "master" && masters[3] == "mba";
    var bachelors := Education.LevelWords(Education.Bachelors);
    assert bachelors[0] == "bachelor";
    if Contains(lowerText, "phd") { assert Contains(lowerText, phd[0]); }
    if Contains(lowerText, "doctorate") { assert Contains(lowerText, phd[1]); }
    if Contains(lowerText, "master") { assert Contains(lowerText, masters[0]); }
    if Contains(lowerText, "mba") { assert Contains(lowerText, masters[3]); }
    if Contains(lowerText, "bachelor") { assert Contains(lowerText, bachelors[0]); }
    if Education.HighestDegree(text) == Education.PhdDoctorate {
      var k :| 0 <= k < |phd| && Contains(lowerText, phd[k]);
    }
  }

  // ---------------------------------------------------------------------
  // `generateSummary`
  // ---------------------------------------------------------------------

  /** One sentence of the summary: its words, a full stop and a space. */
  function Sentence(body: string): string { body + ". " }

  predicate HasExperience(years: Option<int>) { years.Some? && years.value > 0 }

  /** A skills JSON that is present and not the empty array `[]`. */
  predicate HasSkills(skillsJson: Option<string>) { skillsJson.Some? && skillsJson.value != "[]" }

  function ExperienceBody(years: nat): string { "Professional with " + NatToString(years) + " years of experience" }
  function SeniorityBody(seniority: string): string { seniority + " level candidate" }
  function SkillsBody(count: nat): string { "Skilled in " + NatToString(count) + " technologies across multiple domains" }
  function DomainBody(domain: string): string { "Specializes in " + domain }
  function EducationBody(level: string): string { "Holds " + level + " degree" }

  /** Each fixed sentence opens with a letter, which `trim()` keeps. */
  lemma BodiesOpenVisibly(years: nat, count: nat, domain: string, level: string)
    ensures ExperienceBody(years)[0] == 'P' && SkillsBody(count)[0] == 'S'
    ensures DomainBody(domain)[0] == 'S' && EducationBody(level)[0] == 'H'
  {
  }

  /** The part a condition contributes: its sentence, or nothing. */
  function Part(present: bool, body: string): string { if present then Sentence(body) else "" }

  function ExperiencePart(years: Option<int>): string
  {
    Part(HasExperience(years), if HasExperience(years) then ExperienceBody(years.value) else "")
  }

  function SeniorityPart(seniority: Option<string>): string
  {
    Part(seniority.Some?, if seniority.Some? then SeniorityBody(seniority.value) else "")
  }

  function SkillsPart(skillsJson: Option<string>): string
  {
    Part(HasSkills(skillsJson), if HasSkills(skillsJson) then SkillsBody(Skills.BraceCount(skillsJson.value)) else "")
  }

  function DomainPart(domain: Option<Domain>): string
  {
    Part(domain.Some?, if domain.Some? then DomainBody(domain.value.Label()) else "")
  }

  function EducationPart(level: Option<Education.Degree>): string
  {
    Part(level.Some?, if level.Some? then EducationBody(level.value.Label()) else "")
  }

  /** The sentences that apply, in fixed order. */
  function Sentences(years: Option<int>, seniority: Option<string>, skillsJson: Option<string>,
                     domain: Option<Domain>, level: Option<Education.Degree>): string
  {
    ExperiencePart(years) + SeniorityPart(seniority) + SkillsPart(skillsJson) + DomainPart(domain) + EducationPart(level)
  }

  /** The summary: the sentences that apply, trimmed. */
  function SummaryOf(years: Option<int>, seniority: Option<string>, skillsJson: Option<string>,
                     domain: Option<Domain>, level: Option<Education.Degree>): string
  {
    Trim(Sentences(years, seniority, skillsJson, domain, level))
  }

  /** The summary `generateSummary` stores, with the domain and level detected in `text`. */
  function SummaryText(years: Option<int>, seniority: Option<string>, skillsJson: Option<string>, text: string): string
  {
    SummaryOf(years, seniority, skillsJson, DomainOf(text), EducationLevel(text))
  }

  /** A part is either empty or a whole sentence, which holds a character `trim()` keeps. */
  lemma PartShape(present: bool, body: string)
    ensures All(Part(present, body), IsTrimmable) <==> !present
  {
    if present { assert Part(present, body)[|body|] == '.'; }
  }

  /** Every character of a concatenation is strippable exactly when every character of both halves is. */
  lemma AllSplit(a: string, b: string)
    ensures All(a + b, IsTrimmable) <==> All(a, IsTrimmable) && All(b, IsTrimmable)
  {
    if All(a + b, IsTrimmable) {
      forall i | 0 <= i < |a| ensures IsTrimmable(a[i]) { assert a[i] == (a + b)[i]; }
      forall i | 0 <= i < |b| ensures IsTrimmable(b[i]) { assert b[i] == (a + b)[|a| + i]; }
    } else if All(a, IsTrimmable) && All(b, IsTrimmable) {
      AllConcat(a, b, IsTrimmable);
    }
  }

  /** A sentence is its words with the full stop, then a space. */
  lemma SentenceSplits(body: string)
    ensures Sentence(body) == (body + ".") + " "
  {
  }

  /** The summary is empty exactly when no sentence applies. */
  lemma SummaryEmptyIff(years: Option<int>, seniority: Option<string>, skillsJson: Option<string>,
                        domain: Option<Domain>, level: Option<Education.Degree>)
    ensures SummaryOf(years, seniority, skillsJson, domain, level) == "" <==>
      !HasExperience(years) && seniority.None? && !HasSkills(skillsJson) && domain.None? && level.None?
  {
    var e := ExperiencePart(years);
    var r := SeniorityPart(seniority);
    var k := SkillsPart(skillsJson);
    var d := DomainPart(domain);
    var l := EducationPart(level);
    PartShape(HasExperience(years), if HasExperience(years) then ExperienceBody(years.value) else "");
    PartShape(seniority.Some?, if seniority.Some? then SeniorityBody(seniority.value) else "");
    PartShape(HasSkills(skillsJson), if HasSkills(skillsJson) then SkillsBody(Skills.BraceCount(skillsJson.value)) else "");
    PartShape(domain.Some?, if domain.Some? then DomainBody(domain.value.Label()) else "");
    PartShape(level.Some?, if level.Some? then EducationBody(level.value.Label()) else "");
    AllSplit(e + r + k + d, l);
    AllSplit(e + r + k, d);
    AllSplit(e + r, k);
    AllSplit(e, r);
    TrimBlankIff(e + r + k + d + l);
  }

  /** A sentence whose words start with a character `trim()` keeps survives in the trimmed text, full stop included. */
  lemma SentenceKept(before: string, body: string, after: string)
    requires body != [] && !IsTrimmable(body[0])
    ensures Contains(Trim(before + Sentence(body) + after), body + ".")
  {
    var s := before + Sentence(body) + after;
    var w := body + ".";
    assert s[|before|..|before| + |w|] == w;
    assert w[|w| - 1] == '.';
    TrimKeepsInner(s, w, |before|);
  }

  /** When the years are positive, the summary opens with the experience sentence. */
  lemma SummaryOpensWithExperience(years: Option<int>, seniority: Option<string>, skillsJson: Option<string>,
                                   domain: Option<Domain>, level: Option<Education.Degree>)
    requires HasExperience(years)
    ensures StartsWith(SummaryOf(years, seniority, skillsJson, domain, level), ExperienceBody(years.value) + ".")
  {
    var body := ExperienceBody(years.value);
    var rest := SeniorityPart(seniority) + SkillsPart(skillsJson) + DomainPart(domain) + EducationPart(level);
    Regroup(ExperiencePart(years), SeniorityPart(seniority), SkillsPart(skillsJson), DomainPart(domain), EducationPart(level));
    BodiesOpenVisibly(years.value, 0, "", "");
    SentenceOpens(body, rest);
  }

  /** The five parts of a summary, grouped around its first or second part. */
  lemma Regroup(a: string, b: string, c: string, d: string, e: string)
    ensures a + b + c + d + e == a + (b + c + d + e)
    ensures a + b + c + d + e == a + b + (c + d + e)
    ensures a + b + c + d + e == a + b + c + (d + e)
    ensures a + b + c + d + e == (a + b) + c + (d + e)
  {
  }

  /** A sentence at the front, whose words start with a character `trim()` keeps, opens the trimmed text. */
  lemma SentenceOpens(body: string, rest: string)
    requires body != [] && !IsTrimmable(body[0])
    ensures StartsWith(Trim(Sentence(body) + rest), body + ".")
  {
    var s := Sentence(body) + rest;
    var w := body + ".";
    assert s[..|w|] == w;
    assert w[0] == body[0] && w[|w| - 1] == '.';
    TrimKeepsPrefix(s, w);
  }

  /** When an education level is found, the summary closes with the degree sentence. */
  lemma SummaryClosesWithEducation(years: Option<int>, seniority: Option<string>, skillsJson: Option<string>,
                                   domain: Option<Domain>, level: Option<Education.Degree>)
    requires level.Some?
    ensures EndsWith(SummaryOf(years, seniority, skillsJson, domain, level), EducationBody(level.value.Label()) + ".")
  {
    var body := EducationBody(level.value.Label());
    var front := ExperiencePart(years) + SeniorityPart(seniority) + SkillsPart(skillsJson) + DomainPart(domain);
    var w := body + ".";
    SentenceSplits(body);
    AppendAssoc(front, w, " ");
    BodiesOpenVisibly(0, 0, "", level.value.Label());
    assert w[0] == body[0] && w[|w| - 1] == '.';
    TrimKeepsSuffix(front, w, " ");
  }

  /** The skills sentence reports the number of entries in the skills JSON. */
  lemma SummaryNamesSkillCount(years: Option<int>, seniority: Option<string>, skillsJson: Option<string>,
                               domain: Option<Domain>, level: Option<Education.Degree>)
    requires HasSkills(skillsJson)
    ensures Contains(SummaryOf(years, seniority, skillsJson, domain, level), SkillsBody(Skills.BraceCount(skillsJson.value)) + ".")
  {
    var body := SkillsBody(Skills.BraceCount(skillsJson.value));
    BodiesOpenVisibly(0, Skills.BraceCount(skillsJson.value), "", "");
    var before := ExperiencePart(years) + SeniorityPart(seniority);
    var after := DomainPart(domain) + EducationPart(level);
    Regroup(ExperiencePart(years), SeniorityPart(seniority), SkillsPart(skillsJson), DomainPart(domain), EducationPart(level));
    SentenceKept(before, body, after);
  }

  /** The domain sentence names the detected domain. */
  lemma SummaryNamesDomain(years: Option<int>, seniority: Option<string>, skillsJson: Option<string>,
                           domain: Option<Domain>, level: Option<Education.Degree>)
    requires domain.Some?
    ensures Contains(SummaryOf(years, seniority, skillsJson, domain, level), DomainBody(domain.value.Label()) + ".")
  {
    var body := DomainBody(domain.value.Label());
    BodiesOpenVisibly(0, 0, domain.value.Label(), "");
    var before := ExperiencePart(years) + SeniorityPart(seniority) + SkillsPart(skillsJson);
    SentenceKept(before, body, EducationPart(level));
  }

  /** The seniority sentence carries the stored label, when that label starts with a character `trim()` keeps. */
  lemma SummaryNamesSeniority(years: Option<int>, seniority: Option<string>, skillsJson: Option<string>,
                              domain: Option<Domain>, level: Option<Education.Degree>)
    requires seniority.Some? && seniority.value != [] && !IsTrimmable(seniority.value[0])
    ensures Contains(SummaryOf(years, seniority, skillsJson, domain, level), SeniorityBody(seniority.value) + ".")
  {
    var body := SeniorityBody(seniority.value);
    assert body[0] == seniority.value[0];
    var before := ExperiencePart(years);
    var after := SkillsPart(skillsJson) + DomainPart(domain) + EducationPart(level);
    Regroup(before, SeniorityPart(seniority), SkillsPart(skillsJson), DomainPart(domain), EducationPart(level));
    SentenceKept(before, body, after);
  }

  /** `generateSummary`: builds the sentences in order and stores the trimmed text. */
  method GenerateSummary(resume: Resume, text: string)
    modifies resume`summary
    ensures resume.summary == Some(SummaryText(resume.totalExperienceYears, resume.seniority, resume.skillsJson, text))
  {
    var summary := ComputeSummary(resume.totalExperienceYears, resume.seniority, resume.skillsJson, text);
    resume.summary := Some(summary);
  }

  /** The text `generateSummary` stores, from the fields it reads and the resume text. */
  method ComputeSummary(years: Option<int>, seniority: Option<string>, skillsJson: Option<string>, text: string)
    returns (summary: string)
    ensures summary == SummaryText(years, seniority, skillsJson, text)
  {
    var domainExpertise := DomainOf(text);
    var educationLevel := EducationLevel(text);
    summary := BuildSummary(years, seniority, skillsJson, domainExpertise, educationLevel);
  }

  /** One guarded `append(body).append(". ")` of `generateSummary`. */
  method AppendPart(summary: string, present: bool, body: string) returns (r: string)
    ensures r == summary + Part(present, body)
  {
    r := summary;
    if present {
      r := r + body + ". ";
    }
  }

  /** The appends of `generateSummary`, once the domain and level are known. */
  method AppendSentences(years: Option<int>, seniority: Option<string>, skillsJson: Option<string>,
                         domain: Option<Domain>, level: Option<Education.Degree>) returns (summary: string)
    ensures summary == Sentences(years, seniority, skillsJson, domain, level)
  {
    summary := "";
    summary := AppendPart(summary, HasExperience(years), if HasExperience(years) then ExperienceBody(years.value) else "");
    assert summary == ExperiencePart(years);
    summary := AppendPart(summary, seniority.Some?, if seniority.Some? then SeniorityBody(seniority.value) else "");
    assert summary == ExperiencePart(years) + SeniorityPart(seniority);
    summary := AppendPart(summary, HasSkills(skillsJson),
      if HasSkills(skillsJson) then SkillsBody(Skills.BraceCount(skillsJson.value)) else "");
    assert summary == ExperiencePart(years) + SeniorityPart(seniority) + SkillsPart(skillsJson);
    summary := AppendPart(summary, domain.Some?, if domain.Some? then DomainBody(domain.value.Label()) else "");
    assert summary == ExperiencePart(years) + SeniorityPart(seniority) + SkillsPart(skillsJson) + DomainPart(domain);
    summary := AppendPart(summary, level.Some?, if level.Some? then EducationBody(level.value.Label()) else "");
  }

  /** The summary `generateSummary` builds, once the domain and level are known: the sentences, trimmed. */
  method BuildSummary(years: Option<int>, seniority: Option<string>, skillsJson: Option<string>,
                      domain: Option<Domain>, level: Option<Education.Degree>) returns (result: string)
    ensures result == SummaryOf(years, seniority, skillsJson, domain, level)
  {
    var summary := AppendSentences(years, seniority, skillsJson, domain, level);
    result := Trim(summary);
  }

  // ---------------------------------------------------------------------
  // `generateDetailedSummary`
  // ---------------------------------------------------------------------

  /** The words naming the candidate's field: the lower-cased domain, or "technology" when none is detected. */
  function FieldWords(domain: Option<Domain>): string
  {
    if domain.Some? then Lower(domain.value.Label()) else "technology"
  }

  /** The fallback words are used exactly when no domain is detected. */
  lemma FieldWordsFallback(domain: Option<Domain>)
    ensures FieldWords(domain) == "technology" <==> domain.None?
    ensures FieldWords(domain) != [] && !IsTrimmable(FieldWords(domain)[0])
  {
    if domain.Some? {
      var name := domain.value.Label();
      assert |name| != 10 && !IsTrimmable(name[0]) by { match domain.value { case _ => } }
      assert |FieldWords(domain)| == |name|;
      assert FieldWords(domain)[0] == LowerChar(name[0]);
    }
  }

  function NamePart(fullName: Option<string>): string { if fullName.Some? then fullName.value + " is a " else "" }
  function SeniorityWords(seniority: Option<string>): string { if seniority.Some? then Lower(seniority.value) + " " else "" }
  function FieldPart(field: string): string { field + " professional " }

  function YearsPart(years: Option<int>): string
  {
    if HasExperience(years) then "with " + NatToString(years.value) + " years of experience. " else ""
  }

  function ProficiencyPart(skillsJson: Option<string>): string
  {
    if HasSkills(skillsJson) then
      "Demonstrates proficiency in " + NatToString(Skills.BraceCount(skillsJson.value)) + " technologies " + "spanning multiple technical domains. "
    else ""
  }

  /** The detailed summary: name, seniority, field, years and skill count, trimmed. */
  function DetailedOf(fullName: Option<string>, seniority: Option<string>, years: Option<int>, skillsJson: Option<string>,
                      field: string): string
  {
    Trim(NamePart(fullName) + SeniorityWords(seniority) + FieldPart(field) + YearsPart(years) + ProficiencyPart(skillsJson))
  }

  /** The detailed summary `generateDetailedSummary` returns, with the domain detected in `text`. */
  function DetailedSummary(fullName: Option<string>, seniority: Option<string>, years: Option<int>, skillsJson: Option<string>, text: string): string
  {
    DetailedOf(fullName, seniority, years, skillsJson, FieldWords(DomainOf(text)))
  }

  /** A phrase followed by a space, with visible first and last characters, survives trimming. */
  lemma PhraseKept(before: string, w: string, after: string)
    requires w != [] && !IsTrimmable(w[0]) && !IsTrimmable(w[|w| - 1])
    ensures Contains(Trim(before + (w + " ") + after), w)
  {
    var s := before + (w + " ") + after;
    assert s[|before|..|before| + |w|] == w;
    TrimKeepsInner(s, w, |before|);
  }

  /** The detailed summary always names the field, "technology" when no domain is detected, followed by "professional". */
  lemma DetailedNamesField(fullName: Option<string>, seniority: Option<string>, years: Option<int>, skillsJson: Option<string>,
                           domain: Option<Domain>)
    ensures Contains(DetailedOf(fullName, seniority, years, skillsJson, FieldWords(domain)), FieldWords(domain) + " professional")
  {
    var field := FieldWords(domain);
    var w := field + " professional";
    FieldWordsFallback(domain);
    assert w[0] == field[0] && w[|w| - 1] == 'l';
    assert FieldPart(field) == w + " ";
    var before := NamePart(fullName) + SeniorityWords(seniority);
    var after := YearsPart(years) + ProficiencyPart(skillsJson);
    Regroup(NamePart(fullName), SeniorityWords(seniority), FieldPart(field), YearsPart(years), ProficiencyPart(skillsJson));
    PhraseKept(before, w, after);
  }

  lemma AppendAssoc(a: string, b: string, c: string)
    ensures a + b + c == a + (b + c)
  {
  }

  /** `generateDetailedSummary`; it changes nothing. */
  method GenerateDetailedSummary(resume: Resume, text: string) returns (detailed: string)
    ensures detailed == DetailedSummary(resume.fullName, resume.seniority, resume.totalExperienceYears, resume.skillsJson, text)
  {
    var domain := DomainOf(text);
    var field := if domain.Some? then Lower(domain.value.Label()) else "technology";
    detailed := BuildDetailed(resume.fullName, resume.seniority, resume.totalExperienceYears, resume.skillsJson, field);
  }

  /** The appends of `generateDetailedSummary`, once the words naming the field are known. */
  method BuildDetailed(fullName: Option<string>, seniority: Option<string>, years: Option<int>, skillsJson: Option<string>,
                       field: string) returns (result: string)
    ensures result == DetailedOf(fullName, seniority, years, skillsJson, field)
  {
    var detailed := "";
    if fullName.Some? {
      detailed := detailed + (fullName.value + " is a ");
    }
    assert detailed == NamePart(fullName);
    ghost var seen := detailed;
    if seniority.Some? {
      detailed := detailed + (Lower(seniority.value) + " ");
    }
    assert detailed == seen + SeniorityWords(seniority);
    seen := detailed;
    detailed := detailed + (field + " professional ");
    assert detailed == seen + FieldPart(field);
    seen := detailed;
    if years.Some? && years.value > 0 {
      detailed := detailed + ("with " + NatToString(years.value) + " years of experience. ");
    }
    assert detailed == seen + YearsPart(years);
    seen := detailed;
    if skillsJson.Some? && skillsJson.value != "[]" {
      var skillCount := Skills.BraceCount(skillsJson.value);
      detailed := detailed + ("Demonstrates proficiency in " + NatToString(skillCount) + " technologies ");
      detailed := detailed + "spanning multiple technical domains. ";
      AppendAssoc(seen, "Demonstrates proficiency in " + NatToString(skillCount) + " technologies ", "spanning multiple technical domains. ");
    }
    assert detailed == seen + ProficiencyPart(skillsJson);
    result := Trim(detailed);
  }

  // ---------------------------------------------------------------------
  // `calculateOverallScore`, in hundredths
  // ---------------------------------------------------------------------

  function IntMin(a: int, b: int): int { if a <= b then a else b }

  /** Five hundredths a year, at most thirty; negative years count against the score. */
  function ExperiencePoints(years: Option<int>): int
  {
    if years.Some? then IntMin(5 * years.value, 30) else 0
  }

  /** Two hundredths per skill entry, at most forty. */
  function SkillPoints(skillsJson: Option<string>): nat
  {
    if HasSkills(skillsJson) then Min(2 * Skills.BraceCount(skillsJson.value), 40) else 0
  }

  function EducationPoints(level: Option<Education.Degree>): nat
  {
    if level == Some(Education.PhdDoctorate) then 20
    else if level == Some(Education.Masters) then 15
    else if level == Some(Education.Bachelors) then 10
    else 5
  }

  /** Two hundredths for each contact field that is filled in. */
  function CompletenessPoints(fullName: Option<string>, email: Option<string>, phone: Option<string>, linkedin: Option<string>, github: Option<string>): nat
  {
    (if fullName.Some? then 2 else 0) + (if email.Some? then 2 else 0) + (if phone.Some? then 2 else 0) +
    (if linkedin.Some? then 2 else 0) + (if github.Some? then 2 else 0)
  }

  function OverallScore(resume: Resume, text: string): int
    reads resume
  {
    IntMin(100, ExperiencePoints(resume.totalExperienceYears) + SkillPoints(resume.skillsJson) + EducationPoints(EducationLevel(text)) +
      CompletenessPoints(resume.fullName, resume.email, resume.phoneNumber, resume.linkedinUrl, resume.githubUrl))
  }

  /**
   * Each component stays under its weight (30, 40, 20, 10), so with
   * non-negative years the total lies between 0.05 and 1.00 and the final
   * cap never cuts anything off.
   */
  lemma OverallScoreRange(resume: Resume, text: string)
    requires resume.totalExperienceYears.Some? ==> resume.totalExperienceYears.value >= 0
    ensures 5 <= OverallScore(resume, text) <= 100
    ensures OverallScore(resume, text) == ExperiencePoints(resume.totalExperienceYears) + SkillPoints(resume.skillsJson) +
      EducationPoints(EducationLevel(text)) + CompletenessPoints(resume.fullName, resume.email, resume.phoneNumber, resume.linkedinUrl, resume.githubUrl)
  {
  }

  /** `calculateOverallScore`; it changes nothing. */
  method CalculateOverallScore(resume: Resume, text: string) returns (score: int)
    ensures score == OverallScore(resume, text)
  {
    score := 0;
    if resume.totalExperienceYears.Some? {
      score := score + IntMin(5 * resume.totalExperienceYears.value, 30);
    }
    var skillsJson := resume.skillsJson;
    if skillsJson.Some? && skillsJson.value != "[]" {
      var skillCount := Skills.BraceCount(skillsJson.value);
      score := score + Min(2 * skillCount, 40);
    }
    var educationLevel := EducationLevel(text);
    score := score + EducationPoints(educationLevel);
    var completeness := 0;
    if resume.fullName.Some? { completeness := completeness + 2; }
    if resume.email.Some? { completeness := completeness + 2; }
    if resume.phoneNumber.Some? { completeness := completeness + 2; }
    if resume.linkedinUrl.Some? { completeness := completeness + 2; }
    if resume.githubUrl.Some? { completeness := completeness + 2; }
    score := score + completeness;
    score := IntMin(score, 100);
  }
}
