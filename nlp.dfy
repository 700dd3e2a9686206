/**
 * The orchestrator: the order in which the stages fill a résumé, the early
 * return on a blank text, and the skill match against a list of required
 * skills.
 */
module Nlp {
  import opened Strings
  import opened ResumeModel
  import TextPreProcessor
  import PersonalInfo
  import Skills
  import Experience
  import Education
  import Summary

  // ---------------------------------------------------------------------
  // `processResume`
  // ---------------------------------------------------------------------

  /** A text the pipeline works on: present and not blank. */
  predicate Processable(text: Option<string>) { text.Some? && !IsBlank(text.value) }

  /** The first stages: the cleaned text is stored and the personal details are extracted from it. */
  method StoreAndExtractPersonal(resume: Resume, cleaned: string, emailFinder: PersonalInfo.Finder, phoneFinder: PersonalInfo.Finder)
    modifies resume`processedText, resume`email, resume`phoneNumber, resume`linkedinUrl, resume`githubUrl, resume`fullName
    ensures PersonalFields(resume.processedText, resume.email, resume.phoneNumber, resume.linkedinUrl, resume.githubUrl, resume.fullName) ==
      PersonalFields(Some(cleaned),
        PersonalInfo.FillIfNull(old(resume.email), PersonalInfo.Found(emailFinder, cleaned)),
        PersonalInfo.FillIfNull(old(resume.phoneNumber), PersonalInfo.Found(phoneFinder, cleaned)),
        PersonalInfo.FillIfNull(old(resume.linkedinUrl), PersonalInfo.FoundUrl(PersonalInfo.LinkedInHost, cleaned)),
        PersonalInfo.FillIfNull(old(resume.githubUrl), PersonalInfo.FoundUrl(PersonalInfo.GitHubHost, cleaned)),
        PersonalInfo.FillIfNull(PersonalInfo.FillIfNull(old(resume.fullName), PersonalInfo.NameFromFirstLines(cleaned)),
          PersonalInfo.NameFromText(cleaned)))
  {
    resume.processedText := Some(cleaned);
    PersonalInfo.ExtractPersonalInfo(resume, cleaned, emailFinder, phoneFinder);
  }

  /**
   * The later stages: skills, experience, education and summary, in that
   * order, so the summary sees the years, seniority and skills just set.
   */
  method ExtractProfile(resume: Resume, cleaned: string, currentYear: int)
    modifies resume`skillsJson, resume`totalExperienceYears, resume`seniority, resume`summary
    ensures resume.skillsJson == Some(Skills.SkillsJson(cleaned))
    ensures resume.totalExperienceYears == Some(Experience.ExperienceYears(cleaned, currentYear))
    ensures resume.seniority == Some(Experience.SeniorityOf(Experience.ExperienceYears(cleaned, currentYear)).Label())
    ensures resume.summary == Some(Summary.SummaryText(resume.totalExperienceYears, resume.seniority, resume.skillsJson, cleaned))
    ensures PersonalFields(resume.processedText, resume.email, resume.phoneNumber, resume.linkedinUrl, resume.githubUrl, resume.fullName) ==
      old(PersonalFields(resume.processedText, resume.email, resume.phoneNumber, resume.linkedinUrl, resume.githubUrl, resume.fullName))
  {
    // Snapshots of the fields each later call leaves alone, asserted after
    // it, keep the frame reasoning to one call at a time.
    ghost var personal := PersonalFields(resume.processedText, resume.email, resume.phoneNumber, resume.linkedinUrl, resume.githubUrl, resume.fullName);
    Skills.ExtractSkills(resume, cleaned);
    assert PersonalFields(resume.processedText, resume.email, resume.phoneNumber, resume.linkedinUrl, resume.githubUrl, resume.fullName) == personal;
    ghost var json := resume.skillsJson;
    Experience.CalculateExperience(resume, cleaned, currentYear);
    assert PersonalFields(resume.processedText, resume.email, resume.phoneNumber, resume.linkedinUrl, resume.githubUrl, resume.fullName) == personal;
    assert resume.skillsJson == json;
    ghost var experience := (resume.totalExperienceYears, resume.seniority);
    var educationInfo := Education.ExtractEducation(resume, cleaned);
    assert PersonalFields(resume.processedText, resume.email, resume.phoneNumber, resume.linkedinUrl, resume.githubUrl, resume.fullName) == personal;
    Summary.GenerateSummary(resume, cleaned);
    assert resume.skillsJson == json;
    assert (resume.totalExperienceYears, resume.seniority) == experience;
  }

  /** The résumé fields the personal stage fills, in one value. */
  datatype PersonalFields = PersonalFields(processedText: Option<string>, email: Option<string>, phoneNumber: Option<string>,
    linkedinUrl: Option<string>, githubUrl: Option<string>, fullName: Option<string>)

  /** The résumé fields the profile stages fill, in one value. */
  datatype ProfileFields = ProfileFields(skillsJson: Option<string>, totalExperienceYears: Option<int>,
    seniority: Option<string>, summary: Option<string>)

  /** The résumé fields no stage touches, in one value. */
  datatype OtherFields = OtherFields(originalText: Option<string>, address: Option<string>, skillMatchScore: Option<real>,
    skillExtractions: Option<seq<SkillExtraction>>, experienceExtractions: Option<seq<ExperienceExtraction>>,
    educationExtractions: Option<seq<EducationExtraction>>)

  /**
   * All the stages, run on the cleaned text, in order; the summary sees the
   * years, seniority and skills set just before it, and the fields no stage
   * writes are left alone.
   */
  method RunStages(resume: Resume, cleaned: string, emailFinder: PersonalInfo.Finder, phoneFinder: PersonalInfo.Finder, currentYear: int)
    modifies resume`processedText, resume`email, resume`phoneNumber, resume`linkedinUrl, resume`githubUrl, resume`fullName
    modifies resume`skillsJson, resume`totalExperienceYears, resume`seniority, resume`summary
    ensures PersonalFields(resume.processedText, resume.email, resume.phoneNumber, resume.linkedinUrl, resume.githubUrl, resume.fullName) ==
      PersonalFields(Some(cleaned),
        PersonalInfo.FillIfNull(old(resume.email), PersonalInfo.Found(emailFinder, cleaned)),
        PersonalInfo.FillIfNull(old(resume.phoneNumber), PersonalInfo.Found(phoneFinder, cleaned)),
        PersonalInfo.FillIfNull(old(resume.linkedinUrl), PersonalInfo.FoundUrl(PersonalInfo.LinkedInHost, cleaned)),
        PersonalInfo.FillIfNull(old(resume.githubUrl), PersonalInfo.FoundUrl(PersonalInfo.GitHubHost, cleaned)),
        PersonalInfo.FillIfNull(PersonalInfo.FillIfNull(old(resume.fullName), PersonalInfo.NameFromFirstLines(cleaned)),
          PersonalInfo.NameFromText(cleaned)))
    ensures ProfileFields(resume.skillsJson, resume.totalExperienceYears, resume.seniority, resume.summary) ==
      ProfileFields(Some(Skills.SkillsJson(cleaned)),
        Some(Experience.ExperienceYears(cleaned, currentYear)),
        Some(Experience.SeniorityOf(Experience.ExperienceYears(cleaned, currentYear)).Label()),
        Some(Summary.SummaryText(resume.totalExperienceYears, resume.seniority, resume.skillsJson, cleaned)))
  {
    StoreAndExtractPersonal(resume, cleaned, emailFinder, phoneFinder);
    ExtractProfile(resume, cleaned, currentYear);
  }

  /** The text the stages run on, or `None` for the early return on a null or blank text. */
  function CleanedText(text: Option<string>): (r: Option<string>)
  {
    if text.None? || IsBlank(text.value) then None else Some(TextPreProcessor.PreprocessText(text))
  }

  /** The early return is taken exactly on a null or blank text. */
  lemma CleanedTextPresent(text: Option<string>)
    ensures CleanedText(text).None? <==> !Processable(text)
  {
  }

  /**
   * `processResume`. A null or blank text leaves the résumé as it was;
   * otherwise the stages run on the cleaned text. The two contact regexes are
   * the finders; the clock is `currentYear`.
   */
  method ProcessResume(resume: Resume, emailFinder: PersonalInfo.Finder, phoneFinder: PersonalInfo.Finder, currentYear: int)
    modifies resume
    ensures CleanedText(old(resume.originalText)).None? ==> unchanged(resume)
    ensures CleanedText(old(resume.originalText)).Some? ==>
      var cleaned := CleanedText(old(resume.originalText)).value;
      && PersonalFields(resume.processedText, resume.email, resume.phoneNumber, resume.linkedinUrl, resume.githubUrl, resume.fullName) ==
         PersonalFields(Some(cleaned),
           PersonalInfo.FillIfNull(old(resume.email), PersonalInfo.Found(emailFinder, cleaned)),
           PersonalInfo.FillIfNull(old(resume.phoneNumber), PersonalInfo.Found(phoneFinder, cleaned)),
           PersonalInfo.FillIfNull(old(resume.linkedinUrl), PersonalInfo.FoundUrl(PersonalInfo.LinkedInHost, cleaned)),
           PersonalInfo.FillIfNull(old(resume.githubUrl), PersonalInfo.FoundUrl(PersonalInfo.GitHubHost, cleaned)),
           PersonalInfo.FillIfNull(PersonalInfo.FillIfNull(old(resume.fullName), PersonalInfo.NameFromFirstLines(cleaned)),
             PersonalInfo.NameFromText(cleaned)))
      && ProfileFields(resume.skillsJson, resume.totalExperienceYears, resume.seniority, resume.summary) ==
         ProfileFields(Some(Skills.SkillsJson(cleaned)),
           Some(Experience.ExperienceYears(cleaned, currentYear)),
           Some(Experience.SeniorityOf(Experience.ExperienceYears(cleaned, currentYear)).Label()),
           Some(Summary.SummaryText(resume.totalExperienceYears, resume.seniority, resume.skillsJson, cleaned)))
    ensures OtherFields(resume.originalText, resume.address, resume.skillMatchScore, resume.skillExtractions,
      resume.experienceExtractions, resume.educationExtractions) ==
      old(OtherFields(resume.originalText, resume.address, resume.skillMatchScore, resume.skillExtractions,
      resume.experienceExtractions, resume.educationExtractions))
  {
    var cleaned := CleanedText(resume.originalText);
    if cleaned.None? {
      return;
    }
    RunStages(resume, cleaned.value, emailFinder, phoneFinder, currentYear);
  }

  /** Every seniority levelName starts with a letter. */
  lemma SeniorityLabelVisible(s: Experience.Seniority)
    ensures s.Label() != [] && !IsTrimmable(s.Label()[0])
  {
    match s { case _ => }
  }

  /**
   * After processing, the summary is never empty: the seniority is always
   * set, so its sentence is always there, naming the level.
   */
  lemma ProcessedSummaryNamesSeniority(cleaned: string, currentYear: int)
    ensures var years := Experience.ExperienceYears(cleaned, currentYear);
      var levelName := Experience.SeniorityOf(years).Label();
      var summary := Summary.SummaryText(Some(years), Some(levelName), Some(Skills.SkillsJson(cleaned)), cleaned);
      summary != "" && Contains(summary, Summary.SeniorityBody(levelName) + ".")
  {
    var years := Experience.ExperienceYears(cleaned, currentYear);
    var levelName := Experience.SeniorityOf(years).Label();
    SeniorityLabelVisible(Experience.SeniorityOf(years));
    Summary.SummaryEmptyIff(Some(years), Some(levelName), Some(Skills.SkillsJson(cleaned)), Summary.DomainOf(cleaned), Summary.EducationLevel(cleaned));
    Summary.SummaryNamesSeniority(Some(years), Some(levelName), Some(Skills.SkillsJson(cleaned)), Summary.DomainOf(cleaned), Summary.EducationLevel(cleaned));
  }

  /**
   * The cleaned text is one line, so the education scan inside the pipeline
   * captures at most one entry: the whole text, trimmed.
   */
  lemma EducationSeesOneLine(text: Option<string>)
    ensures var cleaned := TextPreProcessor.PreprocessText(text);
      var lines := SplitLines(cleaned);
      var found := Education.EducationLines(Education.EducationRules, lines, |lines|);
      |found| <= 1 && (found != [] ==> found == [Trim(cleaned)])
  {
    TextPreProcessor.PreprocessSingleLine(text);
    var cleaned := TextPreProcessor.PreprocessText(text);
    assert SplitLines(cleaned) == [cleaned];
    var lines := [cleaned];
    assert Education.EducationLines(Education.EducationRules, lines, 0) == [];
  }

  // ---------------------------------------------------------------------
  // `calculateSkillMatch` and `calculateBasicSkillConfidence`
  // ---------------------------------------------------------------------

  /** "experience" directly before or after the skill, ignoring case. */
  predicate ExperienceAdjacent(text: string, skill: string)
  {
    Contains(Lower(text), "experience " + Lower(skill)) || Contains(Lower(text), Lower(skill) + " experience")
  }

  /** `calculateBasicSkillConfidence`, in tenths: 0.6, plus 0.2 next to "experience", capped at 1.0. */
  function BasicConfidenceTenths(text: string, skill: string): nat
  {
    Min(10, 6 + (if ExperienceAdjacent(text, skill) then 2 else 0))
  }

  /** The confidence is 0.6 or 0.8, the latter exactly next to "experience"; the cap never applies. */
  lemma BasicConfidenceValues(text: string, skill: string)
    ensures BasicConfidenceTenths(text, skill) == 6 || BasicConfidenceTenths(text, skill) == 8
    ensures BasicConfidenceTenths(text, skill) == 8 <==> ExperienceAdjacent(text, skill)
  {
  }

  /** What one required skill adds to the total, in tenths: nothing when absent, else its basic confidence. */
  function SkillContribution(text: string, skill: string): nat
  {
    if Skills.IsSkillPresentInContext(Lower(text), Lower(skill)) then BasicConfidenceTenths(text, skill) else 0
  }

  /** The sum of the contributions, in tenths. */
  function TotalTenths(text: string, skills: seq<string>): nat
  {
    if skills == [] then 0
    else TotalTenths(text, skills[..|skills| - 1]) + SkillContribution(text, skills[|skills| - 1])
  }

  /** The skill match: 0 for a null or empty list, else the mean contribution. */
  function SkillMatch(text: string, requiredSkills: Option<seq<string>>): real
  {
    if requiredSkills.None? || requiredSkills.value == [] then 0.0
    else (TotalTenths(text, requiredSkills.value) as real) / (10.0 * (|requiredSkills.value| as real))
  }

  /** Each skill adds at most eight tenths, and exactly eight when every skill sits next to "experience". */
  lemma {:induction false} TotalTenthsBounds(text: string, skills: seq<string>)
    ensures TotalTenths(text, skills) <= 8 * |skills|
    ensures (forall k :: 0 <= k < |skills| ==> !Skills.IsSkillPresentInContext(Lower(text), Lower(skills[k]))) ==> TotalTenths(text, skills) == 0
    ensures (forall k :: 0 <= k < |skills| ==> Skills.IsSkillPresentInContext(Lower(text), Lower(skills[k])) && ExperienceAdjacent(text, skills[k])) ==>
      TotalTenths(text, skills) == 8 * |skills|
    decreases |skills|
  {
    if skills != [] {
      var init := skills[..|skills| - 1];
      TotalTenthsBounds(text, init);
      assert forall k :: 0 <= k < |init| ==> init[k] == skills[k];
      BasicConfidenceValues(text, skills[|skills| - 1]);
    }
  }

  /** Every required skill is present and sits next to "experience". */
  predicate AllNextToExperience(text: string, skills: seq<string>)
  {
    forall k :: 0 <= k < |skills| ==>
      Skills.IsSkillPresentInContext(Lower(text), Lower(skills[k])) && ExperienceAdjacent(text, skills[k])
  }

  /** A total of at most eight tenths per skill gives a mean between 0 and 0.8. */
  lemma MeanAtMostEightTenths(total: real, n: real)
    requires n > 0.0 && 0.0 <= total <= 8.0 * n
    ensures 0.0 <= total / (10.0 * n) <= 0.8
  {
    var d := 10.0 * n;
    var q := total / d;
    assert q * d == total;
    if q > 0.8 {
      assert q * d > 0.8 * d;
    }
  }

  /** Eight tenths per skill give a mean of exactly 0.8. */
  lemma MeanExactlyEightTenths(n: real)
    requires n > 0.0
    ensures (8.0 * n) / (10.0 * n) == 0.8
  {
    assert 0.8 * (10.0 * n) == 8.0 * n;
  }

  /** The match lies between 0 and 0.8. */
  lemma SkillMatchRange(text: string, requiredSkills: Option<seq<string>>)
    ensures 0.0 <= SkillMatch(text, requiredSkills) <= 0.8
  {
    if requiredSkills.Some? && requiredSkills.value != [] {
      var skills := requiredSkills.value;
      TotalTenthsBounds(text, skills);
      MeanAtMostEightTenths(TotalTenths(text, skills) as real, |skills| as real);
    }
  }

  /** The match is exactly 0.8 when every required skill is present next to "experience". */
  lemma SkillMatchAllNextToExperience(text: string, skills: seq<string>)
    requires skills != [] && AllNextToExperience(text, skills)
    ensures SkillMatch(text, Some(skills)) == 0.8
  {
    TotalTenthsBounds(text, skills);
    MeanExactlyEightTenths(|skills| as real);
  }

  /**
   * `calculateSkillMatch`. It reads the original, uncleaned text; with a
   * non-empty list the source dereferences that text, so it must be present.
   */
  method CalculateSkillMatch(resume: Resume, requiredSkills: Option<seq<string>>) returns (score: real)
    requires requiredSkills.Some? && requiredSkills.value != [] ==> resume.originalText.Some?
    ensures requiredSkills.None? || requiredSkills.value == [] ==> score == 0.0
    ensures requiredSkills.Some? && requiredSkills.value != [] ==> score == SkillMatch(resume.originalText.value, requiredSkills)
  {
    if requiredSkills.None? || requiredSkills.value == [] {
      return 0.0;
    }
    var skills := requiredSkills.value;
    var original := resume.originalText.value;
    var resumeText := Lower(original);
    var totalScore: nat := 0;
    for i := 0 to |skills|
      invariant totalScore == TotalTenths(original, skills[..i])
    {
      var skill := skills[i];
      var lowerSkill := Lower(skill);
      if Skills.IsSkillPresentInContext(resumeText, lowerSkill) {
        var confidence := BasicConfidenceTenths(original, skill);
        totalScore := totalScore + confidence;
      }
      assert skills[..i + 1][..i] == skills[..i];
    }
    assert skills[..|skills|] == skills;
    score := (totalScore as real) / (10.0 * (|skills| as real));
  }
}
