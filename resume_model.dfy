/**
 * The fields of a résumé record that the analysis pipeline reads and writes.
 * Every nullable field is an `Option`; the three extraction lists are filled
 * elsewhere and only read here.
 */
module ResumeModel {
  import opened Strings

  /** A skill found in a résumé; only its name is read by the matcher. */
  datatype SkillExtraction = SkillExtraction(skillName: string, category: string)

  /** A job held; only its duration in months (nullable) is read. */
  datatype ExperienceExtraction = ExperienceExtraction(jobTitle: string, durationMonths: Option<int>)

  /** A degree held; only the presence of such records is read. */
  datatype EducationExtraction = EducationExtraction(degree: string, institution: Option<string>)

  class Resume {
    var originalText: Option<string>
    var processedText: Option<string>
    var fullName: Option<string>
    var email: Option<string>
    var phoneNumber: Option<string>
    var address: Option<string>
    var linkedinUrl: Option<string>
    var githubUrl: Option<string>
    var summary: Option<string>
    var skillsJson: Option<string>
    var totalExperienceYears: Option<int>
    var seniority: Option<string>
    var skillMatchScore: Option<real>
    var skillExtractions: Option<seq<SkillExtraction>>
    var experienceExtractions: Option<seq<ExperienceExtraction>>
    var educationExtractions: Option<seq<EducationExtraction>>

    /** A freshly uploaded résumé: only its text is known, every derived field is null. */
    constructor (text: Option<string>)
      ensures originalText == text
      ensures processedText.None? && fullName.None? && email.None? && phoneNumber.None?
      ensures address.None? && linkedinUrl.None? && githubUrl.None? && summary.None?
      ensures skillsJson.None? && totalExperienceYears.None? && seniority.None? && skillMatchScore.None?
      ensures skillExtractions.None? && experienceExtractions.None? && educationExtractions.None?
    {
      originalText := text;
      processedText := None;
      fullName := None;
      email := None;
      phoneNumber := None;
      address := None;
      linkedinUrl := None;
      githubUrl := None;
      summary := None;
      skillsJson := None;
      totalExperienceYears := None;
      seniority := None;
      skillMatchScore := None;
      skillExtractions := None;
      experienceExtractions := None;
      educationExtractions := None;
    }
  }
}
