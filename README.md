# Résumé analyser — a verified Dafny model

This project models the core of a résumé analyser in Dafny. The analyser has two parts.

- The parsing pipeline takes an uploaded résumé and fills in a `Resume` record, in order:
  - it extracts the text from the uploaded file;
  - it normalises that text;
  - it pulls out contact details and the candidate's name;
  - it finds catalogue skills and stores them as JSON, with a confidence for each;
  - it works out the years of experience and a seniority band;
  - it scans for education lines;
  - it writes a one-line summary.
- The ATS analysis ("applicant tracking system") compares a résumé with a job description. It finds the job's skills and keywords, splits them into matched and missing, computes a weighted score rounded to hundredths, and produces a list of recommendations and a feedback sentence.

The project has one module per source file:

| module | what it models |
|---|---|
| `Strings` | the Java string operations the code relies on (`toLowerCase`, `trim`, `contains`, `split`, `replace`, `\s+` rewriting), stated over `seq<char>` |
| `ResumeModel` | the `Resume` record as a `class`; every nullable field is an `Option` |
| `TextPreProcessor` | the text normaliser |
| `FileProcessor` | the file-type dispatch and the cleaning of extracted text |
| `PersonalInfo` | contact details and name |
| `Skills` | the skill catalogue, the confidence score and the skills JSON |
| `Experience` | year tokens, the explicit "N years experience" mention, the seniority band and the keyword probes |
| `Education` | the education line scan, highest degree, certifications, fields of study, institutions and the education score |
| `Summary` | the domain and education probes, the summary, the detailed summary and the overall score |
| `Nlp` | the orchestrator: stage order, the early return, and the skill match against required skills |
| `Ats` | the ATS analysis |

How the model is written:

- Code that updates the résumé in place is written as methods with `modifies resume`. Their `ensures` give the new value of every field they write.
- Loops are `while` or `for` loops with invariants. Each is proved against a specification function.
- The properties the code promises are lemmas about those functions:
  - partitions, order and membership of the lists it builds;
  - score ranges and monotonicity;
  - the shape of the texts it writes;
  - idempotence where it holds, and a counterexample where it does not.

Decimal scores are exact `real`s, or integer tenths and hundredths where the source adds fixed steps of 0.1 or 0.01.

## Model

| member | source | states |
|---|---|---|
| TextPreProcessor.SplitIntoLines | src/main/java/com/resumeanalyzer/nlp/processors/TextPreProcessor.java:37-39 | no piece of the split holds a line feed |
| TextPreProcessor.SplitIntoLinesSegments | src/main/java/com/resumeanalyzer/nlp/processors/TextPreProcessor.java:37-39 | the lines are the text's line-feed-separated segments: only empty trailing segments are dropped, as `split` with limit 0 does, and joining the lines with line feeds plus one line feed per dropped segment gives back the text |
| Strings.SplitRawJoin | src/main/java/com/resumeanalyzer/nlp/processors/TextPreProcessor.java:37-39 | joining the raw segments with the separator gives back the text, so the cut happens at every separator and nowhere else |
| Strings.SplitLinesDropsTrailingEmpty | src/main/java/com/resumeanalyzer/nlp/processors/TextPreProcessor.java:37-39 | the lines kept are the leading raw segments, every dropped segment is empty, and with a line feed present the last kept line is not empty |
| Strings.SplitLinesRoundTrip | src/main/java/com/resumeanalyzer/nlp/processors/TextPreProcessor.java:37-39 | the text is the lines joined with line feeds followed by one line feed per dropped empty segment |
| Strings.SplitLinesIsLineSplit | src/main/java/com/resumeanalyzer/nlp/processors/TextPreProcessor.java:37-39 | `split("\\n")` returns exactly the line-feed-separated segments with the trailing empty ones removed |
| TextPreProcessor.StripSymbolsShape | src/main/java/com/resumeanalyzer/nlp/processors/TextPreProcessor.java:14-21 | the eight range deletions leave only whitespace and kept characters, never lengthening the text |
| TextPreProcessor.CollapseStageShape | src/main/java/com/resumeanalyzer/nlp/processors/TextPreProcessor.java:24-26 | after the whitespace-run collapse only kept characters and single spaces remain, so the line-feed and carriage-return steps change nothing |
| TextPreProcessor.NormalizeWhitespaceShape | src/main/java/com/resumeanalyzer/nlp/processors/TextPreProcessor.java:24-27 | after the whitespace stage the text holds only kept characters, is trimmed and has no two adjacent spaces |
| TextPreProcessor.FinalCleanupShape | src/main/java/com/resumeanalyzer/nlp/processors/TextPreProcessor.java:30-32 | the final clean-up keeps only kept characters, never lengthens, and changes nothing when the mojibake cannot occur |
| TextPreProcessor.NormalizeWhitespaceFixpoint | src/main/java/com/resumeanalyzer/nlp/processors/TextPreProcessor.java:24-27 | trimmed, single-spaced text without control characters passes the whitespace stage unchanged |
| TextPreProcessor.PreprocessShrinks | src/main/java/com/resumeanalyzer/nlp/processors/TextPreProcessor.java:8-35 | the result is never longer than the input |
| TextPreProcessor.PreprocessBlank | src/main/java/com/resumeanalyzer/nlp/processors/TextPreProcessor.java:9-11 | a null or blank text gives "" |
| TextPreProcessor.PreprocessCharacters | src/main/java/com/resumeanalyzer/nlp/processors/TextPreProcessor.java:8-35 | the result holds no control character (no tab, line feed or carriage return) and none of the deleted ranges |
| TextPreProcessor.PreprocessSingleLine | src/main/java/com/resumeanalyzer/nlp/processors/TextPreProcessor.java:24-39 | the normalised text splits into exactly one line |
| TextPreProcessor.PreprocessShape | src/main/java/com/resumeanalyzer/nlp/processors/TextPreProcessor.java:8-35 | when the mojibake cannot occur the result is trimmed, single-spaced and uses only plain spaces |
| TextPreProcessor.PreprocessSpacing | src/main/java/com/resumeanalyzer/nlp/processors/TextPreProcessor.java:8-35 | when the mojibake cannot occur the result is trimmed, has no two adjacent spaces and does not contain 'ï' |
| TextPreProcessor.KeptBlanksArePlain | src/main/java/com/resumeanalyzer/nlp/processors/TextPreProcessor.java:8-35 | after the control-character deletions the only blank left is the plain space |
| TextPreProcessor.StripSymbolsFixpoint | src/main/java/com/resumeanalyzer/nlp/processors/TextPreProcessor.java:14-21 | text made of kept characters passes the range deletions unchanged |
| TextPreProcessor.PreprocessOfNormal | src/main/java/com/resumeanalyzer/nlp/processors/TextPreProcessor.java:8-35 | on normalised text only the final clean-up acts |
| TextPreProcessor.PreprocessFixpoint | src/main/java/com/resumeanalyzer/nlp/processors/TextPreProcessor.java:8-35 | normalised text without the mojibake's first character is its own normal form |
| TextPreProcessor.PreprocessIdempotent | src/main/java/com/resumeanalyzer/nlp/processors/TextPreProcessor.java:8-35 | normalising twice is normalising once, for text without the mojibake's first character |
| TextPreProcessor.FirstPass | src/main/java/com/resumeanalyzer/nlp/processors/TextPreProcessor.java:24-31 | two words around a space, the mojibake and a space normalise to the words around two spaces |
| TextPreProcessor.SecondPass | src/main/java/com/resumeanalyzer/nlp/processors/TextPreProcessor.java:24-27 | the words around two spaces normalise to the words around one |
| TextPreProcessor.PreprocessNotIdempotent | src/main/java/com/resumeanalyzer/nlp/processors/TextPreProcessor.java:24-31 | with the mojibake present, a second pass changes the result: the normaliser is not idempotent in general |
| TextPreProcessor.CleanLineShape | src/main/java/com/resumeanalyzer/nlp/processors/TextPreProcessor.java:41-43 | a cleaned line has no blank at either end, no two adjacent whitespace characters, and only plain spaces |
| TextPreProcessor.CleanLineFixpoint | src/main/java/com/resumeanalyzer/nlp/processors/TextPreProcessor.java:41-43 | a trimmed line with single plain spaces is its own clean form |
| TextPreProcessor.CleanLineIdempotent | src/main/java/com/resumeanalyzer/nlp/processors/TextPreProcessor.java:41-43 | cleaning a line twice is cleaning it once |
| ResumeModel.Resume.constructor | src/main/java/com/resumeanalyzer/model/Resume.java:16-68 | a new résumé holds only its text; every derived field is null |
| FileProcessor.ChooseExtractorFailures | src/main/java/com/resumeanalyzer/utils/FileProcessor.java:21-27 | a null name is rejected before an empty file, and the extractor is used exactly when the name is present and the file not empty |
| FileProcessor.ContentTypeBeforeSuffix | src/main/java/com/resumeanalyzer/utils/FileProcessor.java:30-33 | a content type containing "pdf" selects the PDF extractor whatever the name |
| FileProcessor.ExtractorAgreesWithSupport | src/main/java/com/resumeanalyzer/utils/FileProcessor.java:29-39 | every file the PDF or DOCX extractor receives is a supported type; an unsupported file that passes the checks is read as plain text |
| FileProcessor.PdfNameWithoutContentType | src/main/java/com/resumeanalyzer/utils/FileProcessor.java:30-38 | a name ending in ".pdf" counts as supported, but with no content type it is read as plain text |
| FileProcessor.NullNameUnsupported | src/main/java/com/resumeanalyzer/utils/FileProcessor.java:108 | a null file name is never supported |
| FileProcessor.StripPdfSymbolsShape | src/main/java/com/resumeanalyzer/utils/FileProcessor.java:70-76 | the range deletions leave no character of the five ranges and never lengthen the text |
| FileProcessor.CollapsePdfShape | src/main/java/com/resumeanalyzer/utils/FileProcessor.java:83 | collapsing whitespace runs keeps the ranges out and leaves whitespace only as plain spaces |
| FileProcessor.TrimPdfShape | src/main/java/com/resumeanalyzer/utils/FileProcessor.java:83 | the trim leaves no leading or trailing blank and keeps the output shape |
| FileProcessor.CleanPdfCollapsed | src/main/java/com/resumeanalyzer/utils/FileProcessor.java:70-83 | the stages before the trim keep the deleted ranges out and never lengthen the text |
| FileProcessor.CleanPdfTextShape | src/main/java/com/resumeanalyzer/utils/FileProcessor.java:66-86 | the cleaned text has none of the deleted ranges, whitespace only as single spaces, no line feed, no blank at either end, is never longer than the input, and a null text gives "" |
| FileProcessor.ExtractedTextTrimmed | src/main/java/com/resumeanalyzer/utils/FileProcessor.java:45-105 | the text every extractor returns has no leading or trailing blank |
| Nlp.StoreAndExtractPersonal | src/main/java/com/resumeanalyzer/nlp/NLPProcessor.java:47-51 | the cleaned text is stored and the personal fields are those the personal-information stage computes from it |
| Nlp.ExtractProfile | src/main/java/com/resumeanalyzer/nlp/NLPProcessor.java:53-63 | skills, experience and summary fields become the stage results in order, the summary seeing the years, seniority and skills just set |
| Nlp.RunStages | src/main/java/com/resumeanalyzer/nlp/NLPProcessor.java:46-63 | all stages run on the cleaned text in order, and the fields no stage writes are left alone |
| Nlp.CleanedTextPresent | src/main/java/com/resumeanalyzer/nlp/NLPProcessor.java:41-44 | the early return happens exactly on a null or blank text |
| Nlp.ProcessResume | src/main/java/com/resumeanalyzer/nlp/NLPProcessor.java:40-64 | a null or blank text leaves the résumé unchanged; otherwise every field the stages write holds its stage result on the cleaned text, and the other fields are unchanged |
| Nlp.SeniorityLabelVisible | src/main/java/com/resumeanalyzer/nlp/NLPProcessor.java:57 | every seniority label is non-empty and starts with a visible character |
| Nlp.ProcessedSummaryNamesSeniority | src/main/java/com/resumeanalyzer/nlp/NLPProcessor.java:57-63 | after processing, the summary is never empty and names the seniority level |
| Nlp.EducationSeesOneLine | src/main/java/com/resumeanalyzer/nlp/NLPProcessor.java:47-60 | the cleaned text is one line, so the education scan captures at most that line, trimmed |
| Nlp.BasicConfidenceValues | src/main/java/com/resumeanalyzer/nlp/NLPProcessor.java:93-106 | the basic confidence is 0.6 or 0.8, the latter exactly when "experience" sits right before or after the skill |
| Nlp.TotalTenthsBounds | src/main/java/com/resumeanalyzer/nlp/NLPProcessor.java:74-81 | each skill adds at most 0.8; none present gives 0; all present next to "experience" gives 0.8 each |
| Nlp.SkillMatchRange | src/main/java/com/resumeanalyzer/nlp/NLPProcessor.java:66-85 | the skill match lies between 0 and 0.8 |
| Nlp.SkillMatchAllNextToExperience | src/main/java/com/resumeanalyzer/nlp/NLPProcessor.java:66-85 | the match is exactly 0.8 when every required skill is present next to "experience" |
| Nlp.CalculateSkillMatch | src/main/java/com/resumeanalyzer/nlp/NLPProcessor.java:66-85 | a null or empty list gives 0.0; otherwise the mean contribution of the required skills over the original text |
| PersonalInfo.MatchText | src/main/java/com/resumeanalyzer/nlp/processors/PersonalInfoProcessor.java:91-93 | the text of a match is present exactly when there is a match, and it is a substring of the text |
| PersonalInfo.HandleEnd | src/main/java/com/resumeanalyzer/nlp/processors/PersonalInfoProcessor.java:20-23 | the handle run ends at the first non-handle character, and every character before it is a word character or hyphen |
| PersonalInfo.UrlMatchEnd | src/main/java/com/resumeanalyzer/nlp/processors/PersonalInfoProcessor.java:20-23 | a URL match starting at i has the host right after the optional scheme and "www.", followed by a non-empty handle, and ends in the text |
| PersonalInfo.UrlMatcher | src/main/java/com/resumeanalyzer/nlp/processors/PersonalInfoProcessor.java:107-117 | every match the URL matcher reports ends inside the text |
| PersonalInfo.UrlMatchHasHost | src/main/java/com/resumeanalyzer/nlp/processors/PersonalInfoProcessor.java:20-23 | a URL match contains the host name |
| PersonalInfo.UrlFoundHasHost | src/main/java/com/resumeanalyzer/nlp/processors/PersonalInfoProcessor.java:105-119 | a LinkedIn or GitHub value found is a piece of the text containing the host name, in any letter case |
| PersonalInfo.LikelyNameRejects | src/main/java/com/resumeanalyzer/nlp/processors/PersonalInfoProcessor.java:71-82 | a line with "@", "http" or "www", three consecutive digits, or a length outside [4, 50] is never a likely name |
| PersonalInfo.LikelyNameShape | src/main/java/com/resumeanalyzer/nlp/processors/PersonalInfoProcessor.java:71-86 | a likely name is its own trim and is two to four words of letters; the line and so its first word open with a capital letter, and the first word has at least two letters |
| PersonalInfo.NamePatternShape | src/main/java/com/resumeanalyzer/nlp/processors/PersonalInfoProcessor.java:26-27 | a line matching the name pattern is its own trim and its words are made of letters |
| PersonalInfo.FirstTrimmedIsFirst | src/main/java/com/resumeanalyzer/nlp/processors/PersonalInfoProcessor.java:60-69 | only the lines up to the limit are looked at, and the line found is the first of them that qualifies once trimmed |
| PersonalInfo.FirstTrimmedLineOccurs | src/main/java/com/resumeanalyzer/nlp/processors/PersonalInfoProcessor.java:61-65 | the line found qualifies, is its own trim and is a substring of the text |
| PersonalInfo.NameFromFirstLinesIsFirst | src/main/java/com/resumeanalyzer/nlp/processors/PersonalInfoProcessor.java:60-69 | only the first min(5, #lines) lines are looked at; the name found is the first of them that is a likely name once trimmed, and a substring of the text |
| PersonalInfo.NameFromTextIsFirst | src/main/java/com/resumeanalyzer/nlp/processors/PersonalInfoProcessor.java:122-158 | every line before the one found fails the permissive test, and none passes when nothing is found |
| PersonalInfo.NameFromTextShape | src/main/java/com/resumeanalyzer/nlp/processors/PersonalInfoProcessor.java:122-158 | a name from the fallback is a trimmed substring of the text that passes the permissive test |
| PersonalInfo.PermissiveNameShape | src/main/java/com/resumeanalyzer/nlp/processors/PersonalInfoProcessor.java:126-150 | an accepted name has length in (2, 50), no "@", and two to four words of at least two characters from [a-zA-Z-], the first capitalised |
| PersonalInfo.AddressFromShape | src/main/java/com/resumeanalyzer/nlp/processors/PersonalInfoProcessor.java:162-174 | the address found is the trimmed first line with a match, a non-empty substring of the text |
| PersonalInfo.AddressLineVisible | src/main/java/com/resumeanalyzer/nlp/processors/PersonalInfoProcessor.java:163-171 | a line with an address is not blank once trimmed |
| PersonalInfo.FillIfNull | src/main/java/com/resumeanalyzer/nlp/processors/PersonalInfoProcessor.java:90-118 | a field already set is kept; a null field takes what was found, possibly nothing |
| PersonalInfo.ExtractPersonalInfoWithPatterns | src/main/java/com/resumeanalyzer/nlp/processors/PersonalInfoProcessor.java:88-120 | each contact field is filled from the first match of its pattern, only while null; nothing else changes |
| PersonalInfo.ExtractNameFromFirstLines | src/main/java/com/resumeanalyzer/nlp/processors/PersonalInfoProcessor.java:60-69 | the name becomes the first likely name among the first five trimmed lines, and stays as it was when there is none |
| PersonalInfo.CheckNameWords | src/main/java/com/resumeanalyzer/nlp/processors/PersonalInfoProcessor.java:131-150 | the word loop accepts exactly two to four words of at least two characters, letters and hyphens only, the first capitalised |
| PersonalInfo.CheckNameLine | src/main/java/com/resumeanalyzer/nlp/processors/PersonalInfoProcessor.java:125-156 | the line test accepts exactly the lines that pass the permissive test |
| PersonalInfo.NameLineAt | src/main/java/com/resumeanalyzer/nlp/processors/PersonalInfoProcessor.java:124-155 | one loop pass yields the line when it passes, otherwise the search continues with the next line |
| PersonalInfo.ExtractNameFromText | src/main/java/com/resumeanalyzer/nlp/processors/PersonalInfoProcessor.java:122-158 | the name becomes the first trimmed line that passes the permissive test, and stays as it was when there is none |
| PersonalInfo.ExtractPersonalInfo | src/main/java/com/resumeanalyzer/nlp/processors/PersonalInfoProcessor.java:29-42 | contact fields as the pattern stage gives them; the name kept if already set, else from the first-lines heuristic, else from the fallback |
| PersonalInfo.ExtractAddress | src/main/java/com/resumeanalyzer/nlp/processors/PersonalInfoProcessor.java:160-175 | the address, while null, becomes the trimmed first line with an address match |
| Skills.WholeWordOrdinary | src/main/java/com/resumeanalyzer/nlp/processors/SkillsProcessor.java:87-91 | for a skill that starts and ends with a word character, a whole-word match is an occurrence not inside a longer word |
| Skills.WholeWordTrailingSymbol | src/main/java/com/resumeanalyzer/nlp/processors/SkillsProcessor.java:89 | a skill ending in a symbol (C++, C#) is found only where a word character follows it |
| Skills.WholeWordLeadingSymbol | src/main/java/com/resumeanalyzer/nlp/processors/SkillsProcessor.java:89 | a skill starting with a symbol (.NET Core) is found only right after a word character |
| Skills.PresentIgnoresCase | src/main/java/com/resumeanalyzer/nlp/processors/SkillsProcessor.java:55-89 | lower-casing text or skill first does not change the case-insensitive search |
| Skills.PresentOccurs | src/main/java/com/resumeanalyzer/nlp/processors/SkillsProcessor.java:87-91 | a skill found as a whole word is a substring of the lower-cased text |
| Skills.ContextHitsAtMost | src/main/java/com/resumeanalyzer/nlp/processors/SkillsProcessor.java:106-111 | no more context words count than there are in the list |
| Skills.ContextHitsNone | src/main/java/com/resumeanalyzer/nlp/processors/SkillsProcessor.java:106-111 | when no context word surrounds the skill the count is 0 |
| Skills.ContextHitsMonotone | src/main/java/com/resumeanalyzer/nlp/processors/SkillsProcessor.java:106-111 | a text surrounding the skill with more context words never counts fewer |
| Skills.ConfidenceRange | src/main/java/com/resumeanalyzer/nlp/processors/SkillsProcessor.java:93-128 | the confidence always lies between 0.6 and 1.0 |
| Skills.ConfidenceBase | src/main/java/com/resumeanalyzer/nlp/processors/SkillsProcessor.java:97-127 | with no context, variation or proficiency phrase the confidence is exactly 0.6 |
| Skills.ConfidenceMonotone | src/main/java/com/resumeanalyzer/nlp/processors/SkillsProcessor.java:93-128 | a text hitting at least the phrases another hits gets at least its confidence |
| Skills.ConfidenceWithoutCap | src/main/java/com/resumeanalyzer/nlp/processors/SkillsProcessor.java:97-127 | the confidence is the minimum of 1.0 and 0.6 plus the bonuses, each context word counting once |
| Skills.CalculateSkillConfidence | src/main/java/com/resumeanalyzer/nlp/processors/SkillsProcessor.java:93-128 | the loop computes the specified confidence, which lies between 0.6 and 1.0 |
| Skills.FoundSkillsExactly | src/main/java/com/resumeanalyzer/nlp/processors/SkillsProcessor.java:54-58 | a skill is collected exactly when it is in the category's list and found in the text, each one once |
| Skills.PairsOfExactly | src/main/java/com/resumeanalyzer/nlp/processors/SkillsProcessor.java:68-82 | the pairs of one category are its skills with that category, none twice |
| Skills.FoundPairsExactly | src/main/java/com/resumeanalyzer/nlp/processors/SkillsProcessor.java:50-82 | a pair is emitted exactly when its skill is in its category and found in the text, and no pair twice |
| Skills.CategoriesDistinct | src/main/java/com/resumeanalyzer/nlp/processors/SkillsProcessor.java:13-37 | the eight categories are listed once each |
| Skills.FoundPairFor | src/main/java/com/resumeanalyzer/nlp/processors/SkillsProcessor.java:50-82 | every catalogue skill found in the text is emitted with its category |
| Skills.SharedSkillListedTwice | src/main/java/com/resumeanalyzer/nlp/processors/SkillsProcessor.java:14-37 | Swift and Kotlin belong to two categories, so a text naming them emits each twice |
| Skills.CategoryNameBraceFree | src/main/java/com/resumeanalyzer/nlp/processors/SkillsProcessor.java:13-37 | no category name contains an opening brace |
| Skills.CategoryBraceFree | src/main/java/com/resumeanalyzer/nlp/processors/SkillsProcessor.java:13-37 | no catalogue skill contains an opening brace |
| Skills.BraceCountConcat | src/main/java/com/resumeanalyzer/nlp/processors/SkillsProcessor.java:136 | the brace count of a concatenation is the sum of the counts |
| Skills.EntryHasOneBrace | src/main/java/com/resumeanalyzer/nlp/processors/SkillsProcessor.java:77-79 | each JSON object for a catalogue skill holds exactly one opening brace |
| Skills.JoinCountsOnePerPart | src/main/java/com/resumeanalyzer/nlp/processors/SkillsProcessor.java:72-80 | joining objects with commas gives one brace per object |
| Skills.EntriesHaveOneBrace | src/main/java/com/resumeanalyzer/nlp/processors/SkillsProcessor.java:68-82 | every emitted object holds exactly one brace |
| Skills.JsonArrayBraceCount | src/main/java/com/resumeanalyzer/nlp/processors/SkillsProcessor.java:65-83 | the array holds one brace per object |
| Skills.SkillsJsonBraceCount | src/main/java/com/resumeanalyzer/nlp/processors/SkillsProcessor.java:39-85 | the stored JSON holds exactly one opening brace per (skill, category) pair found |
| Skills.SkillsJsonEmpty | src/main/java/com/resumeanalyzer/nlp/processors/SkillsProcessor.java:65-84 | the JSON is "[]" exactly when no catalogue skill is found |
| Skills.CollectCategory | src/main/java/com/resumeanalyzer/nlp/processors/SkillsProcessor.java:54-58 | the inner loop builds exactly the set of found skills of one category |
| Skills.FoundListsAt | src/main/java/com/resumeanalyzer/nlp/processors/SkillsProcessor.java:50-59 | entry k of the result is the set of found skills of list k |
| Skills.CollectSkills | src/main/java/com/resumeanalyzer/nlp/processors/SkillsProcessor.java:50-59 | the first phase builds one set of found skills per category list |
| Skills.AppendEntry | src/main/java/com/resumeanalyzer/nlp/processors/SkillsProcessor.java:73-80 | appending an object puts a comma first unless it is the first |
| Skills.AppendPair | src/main/java/com/resumeanalyzer/nlp/processors/SkillsProcessor.java:73-80 | one object is appended, with a comma unless first, keeping the array text in step with the pairs |
| Skills.AppendCategoryEntries | src/main/java/com/resumeanalyzer/nlp/processors/SkillsProcessor.java:72-81 | the inner loop appends one object per found skill of the category |
| Skills.FoundListsPairs | src/main/java/com/resumeanalyzer/nlp/processors/SkillsProcessor.java:40-82 | pairing the found lists with their categories gives exactly the pairs found over the categories |
| Skills.WriteSkillsJson | src/main/java/com/resumeanalyzer/nlp/processors/SkillsProcessor.java:65-83 | the second phase builds the array of the objects of all pairs |
| Skills.ExtractSkills | src/main/java/com/resumeanalyzer/nlp/processors/SkillsProcessor.java:39-85 | skillsJson becomes the JSON of every catalogue skill found; nothing else changes |
| Skills.CountSkillsByCategory | src/main/java/com/resumeanalyzer/nlp/processors/SkillsProcessor.java:130-137 | a null JSON gives 0, otherwise the number of opening braces |
| Skills.CountAfterExtraction | src/main/java/com/resumeanalyzer/nlp/processors/SkillsProcessor.java:130-137 | after extraction, any category name gets the total number of pairs found, the empty array giving 0 |
| Skills.PresentSkillsExactly | src/main/java/com/resumeanalyzer/nlp/processors/SkillsProcessor.java:148-152 | a soft skill is returned exactly when it is in the vocabulary and found, in vocabulary order |
| Skills.FindPresent | src/main/java/com/resumeanalyzer/nlp/processors/SkillsProcessor.java:148-152 | the loop returns exactly the vocabulary entries found |
| Skills.ExtractSoftSkills | src/main/java/com/resumeanalyzer/nlp/processors/SkillsProcessor.java:139-155 | the soft skills returned are those of the twelve named in the text, in vocabulary order |
| Education.SectionFlagMeaning | src/main/java/com/resumeanalyzer/nlp/processors/EducationProcessor.java:43-65 | the section flag is on before line k exactly when an earlier line held an education keyword and no line from that one up to k held a section-ending word |
| Education.EndingLineStillCaptured | src/main/java/com/resumeanalyzer/nlp/processors/EducationProcessor.java:47-65 | a line holding both a keyword and a section-ending word is still captured; the line after it starts outside the section |
| Education.EducationLinesShape | src/main/java/com/resumeanalyzer/nlp/processors/EducationProcessor.java:52-58 | every captured entry is a trimmed, non-empty line that passed the capture test (flag on, a keyword, or a degree name) |
| Education.EducationLinesComplete | src/main/java/com/resumeanalyzer/nlp/processors/EducationProcessor.java:52-58 | conversely, every line that passes the capture test, given the section flag as it stood before it, is in the list, trimmed: a line is captured if and only if it passes the test |
| Education.ScanLine | src/main/java/com/resumeanalyzer/nlp/processors/EducationProcessor.java:44-65 | one loop pass leaves the flag and the list as the specification gives them after that line |
| Education.ScanLines | src/main/java/com/resumeanalyzer/nlp/processors/EducationProcessor.java:42-66 | the loop builds exactly the specified list of captured lines |
| Education.ExtractEducation | src/main/java/com/resumeanalyzer/nlp/processors/EducationProcessor.java:36-74 | the list built from the lines of the text is the specified one, and the résumé is not changed |
| Education.HighestDegreeIsHighest | src/main/java/com/resumeanalyzer/nlp/processors/EducationProcessor.java:85-107 | the level reported is named in the text, no level named in the text ranks higher, and "Not Specified" comes back exactly when no level is named |
| Education.DegreeLabelsDistinct | src/main/java/com/resumeanalyzer/nlp/processors/EducationProcessor.java:89-106 | the five degree labels are pairwise distinct, so the score's switch sees the level |
| Education.FirstIndexWith | src/main/java/com/resumeanalyzer/nlp/processors/EducationProcessor.java:157-163 | the index returned is the first line from i on containing the keyword, or the end |
| Education.FirstLineWithIsFirst | src/main/java/com/resumeanalyzer/nlp/processors/EducationProcessor.java:157-163 | no line is found exactly when no line contains the keyword; otherwise the result is the trimmed first such line |
| Education.FirstIndexAt | src/main/java/com/resumeanalyzer/nlp/processors/EducationProcessor.java:158-162 | the search stops at the first line holding the keyword |
| Education.FindFirstLine | src/main/java/com/resumeanalyzer/nlp/processors/EducationProcessor.java:157-163 | the inner loop with its break returns the trimmed first line holding the keyword |
| Education.CertificationsShape | src/main/java/com/resumeanalyzer/nlp/processors/EducationProcessor.java:154-165 | at most one entry per keyword, each the trimmed first line holding one of the keywords |
| Education.CertificationsRepeat | src/main/java/com/resumeanalyzer/nlp/processors/EducationProcessor.java:154-165 | the same line is listed twice when it is the first line for two keywords |
| Education.CertificationIndex | src/main/java/com/resumeanalyzer/nlp/processors/EducationProcessor.java:154-165 | the entry for keyword k sits right after the entries of the earlier keywords |
| Education.CertificationIndexOrder | src/main/java/com/resumeanalyzer/nlp/processors/EducationProcessor.java:154-165 | entries of later keywords sit strictly later in the list |
| Education.CertificationsPrefixGrow | src/main/java/com/resumeanalyzer/nlp/processors/EducationProcessor.java:154-165 | more keywords never give fewer entries |
| Education.CollectCertifications | src/main/java/com/resumeanalyzer/nlp/processors/EducationProcessor.java:143-168 | the loop over the keywords builds exactly the specified list |
| Education.ExtractCertifications | src/main/java/com/resumeanalyzer/nlp/processors/EducationProcessor.java:143-168 | the certification list is the specified one for the twelve keywords, so it has at most twelve entries |
| Education.EducationScoreRange | src/main/java/com/resumeanalyzer/nlp/processors/EducationProcessor.java:170-196 | the score lies between 0.2 and 1.0; with no certification entry it is the degree's base score |
| Education.BaseTenthsFollowsRank | src/main/java/com/resumeanalyzer/nlp/processors/EducationProcessor.java:174-189 | a higher degree has a base score at least as high, and conversely |
| Education.DoctorateScoresFull | src/main/java/com/resumeanalyzer/nlp/processors/EducationProcessor.java:175-177 | a text naming a doctorate scores the full 1.0 |
| Education.ExtractFieldsOfStudy | src/main/java/com/resumeanalyzer/nlp/processors/EducationProcessor.java:109-120 | the fields returned are exactly the fields named in the text (case ignored), in list order |
| Education.SoftwareEngineeringAlsoEngineering | src/main/java/com/resumeanalyzer/nlp/processors/EducationProcessor.java:30-34 | a text naming "Software Engineering" also has "Engineering" among its fields, since fields match as substrings |
| Education.InstitutionNameShape | src/main/java/com/resumeanalyzer/nlp/processors/EducationProcessor.java:134-136 | a name kept from one match is longer than two characters and has no trimmable end |
| Education.InstitutionsKept | src/main/java/com/resumeanalyzer/nlp/processors/EducationProcessor.java:133-138 | at most one name per match, and every kept name passes the filter |
| Education.InstitutionsFromMatches | src/main/java/com/resumeanalyzer/nlp/processors/EducationProcessor.java:133-138 | every kept name is the name yielded by one of the matches |
| Education.FilterInstitutions | src/main/java/com/resumeanalyzer/nlp/processors/EducationProcessor.java:132-140 | the loop over the regex matches builds exactly the specified list of names |
| Experience.ParseDigitsOfNatToString | src/main/java/com/resumeanalyzer/nlp/processors/ExperienceProcessor.java:53 | reading back the decimal text of a number gives the number |
| Experience.YearValue | src/main/java/com/resumeanalyzer/nlp/processors/ExperienceProcessor.java:53 | the value of a year token lies between 1900 and 2099 |
| Experience.YearValuesAreTokens | src/main/java/com/resumeanalyzer/nlp/processors/ExperienceProcessor.java:50-56 | every year collected lies in [1990, currentYear] and is read from a token delimited by word boundaries |
| Experience.YearValuesSkip | src/main/java/com/resumeanalyzer/nlp/processors/ExperienceProcessor.java:51-52 | positions holding no token add no year |
| Experience.YearTokensDisjoint | src/main/java/com/resumeanalyzer/nlp/processors/ExperienceProcessor.java:50 | two year tokens never overlap |
| Experience.NextYear | src/main/java/com/resumeanalyzer/nlp/processors/ExperienceProcessor.java:52 | find() returns the first token start at or after the position, or the end |
| Experience.YearValuesPastToken | src/main/java/com/resumeanalyzer/nlp/processors/ExperienceProcessor.java:52-56 | moving past the next token adds its year when in range, and nothing else |
| Experience.ExtractYearsWithRegex | src/main/java/com/resumeanalyzer/nlp/processors/ExperienceProcessor.java:49-58 | the set built holds no repeats and exactly the in-range years of the tokens in the text |
| Experience.SeqMin | src/main/java/com/resumeanalyzer/nlp/processors/ExperienceProcessor.java:65 | the minimum is an element and no element is smaller |
| Experience.SeqMax | src/main/java/com/resumeanalyzer/nlp/processors/ExperienceProcessor.java:66 | the maximum is an element and no element is larger |
| Experience.YearsFromDatesOfSameYears | src/main/java/com/resumeanalyzer/nlp/processors/ExperienceProcessor.java:60-74 | the span depends only on which years were found, not on order or repeats |
| Experience.YearsFromDatesCases | src/main/java/com/resumeanalyzer/nlp/processors/ExperienceProcessor.java:60-74 | no years give 0; distinct years give latest minus earliest; a single year gives the years since it; never negative when no year is in the future |
| Experience.MentionAtDigits | src/main/java/com/resumeanalyzer/nlp/processors/ExperienceProcessor.java:78 | a match of the explicit-experience pattern starts with a non-empty run of digits, its group |
| Experience.MentionMatcher | src/main/java/com/resumeanalyzer/nlp/processors/ExperienceProcessor.java:78-80 | every match the pattern reports ends inside the text |
| Experience.ParseInt | src/main/java/com/resumeanalyzer/nlp/processors/ExperienceProcessor.java:81 | parsing succeeds exactly when the value fits an int, and then gives the value of the digits |
| Experience.ExplicitExperienceRange | src/main/java/com/resumeanalyzer/nlp/processors/ExperienceProcessor.java:76-84 | a parsed explicit experience lies between 0 and Integer.MAX_VALUE |
| Experience.ExplicitAtStart | src/main/java/com/resumeanalyzer/nlp/processors/ExperienceProcessor.java:79-81 | a mention at the very start of the text is the one reported |
| Experience.ExplicitExperienceOfDigits | src/main/java/com/resumeanalyzer/nlp/processors/ExperienceProcessor.java:76-84 | a text starting with a run of digits and " years experience" reports the parse of those digits |
| Experience.ExplicitExperienceLeading | src/main/java/com/resumeanalyzer/nlp/processors/ExperienceProcessor.java:76-84 | a text leading with "n years experience" reports n, or fails when n does not fit an int |
| Experience.SeniorityMonotone | src/main/java/com/resumeanalyzer/nlp/processors/ExperienceProcessor.java:86-98 | more years never give a lower seniority band |
| Experience.SeniorityBands | src/main/java/com/resumeanalyzer/nlp/processors/ExperienceProcessor.java:86-98 | each band covers exactly its interval: below 1, 1-2, 3-5, 6-9, 10 and more |
| Experience.SeniorityLabelsDistinct | src/main/java/com/resumeanalyzer/nlp/processors/ExperienceProcessor.java:88-96 | the five seniority labels are pairwise distinct |
| Experience.SetSeniorityLevel | src/main/java/com/resumeanalyzer/nlp/processors/ExperienceProcessor.java:86-98 | the résumé's seniority becomes the label of the band of the given years |
| Experience.ExperienceYearsBounds | src/main/java/com/resumeanalyzer/nlp/processors/ExperienceProcessor.java:33-37 | the total is never negative and is at least both the span of the years and the explicit mention |
| Experience.OverflowIsEntryLevel | src/main/java/com/resumeanalyzer/nlp/processors/ExperienceProcessor.java:42-46 | when the explicit number overflows, the total is 0 and the seniority "Entry Level" |
| Experience.CalculateExperience | src/main/java/com/resumeanalyzer/nlp/processors/ExperienceProcessor.java:24-47 | the résumé's total years and seniority become the specified total and its band; nothing else changes |
| Experience.ExtractJobTitles | src/main/java/com/resumeanalyzer/nlp/processors/ExperienceProcessor.java:100-111 | the titles returned are exactly the titles named in the text (case ignored), in list order |
| Experience.ProbesGrow | src/main/java/com/resumeanalyzer/nlp/processors/ExperienceProcessor.java:130-152 | a text containing another (case ignored) answers yes to every probe the other answers yes to |
| Experience.LeadershipIsLeadOrManage | src/main/java/com/resumeanalyzer/nlp/processors/ExperienceProcessor.java:138-146 | the leadership probe holds exactly when the text contains "lead", "manage", "supervise" or "mentor" |
| Experience.RemoteWorkIsExperienceSection | src/main/java/com/resumeanalyzer/nlp/processors/ExperienceProcessor.java:130-152 | a text containing "work from home" passes both the remote probe and the experience-section probe |
| Experience.ProductManagerAlsoManager | src/main/java/com/resumeanalyzer/nlp/processors/ExperienceProcessor.java:19-22 | a text naming "Product Manager" also lists "Manager" among its titles |
| Summary.CountPresentBounds | src/main/java/com/resumeanalyzer/nlp/processors/SummaryProcessor.java:86-94 | the count never exceeds the list, is 0 exactly when no keyword occurs and full exactly when all occur |
| Summary.CountPresentGrows | src/main/java/com/resumeanalyzer/nlp/processors/SummaryProcessor.java:86-94 | a text containing another finds at least as many keywords |
| Summary.CountOccurrences | src/main/java/com/resumeanalyzer/nlp/processors/SummaryProcessor.java:86-94 | the loop counts exactly the keywords that occur in the text |
| Summary.DomainFirstWins | src/main/java/com/resumeanalyzer/nlp/processors/SummaryProcessor.java:45-68 | the domain reported meets its threshold and no domain tried earlier does; none is reported exactly when no domain qualifies |
| Summary.DomainLabels | src/main/java/com/resumeanalyzer/nlp/processors/SummaryProcessor.java:48-64 | the six domain labels are non-empty and distinct, so "" means no domain |
| Summary.EducationLevelBelowHighest | src/main/java/com/resumeanalyzer/nlp/processors/SummaryProcessor.java:70-84 | the summary's education level never ranks above the education extractor's highest degree, and the two agree on a doctorate |
| Summary.BodiesOpenVisibly | src/main/java/com/resumeanalyzer/nlp/processors/SummaryProcessor.java:14-39 | every fixed sentence opens with a letter, which trimming keeps |
| Summary.PartShape | src/main/java/com/resumeanalyzer/nlp/processors/SummaryProcessor.java:13-40 | a part is either empty or a whole sentence holding a character trimming keeps |
| Summary.SummaryEmptyIff | src/main/java/com/resumeanalyzer/nlp/processors/SummaryProcessor.java:10-42 | the summary is empty exactly when no sentence applies |
| Summary.SentenceKept | src/main/java/com/resumeanalyzer/nlp/processors/SummaryProcessor.java:42 | a sentence opening with a visible character survives the final trim, full stop included |
| Summary.SummaryOpensWithExperience | src/main/java/com/resumeanalyzer/nlp/processors/SummaryProcessor.java:13-16 | with positive years the summary opens with the experience sentence |
| Summary.SentenceOpens | src/main/java/com/resumeanalyzer/nlp/processors/SummaryProcessor.java:42 | a visible sentence at the front opens the trimmed text |
| Summary.SummaryClosesWithEducation | src/main/java/com/resumeanalyzer/nlp/processors/SummaryProcessor.java:37-42 | when an education level is found the summary ends with the degree sentence |
| Summary.SummaryNamesSkillCount | src/main/java/com/resumeanalyzer/nlp/processors/SummaryProcessor.java:24-28 | the skills sentence reports the number of objects in the skills JSON |
| Summary.SummaryNamesDomain | src/main/java/com/resumeanalyzer/nlp/processors/SummaryProcessor.java:31-34 | the domain sentence names the detected domain |
| Summary.SummaryNamesSeniority | src/main/java/com/resumeanalyzer/nlp/processors/SummaryProcessor.java:19-21 | the seniority sentence carries the stored label when it opens with a visible character |
| Summary.GenerateSummary | src/main/java/com/resumeanalyzer/nlp/processors/SummaryProcessor.java:9-43 | the summary field becomes the trimmed sentences built from the years, seniority, skills and the text; nothing else changes |
| Summary.ComputeSummary | src/main/java/com/resumeanalyzer/nlp/processors/SummaryProcessor.java:10-42 | the text built is the specified summary for those fields and that text |
| Summary.AppendPart | src/main/java/com/resumeanalyzer/nlp/processors/SummaryProcessor.java:13-40 | one guarded append adds the sentence when its condition holds and nothing otherwise |
| Summary.AppendSentences | src/main/java/com/resumeanalyzer/nlp/processors/SummaryProcessor.java:10-40 | the appends build exactly the sentences that apply, in fixed order |
| Summary.BuildSummary | src/main/java/com/resumeanalyzer/nlp/processors/SummaryProcessor.java:10-42 | the result is the sentences that apply, trimmed |
| Summary.FieldWordsFallback | src/main/java/com/resumeanalyzer/nlp/processors/SummaryProcessor.java:109-114 | the words "technology" are used exactly when no domain is detected, and open with a visible character |
| Summary.PhraseKept | src/main/java/com/resumeanalyzer/nlp/processors/SummaryProcessor.java:128 | a visible phrase followed by a space survives the trim |
| Summary.DetailedNamesField | src/main/java/com/resumeanalyzer/nlp/processors/SummaryProcessor.java:96-129 | the detailed summary always names the field followed by "professional" |
| Summary.GenerateDetailedSummary | src/main/java/com/resumeanalyzer/nlp/processors/SummaryProcessor.java:96-129 | the detailed summary is the specified one for the résumé's fields and the text; nothing changes |
| Summary.BuildDetailed | src/main/java/com/resumeanalyzer/nlp/processors/SummaryProcessor.java:97-128 | the appends build name, seniority, field, years and skill count, trimmed |
| Summary.OverallScoreRange | src/main/java/com/resumeanalyzer/nlp/processors/SummaryProcessor.java:131-165 | with non-negative years every component stays under its weight, so the score lies between 0.05 and 1.00 and is the plain sum of its components |
| Summary.CalculateOverallScore | src/main/java/com/resumeanalyzer/nlp/processors/SummaryProcessor.java:131-165 | the score returned, in hundredths, is the specified overall score; nothing changes |
| Ats.OccurringExactly | src/main/java/com/resumeanalyzer/service/ATSServiceImpl.java:105-109 | a vocabulary term is listed exactly when it occurs in the text, and the list keeps vocabulary order |
| Ats.CollectOccurring | src/main/java/com/resumeanalyzer/service/ATSServiceImpl.java:105-111 | the loop builds exactly the vocabulary terms the text contains |
| Ats.ExtractKeywords | src/main/java/com/resumeanalyzer/service/ATSServiceImpl.java:93-112 | the keywords returned are the common keywords the lower-cased text contains, in list order |
| Ats.ExtractSkills | src/main/java/com/resumeanalyzer/service/ATSServiceImpl.java:114-135 | the skills returned are the technical skills the lower-cased text contains, in list order |
| Ats.OccurringLowerTwice | src/main/java/com/resumeanalyzer/service/ATSServiceImpl.java:65-70 | extracting from the already lower-cased description finds the same terms |
| Ats.SkillsMembership | src/main/java/com/resumeanalyzer/service/ATSServiceImpl.java:137-149 | a job skill is matching exactly when some résumé skill contains it or is contained in it, and missing exactly when none is |
| Ats.SkillsInOrder | src/main/java/com/resumeanalyzer/service/ATSServiceImpl.java:137-149 | the matching and missing lists keep the order of the job skills |
| Ats.SkillsSplit | src/main/java/com/resumeanalyzer/service/ATSServiceImpl.java:137-149 | together the matching and missing lists hold every job skill exactly as often as the job lists it |
| Ats.ResumeSkillNames | src/main/java/com/resumeanalyzer/service/ATSServiceImpl.java:25-29 | a null skill list gives no names; otherwise one lower-cased name per extracted skill, in order |
| Ats.NoResumeSkills | src/main/java/com/resumeanalyzer/service/ATSServiceImpl.java:137-149 | a résumé with no skills matches no job skill and misses every one |
| Ats.KeywordsMembership | src/main/java/com/resumeanalyzer/service/ATSServiceImpl.java:151-161 | a job keyword is matched exactly when the résumé text contains it lower-cased, and missing exactly when not |
| Ats.KeywordsInOrder | src/main/java/com/resumeanalyzer/service/ATSServiceImpl.java:151-161 | both keyword lists keep the order of the job keywords |
| Ats.KeywordsSplit | src/main/java/com/resumeanalyzer/service/ATSServiceImpl.java:151-161 | together the two keyword lists hold every job keyword exactly as often as the job lists it |
| Ats.ResumeText | src/main/java/com/resumeanalyzer/service/ATSServiceImpl.java:24 | a null résumé text reads as "", and a present one keeps its length once lower-cased |
| Ats.PercentageRange | src/main/java/com/resumeanalyzer/service/ATSServiceImpl.java:164-171 | a share of hits out of a total lies between 0 and 100 |
| Ats.CoveredCountIsMatching | src/main/java/com/resumeanalyzer/service/ATSServiceImpl.java:166-169 | counting the covered job skills one by one gives the length of the matching list |
| Ats.FoundCountIsMatches | src/main/java/com/resumeanalyzer/service/ATSServiceImpl.java:177-179 | counting the found keywords one by one gives the length of the keyword matches |
| Ats.SkillMatchPercentageMeaning | src/main/java/com/resumeanalyzer/service/ATSServiceImpl.java:163-172 | 100 with no job skills, otherwise the matching share times 100, always within [0, 100] |
| Ats.KeywordMatchPercentageMeaning | src/main/java/com/resumeanalyzer/service/ATSServiceImpl.java:174-182 | 100 with no job keywords, otherwise the found share times 100, always within [0, 100] |
| Ats.TotalMonthsNonNegative | src/main/java/com/resumeanalyzer/service/ATSServiceImpl.java:189-191 | with no negative duration the months add up to a non-negative total |
| Ats.TruncatedDiv | src/main/java/com/resumeanalyzer/service/ATSServiceImpl.java:193 | the quotient of a non-negative number is non-negative |
| Ats.TruncatedDivRounds | src/main/java/com/resumeanalyzer/service/ATSServiceImpl.java:193 | the quotient rounds toward zero: q times b never passes a and misses it by less than b |
| Ats.RelevanceForYearsRange | src/main/java/com/resumeanalyzer/service/ATSServiceImpl.java:197-205 | the relevance never exceeds 100, and from zero years on it is at least 30 |
| Ats.RelevanceMonotone | src/main/java/com/resumeanalyzer/service/ATSServiceImpl.java:197-205 | more experience never gives a lower relevance to the same description |
| Ats.FiveYearsSuffice | src/main/java/com/resumeanalyzer/service/ATSServiceImpl.java:197-205 | five whole years or more meet every requirement the description can state |
| Ats.EntryLevelFirst | src/main/java/com/resumeanalyzer/service/ATSServiceImpl.java:197-198 | a description asking for entry level gives full relevance to any non-negative experience, whatever else it says |
| Ats.ExperienceRelevanceRange | src/main/java/com/resumeanalyzer/service/ATSServiceImpl.java:184-206 | 50 with no experience records, at most 100 always, and at least 30 when no duration is negative |
| Ats.RoundHundredthsBounds | src/main/java/com/resumeanalyzer/service/ATSServiceImpl.java:90 | rounding to hundredths moves the score by at most half a hundredth and keeps [0, 100] |
| Ats.RawScoreRange | src/main/java/com/resumeanalyzer/service/ATSServiceImpl.java:65-88 | the weighted score never exceeds 100, and is non-negative when no duration is negative |
| Ats.ATSScoreRange | src/main/java/com/resumeanalyzer/service/ATSServiceImpl.java:60-91 | a null or blank description scores 0; any score is at most 100, and non-negative when no duration is negative |
| Ats.CategoriesDistinct | src/main/java/com/resumeanalyzer/service/ATSServiceImpl.java:214-258 | different advice carries a different category name |
| Ats.GenerateRecommendations | src/main/java/com/resumeanalyzer/service/ATSServiceImpl.java:208-261 | the list built is the specified sequence of advice for the missing lists and the résumé's records |
| Ats.GivesConcat | src/main/java/com/resumeanalyzer/service/ATSServiceImpl.java:210-260 | advice given by two lists put together is advice given by one of them |
| Ats.GivesOfAtMostOne | src/main/java/com/resumeanalyzer/service/ATSServiceImpl.java:213-250 | a list of at most one recommendation gives exactly the advice of its entry |
| Ats.RecommendationsShape | src/main/java/com/resumeanalyzer/service/ATSServiceImpl.java:208-261 | one to five recommendations with the format advice last; skills, keywords, experience and education advice given exactly when their condition holds; the skills advice first, naming a prefix of at most five missing skills |
| Ats.JoinContainsPart | src/main/java/com/resumeanalyzer/service/ATSServiceImpl.java:216 | every part of a comma join occurs in it |
| Ats.SkillsIssueContains | src/main/java/com/resumeanalyzer/service/ATSServiceImpl.java:216 | every named skill appears in the skills issue text |
| Ats.SkillsIssueNames | src/main/java/com/resumeanalyzer/service/ATSServiceImpl.java:216 | the skills issue opens with its prefix, names each of the first min(5, n) missing skills, and is exactly the prefix and the join when at most five are missing |
| Ats.GenerateOverallFeedback | src/main/java/com/resumeanalyzer/service/ATSServiceImpl.java:263-284 | the feedback built is the band sentence, the match sentence and the missing clause |
| Ats.FeedbackBands | src/main/java/com/resumeanalyzer/service/ATSServiceImpl.java:266-274 | the feedback opens with the band sentence of the score, and each band sentence is chosen exactly on its range: 80 and up, 60 to 80, 40 to 60, below 40 |
| Ats.TailAfter | src/main/java/com/resumeanalyzer/service/ATSServiceImpl.java:276-281 | after any opening, the text contains the match sentence, ends in " key requirements." exactly when nothing is missing and otherwise with the missing count |
| Ats.FeedbackEnding | src/main/java/com/resumeanalyzer/service/ATSServiceImpl.java:276-281 | the feedback contains the match count, ends right after "key requirements." exactly when no skill is missing, and otherwise ends with the number of missing skills |
| Ats.AnalyzeATS | src/main/java/com/resumeanalyzer/service/ATSServiceImpl.java:16-57 | the response lists are the job's skills and keywords split by the résumé (each a multiset partition), the score is the ATS score of the description and is built from the same shares the lists report, and recommendations and feedback are made from those lists |
| Ats.ScoreFromLists | src/main/java/com/resumeanalyzer/service/ATSServiceImpl.java:60-91 | the score of a non-blank description uses the same job skills and keywords that the analysis reports |

## Left out

- Regular-expression engines. Two kinds of pattern are handled differently.
  - The e-mail and phone patterns are not written out. Each is a `Finder` parameter: a function from the text to the span of its first match, and the span must lie inside the text.
  - The other patterns are written out as functions: LinkedIn and GitHub URLs, the name pattern, the digit runs, the year token, the explicit-experience mention and the street address.
  - Institution names are modelled from the capture groups of each match. Finding those matches in the text is not modelled.
- `extractNameWithOpenNLP`: only its call to `extractNameFromFirstLines` is modelled. Its tokenizer call and the catch block it guards are not, because they only log.
- The clock. `calculateExperience` reads the current year; the model takes it as the parameter `currentYear`.
- Decoding of PDF, DOCX and plain-text streams (PDFBox, POI, UTF-8 readers), encrypted PDFs, and I/O exceptions. These are library code. The decoded text is an input: `FileProcessor.ExtractedText` cleans or trims it.
- Console logging (`System.out` and `System.err`), and `initializeProcessor`, which only prints.
- `extractCompanies` is not modelled. No other operation calls it, and its lazy regex with a character class needs backtracking, which the model cannot write out faithfully.
- The order of entries in a `HashMap` or `HashSet`. Java leaves the iteration order unspecified, so the order of the objects in `skillsJson` is not fixed by the source.
  - Skills.ExtractSkills: its ensures fixes one layout, `SkillsJson(text)`: categories in declaration order, and the found skills of each category in catalogue order without repeats. `Nlp.ExtractProfile`, `Nlp.RunStages` and `Nlp.ProcessResume` inherit that exact string. Java may produce the same objects in another order.
  - The facts that hold for every order Java may produce are `Skills.FoundPairsExactly` (which (skill, category) pairs are emitted, each once), `Skills.SkillsJsonBraceCount`, `Skills.SkillsJsonEmpty` and `Skills.CountAfterExtraction`. The brace count and emptiness do not depend on the order of the objects. The summary reads `skillsJson` only through its brace count, so the summary is unaffected too.
- Floating point. Scores are exact reals, or exact tenths and hundredths, so rounding errors of `double` are not modelled.
  - `Math.round(x * 100.0) / 100.0` is floor(100x + 0.5) / 100, taken over reals.
  - `%.2f` of a confidence is exact, because the confidence is held in tenths.
- Unicode case mapping. `toLowerCase` is modelled for ASCII letters only. Any other character is left unchanged.
- UTF-16 lengths. A string's length is counted in characters (Unicode scalar values), while Java's `length()` counts UTF-16 code units, so a character outside the Basic Multilingual Plane counts 1 instead of 2. The thresholds affected are `line.length() > 5` (EducationProcessor.java line 56), `institution.trim().length() > 2` (EducationProcessor.java line 135), `line.length() < 4 || line.length() > 50` (PersonalInfoProcessor.java lines 79-80) and `line.length() > 2 && line.length() < 50` (PersonalInfoProcessor.java line 130). Only the education-line test can observe the difference: for example the model does not capture the line "PhD" followed by a space and an emoji, which Java measures as 6 and captures. At the other three, the patterns that must also match accept only ASCII characters.
- Ats.TotalMonths: the months are summed with no 32-bit wrap-around. `mapToInt(...).sum()` in the source would overflow only past 2^31 - 1 total months.
- Ats.ExperienceRelevance: inherits the unbounded month sum of `TotalMonths`. The integer division itself is modelled as Java's truncation toward zero (`TruncatedDiv`).
- Null pointer exceptions.
  - `analyzeATS` reads the job description through a request object and dereferences it. `Ats.AnalyzeATS` takes the description as a non-null `string`. `Ats.ATSScore` takes an `Option`, because `calculateATSScore` checks for null.
  - Null skill names inside `skillExtractions` are excluded by the types.
  - `Nlp.CalculateSkillMatch` requires the original text to be present when the list of required skills is non-empty, because the source dereferences it there.
- The strings of an `ATSRecommendation` are not stored. The model stores the advice given and the skills it names. The category, issue, suggestion and priority strings are functions of the advice (`Ats.Category`, `Ats.Issue`, `Ats.Suggestion`, `Ats.Priority`).
- Ats.FeedbackBands: the band sentence is stated as `Band(score)`. The lemma proves that each of the four sentences is chosen exactly on its score range. It does not restate the sentence text character by character.
- Two places where the documented behaviour and the code disagree; the code is followed in both.
  - Preprocessing is not idempotent in general. Deleting the mojibake sequence "ï¿½" after the whitespace collapse can leave two adjacent spaces, which a second pass collapses (`TextPreProcessor.PreprocessNotIdempotent`). Idempotence is proved for text without the sequence's first character (`TextPreProcessor.PreprocessIdempotent`).
  - The overall feedback ends with "." in both branches. What depends on the missing-skills count is the ending: the text ends with " key requirements." exactly when no skill is missing (`Ats.FeedbackEnding`).
- The JPA mapping, the controllers, the DTO classes other than the ATS response, and the services that persist results. These are context, not part of the modelled core.
