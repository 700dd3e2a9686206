/**
 * The technical-skill extractor: a fixed catalogue of skills in eight
 * categories, a case-insensitive whole-word search under Java's `\b`, a
 * confidence score per skill, and the JSON text stored on the résumé.
 */
module Skills {
  import opened Strings
  import opened ResumeModel

  // ---------------------------------------------------------------------
  // The catalogue
  // ---------------------------------------------------------------------

  datatype Category =
    | ProgrammingLanguages | WebTechnologies | Frameworks | Databases
    | CloudDevOps | ToolsOthers | DataScienceAI | MobileDevelopment

  /** The categories in declaration order (the map's own iteration order is unspecified). */
  const Categories: seq<Category> := [ProgrammingLanguages, WebTechnologies, Frameworks, Databases,
    CloudDevOps, ToolsOthers, DataScienceAI, MobileDevelopment]

  function CategoryName(c: Category): string
  {
    match c
    case ProgrammingLanguages => "Programming Languages"
    case WebTechnologies => "Web Technologies"
    case Frameworks => "Frameworks"
    case Databases => "Databases"
    case CloudDevOps => "Cloud & DevOps"
    case ToolsOthers => "Tools & Others"
    case DataScienceAI => "Data Science & AI"
    case MobileDevelopment => "Mobile Development"
  }

  const ProgrammingLanguageSkills: seq<string> := ["Java", "Python", "JavaScript", "TypeScript", "C++", "C#", "C",
    "Go", "Rust", "Kotlin", "Swift", "PHP", "Ruby", "Scala", "R", "MATLAB", "Perl", "Dart", "Lua"]
  const WebTechnologySkills: seq<string> := ["HTML", "CSS", "React", "Angular", "Vue", "Node.js", "Express",
    "Bootstrap", "jQuery", "SASS", "LESS", "Webpack", "Vite", "Next.js", "Nuxt.js", "Svelte"]
  const FrameworkSkills: seq<string> := ["Spring", "Spring Boot", "Django", "Flask", "FastAPI", "Rails", "Laravel",
    "ASP.NET", "Hibernate", "JPA", "Struts", ".NET Core", "Entity Framework"]
  const DatabaseSkills: seq<string> := ["MySQL", "PostgreSQL", "MongoDB", "Redis", "Oracle", "SQL Server",
    "SQLite", "Cassandra", "ElasticSearch", "DynamoDB", "Firebase", "Neo4j"]
  const CloudDevOpsSkills: seq<string> := ["AWS", "Azure", "GCP", "Docker", "Kubernetes", "Jenkins", "GitLab CI",
    "GitHub Actions", "Terraform", "Ansible", "Chef", "Puppet", "CircleCI"]
  const ToolSkills: seq<string> := ["Git", "Maven", "Gradle", "npm", "JUnit", "Selenium", "REST", "GraphQL",
    "Microservices", "Agile", "Scrum", "JIRA", "Confluence", "Postman", "Swagger"]
  const DataScienceSkills: seq<string> := ["Machine Learning", "AI", "Data Science", "TensorFlow", "PyTorch",
    "Scikit-learn", "Pandas", "NumPy", "Jupyter", "Apache Spark", "Hadoop", "Keras", "OpenCV"]
  const MobileSkills: seq<string> := ["Android", "iOS", "React Native", "Flutter", "Xamarin", "Ionic", "Cordova",
    "Swift", "Objective-C", "Kotlin"]

  function CategorySkills(c: Category): seq<string>
  {
    match c
    case ProgrammingLanguages => ProgrammingLanguageSkills
    case WebTechnologies => WebTechnologySkills
    case Frameworks => FrameworkSkills
    case Databases => DatabaseSkills
    case CloudDevOps => CloudDevOpsSkills
    case ToolsOthers => ToolSkills
    case DataScienceAI => DataScienceSkills
    case MobileDevelopment => MobileSkills
  }

  // ---------------------------------------------------------------------
  // Whole-word search: `\b` + quoted skill + `\b`, case-insensitive
  // ---------------------------------------------------------------------

  predicate WholeWordAt(t: string, w: string, i: nat)
  {
    OccursAt(t, w, i) && IsBoundary(t, i) && IsBoundary(t, i + |w|)
  }

  predicate HasWholeWord(t: string, w: string)
  {
    exists i: nat :: i <= |t| && WholeWordAt(t, w, i)
  }

  /** `isSkillPresentInContext`: the case-insensitive pattern is the search on lower-cased text. */
  predicate IsSkillPresentInContext(text: string, skill: string)
  {
    HasWholeWord(Lower(text), Lower(skill))
  }

  /** For a skill that starts and ends with a word character, `\b` is the usual "not inside a longer word". */
  lemma WholeWordOrdinary(t: string, w: string, i: nat)
    requires w != [] && IsWordChar(w[0]) && IsWordChar(w[|w| - 1])
    ensures WholeWordAt(t, w, i) <==> OccursAt(t, w, i) && !IsWordAt(t, i - 1) && !IsWordAt(t, i + |w|)
  {
    if OccursAt(t, w, i) {
      assert t[i] == t[i..i + |w|][0];
      assert t[i + |w| - 1] == t[i..i + |w|][|w| - 1];
    }
  }

  /**
   * A skill that ends in a symbol (`C++`, `C#`) is found only where a word
   * character follows it, so "C++ developer" or "C++." does not list it.
   */
  lemma WholeWordTrailingSymbol(t: string, w: string, i: nat)
    requires w != [] && !IsWordChar(w[|w| - 1]) && WholeWordAt(t, w, i)
    ensures IsWordAt(t, i + |w|)
  {
    assert t[i + |w| - 1] == t[i..i + |w|][|w| - 1];
  }

  /** A skill that starts with a symbol (`.NET Core`) is found only right after a word character. */
  lemma WholeWordLeadingSymbol(t: string, w: string, i: nat)
    requires w != [] && !IsWordChar(w[0]) && WholeWordAt(t, w, i)
    ensures IsWordAt(t, i - 1)
  {
    assert t[i] == t[i..i + |w|][0];
  }

  /** Lower-casing text or skill first changes nothing, as `extractSkills` does before calling the search. */
  lemma PresentIgnoresCase(text: string, skill: string)
    ensures IsSkillPresentInContext(Lower(text), Lower(skill)) == IsSkillPresentInContext(text, skill)
  {
    LowerIdempotent(text);
    LowerIdempotent(skill);
  }

  /** A skill found as a whole word is in particular a substring of the lower-cased text. */
  lemma PresentOccurs(text: string, skill: string)
    requires IsSkillPresentInContext(text, skill)
    ensures Contains(Lower(text), Lower(skill))
  {
    var i: nat :| i <= |Lower(text)| && WholeWordAt(Lower(text), Lower(skill), i);
    assert OccursAt(Lower(text), Lower(skill), i);
  }

  // ---------------------------------------------------------------------
  // Confidence, in tenths (0.6 .. 1.0 as 6 .. 10)
  // ---------------------------------------------------------------------

  const PositiveContexts: seq<string> := ["experience", "proficient", "expert", "skilled", "years",
    "developed", "worked", "using", "with", "in", "knowledge", "familiar", "programming", "development", "project"]

  /** A context word right before or right after the skill, separated by one blank. */
  predicate ContextHit(lowerText: string, lowerSkill: string, context: string)
  {
    Contains(lowerText, context + " " + lowerSkill) || Contains(lowerText, lowerSkill + " " + context)
  }

  predicate VariationHit(lowerText: string, lowerSkill: string)
  {
    Contains(lowerText, lowerSkill + ".js") || Contains(lowerText, lowerSkill + " framework") ||
    Contains(lowerText, lowerSkill + " development") || Contains(lowerText, lowerSkill + " programming")
  }

  predicate ProficiencyHit(lowerText: string, lowerSkill: string)
  {
    Contains(lowerText, "expert " + lowerSkill) || Contains(lowerText, "advanced " + lowerSkill)
  }

  /** How many of `contexts` surround the skill somewhere in the text. */
  function ContextHits(lowerText: string, lowerSkill: string, contexts: seq<string>): nat
  {
    if contexts == [] then 0
    else
      var last := if ContextHit(lowerText, lowerSkill, contexts[|contexts| - 1]) then 1 else 0;
      ContextHits(lowerText, lowerSkill, contexts[..|contexts| - 1]) + last
  }

  function Bonus(hit: bool, tenths: nat): nat { if hit then tenths else 0 }

  /** `calculateSkillConfidence`: 0.6, plus 0.1 per context word, 0.1 for a variation, 0.2 for a proficiency, at most 1.0. */
  function ConfidenceTenths(text: string, skill: string): nat
  {
    var lt := Lower(text);
    var ls := Lower(skill);
    Min(10, 6 + ContextHits(lt, ls, PositiveContexts) + Bonus(VariationHit(lt, ls), 1) + Bonus(ProficiencyHit(lt, ls), 2))
  }

  lemma {:induction false} ContextHitsAtMost(lt: string, ls: string, contexts: seq<string>)
    ensures ContextHits(lt, ls, contexts) <= |contexts|
    decreases |contexts|
  {
    if contexts != [] { ContextHitsAtMost(lt, ls, contexts[..|contexts| - 1]); }
  }

  lemma {:induction false} ContextHitsNone(lt: string, ls: string, contexts: seq<string>)
    requires forall k :: 0 <= k < |contexts| ==> !ContextHit(lt, ls, contexts[k])
    ensures ContextHits(lt, ls, contexts) == 0
    decreases |contexts|
  {
    if contexts != [] { ContextHitsNone(lt, ls, contexts[..|contexts| - 1]); }
  }

  /** Matching more context words never lowers the count. */
  lemma {:induction false} ContextHitsMonotone(t1: string, t2: string, ls: string, contexts: seq<string>)
    requires forall k :: 0 <= k < |contexts| ==> ContextHit(t1, ls, contexts[k]) ==> ContextHit(t2, ls, contexts[k])
    ensures ContextHits(t1, ls, contexts) <= ContextHits(t2, ls, contexts)
    decreases |contexts|
  {
    if contexts != [] { ContextHitsMonotone(t1, t2, ls, contexts[..|contexts| - 1]); }
  }

  /** The confidence always lies between 0.6 and 1.0. */
  lemma ConfidenceRange(text: string, skill: string)
    ensures 6 <= ConfidenceTenths(text, skill) <= 10
  {
  }

  /** With no context, variation or proficiency phrase the confidence is exactly the base 0.6. */
  lemma ConfidenceBase(text: string, skill: string)
    requires forall k :: 0 <= k < |PositiveContexts| ==> !ContextHit(Lower(text), Lower(skill), PositiveContexts[k])
    requires !VariationHit(Lower(text), Lower(skill)) && !ProficiencyHit(Lower(text), Lower(skill))
    ensures ConfidenceTenths(text, skill) == 6
  {
    ContextHitsNone(Lower(text), Lower(skill), PositiveContexts);
  }

  /** A text that hits at least the phrases another text hits gets at least its confidence. */
  lemma ConfidenceMonotone(t1: string, t2: string, skill: string)
    requires forall k :: 0 <= k < |PositiveContexts| ==>
      ContextHit(Lower(t1), Lower(skill), PositiveContexts[k]) ==> ContextHit(Lower(t2), Lower(skill), PositiveContexts[k])
    requires VariationHit(Lower(t1), Lower(skill)) ==> VariationHit(Lower(t2), Lower(skill))
    requires ProficiencyHit(Lower(t1), Lower(skill)) ==> ProficiencyHit(Lower(t2), Lower(skill))
    ensures ConfidenceTenths(t1, skill) <= ConfidenceTenths(t2, skill)
  {
    ContextHitsMonotone(Lower(t1), Lower(t2), Lower(skill), PositiveContexts);
  }

  /** Every context word counts once, whichever side it matches on, so 15 words add at most 1.5 (capped at 1.0). */
  lemma ConfidenceWithoutCap(text: string, skill: string)
    ensures var lt := Lower(text); var ls := Lower(skill);
      var sum := 6 + ContextHits(lt, ls, PositiveContexts) + Bonus(VariationHit(lt, ls), 1) + Bonus(ProficiencyHit(lt, ls), 2);
      ContextHits(lt, ls, PositiveContexts) <= |PositiveContexts| && (sum <= 10 ==> ConfidenceTenths(text, skill) == sum)
  {
    ContextHitsAtMost(Lower(text), Lower(skill), PositiveContexts);
  }

  method CalculateSkillConfidence(text: string, skill: string) returns (confidence: nat)
    ensures confidence == ConfidenceTenths(text, skill)
    ensures 6 <= confidence <= 10
  {
    var lowerText := Lower(text);
    var lowerSkill := Lower(skill);
    confidence := 6;
    for i := 0 to |PositiveContexts|
      invariant confidence == 6 + ContextHits(lowerText, lowerSkill, PositiveContexts[..i])
    {
      assert PositiveContexts[..i + 1][..i] == PositiveContexts[..i];
      var context := PositiveContexts[i];
      if Contains(lowerText, context + " " + lowerSkill) || Contains(lowerText, lowerSkill + " " + context) {
        confidence := confidence + 1;
      }
    }
    assert PositiveContexts[..|PositiveContexts|] == PositiveContexts;
    if VariationHit(lowerText, lowerSkill) {
      confidence := confidence + 1;
    }
    if ProficiencyHit(lowerText, lowerSkill) {
      confidence := confidence + 2;
    }
    confidence := Min(confidence, 10);
  }

  // ---------------------------------------------------------------------
  // Skills found per category (a `HashSet` per category)
  // ---------------------------------------------------------------------

  /** The set built by adding, in list order, every skill of `skills` found in `lowerText`. */
  function FoundSkills(lowerText: string, skills: seq<string>): seq<string>
  {
    if skills == [] then []
    else
      var prev := FoundSkills(lowerText, skills[..|skills| - 1]);
      var skill := skills[|skills| - 1];
      if IsSkillPresentInContext(lowerText, Lower(skill)) && skill !in prev then prev + [skill] else prev
  }

  /** A skill is collected iff it is in the list and found; each one once. */
  lemma {:induction false} FoundSkillsExactly(lowerText: string, skills: seq<string>)
    ensures forall s :: s in FoundSkills(lowerText, skills) <==> s in skills && IsSkillPresentInContext(lowerText, Lower(s))
    ensures NoDuplicates(FoundSkills(lowerText, skills))
    decreases |skills|
  {
    if skills != [] {
      var init := skills[..|skills| - 1];
      FoundSkillsExactly(lowerText, init);
      assert skills == init + [skills[|skills| - 1]];
    }
  }

  /** One (skill, category) pair of the JSON output. */
  datatype SkillMatch = SkillMatch(skill: string, category: Category)

  function PairsOf(skills: seq<string>, c: Category): (r: seq<SkillMatch>)
    ensures |r| == |skills| && forall k :: 0 <= k < |r| ==> r[k] == SkillMatch(skills[k], c)
  {
    seq(|skills|, k requires 0 <= k < |skills| => SkillMatch(skills[k], c))
  }

  /** The pairs of one category are its skills; no pair twice if no skill is repeated. */
  lemma PairsOfExactly(skills: seq<string>, c: Category)
    requires NoDuplicates(skills)
    ensures forall m :: m in PairsOf(skills, c) <==> m.skill in skills && m.category == c
    ensures NoDuplicates(PairsOf(skills, c))
  {
    var r := PairsOf(skills, c);
    forall m ensures m in r <==> m.skill in skills && m.category == c {
      if m.skill in skills && m.category == c {
        var k :| 0 <= k < |skills| && skills[k] == m.skill;
        assert r[k] == m;
      }
    }
  }

  /** The pairs found over `categories`, category by category. */
  function FoundPairs(lowerText: string, categories: seq<Category>): seq<SkillMatch>
  {
    if categories == [] then []
    else
      var c := categories[|categories| - 1];
      FoundPairs(lowerText, categories[..|categories| - 1]) + PairsOf(FoundSkills(lowerText, CategorySkills(c)), c)
  }

  /** A pair is emitted iff its skill belongs to its category and is found in the text; no pair twice. */
  lemma {:induction false} FoundPairsExactly(lowerText: string, categories: seq<Category>)
    requires NoDuplicates(categories)
    ensures forall m :: m in FoundPairs(lowerText, categories) <==>
      m.category in categories && m.skill in CategorySkills(m.category) && IsSkillPresentInContext(lowerText, Lower(m.skill))
    ensures NoDuplicates(FoundPairs(lowerText, categories))
    decreases |categories|
  {
    if categories != [] {
      var init := categories[..|categories| - 1];
      var c := categories[|categories| - 1];
      assert categories == init + [c];
      assert NoDuplicates(init);
      FoundPairsExactly(lowerText, init);
      var found := FoundSkills(lowerText, CategorySkills(c));
      FoundSkillsExactly(lowerText, CategorySkills(c));
      var prev := FoundPairs(lowerText, init);
      var now := PairsOf(found, c);
      PairsOfExactly(found, c);
      assert c !in init;
      NoDuplicatesConcat(prev, now);
    }
  }

  lemma CategoriesDistinct()
    ensures NoDuplicates(Categories)
    ensures forall c: Category :: c in Categories
  {
    forall c: Category ensures c in Categories {
      match c
      case ProgrammingLanguages => assert Categories[0] == c;
      case WebTechnologies => assert Categories[1] == c;
      case Frameworks => assert Categories[2] == c;
      case Databases => assert Categories[3] == c;
      case CloudDevOps => assert Categories[4] == c;
      case ToolsOthers => assert Categories[5] == c;
      case DataScienceAI => assert Categories[6] == c;
      case MobileDevelopment => assert Categories[7] == c;
    }
  }

  /** Every pair whose skill is listed under its category and found is emitted. */
  lemma FoundPairFor(text: string, skill: string, c: Category)
    requires skill in CategorySkills(c) && IsSkillPresentInContext(text, skill)
    ensures SkillMatch(skill, c) in FoundPairs(Lower(text), Categories)
  {
    CategoriesDistinct();
    PresentIgnoresCase(text, skill);
    FoundPairsExactly(Lower(text), Categories);
  }

  lemma SharedSkills()
    ensures "Swift" in ProgrammingLanguageSkills && "Swift" in MobileSkills
    ensures "Kotlin" in ProgrammingLanguageSkills && "Kotlin" in MobileSkills
  {
    assert ProgrammingLanguageSkills[10] == "Swift" && MobileSkills[7] == "Swift";
    assert ProgrammingLanguageSkills[9] == "Kotlin" && MobileSkills[9] == "Kotlin";
  }

  /**
   * `Swift` and `Kotlin` are in both Programming Languages and Mobile
   * Development, so a résumé naming them lists each twice.
   */
  lemma SharedSkillListedTwice(text: string, skill: string)
    requires skill == "Swift" || skill == "Kotlin"
    requires IsSkillPresentInContext(text, skill)
    ensures SkillMatch(skill, ProgrammingLanguages) in FoundPairs(Lower(text), Categories)
    ensures SkillMatch(skill, MobileDevelopment) in FoundPairs(Lower(text), Categories)
    ensures SkillMatch(skill, ProgrammingLanguages) != SkillMatch(skill, MobileDevelopment)
  {
    SharedSkills();
    FoundPairFor(text, skill, ProgrammingLanguages);
    FoundPairFor(text, skill, MobileDevelopment);
  }

  // ---------------------------------------------------------------------
  // The JSON text
  // ---------------------------------------------------------------------

  /** `%.2f` of a confidence between 0.0 and 1.0 held in tenths. */
  function FormatTenths(tenths: nat): (r: string)
    requires tenths <= 10
  {
    if tenths == 10 then "1.00" else "0." + [DigitChar(tenths)] + "0"
  }

  /** One object of the array, fields in the order `name`, `category`, `confidence`, nothing escaped. */
  function EntryText(skill: string, category: string, tenths: nat): string
    requires tenths <= 10
  {
    "{\"name\":\"" + skill + "\",\"category\":\"" + category + "\",\"confidence\":" + FormatTenths(tenths) + "}"
  }

  function Entry(text: string, m: SkillMatch): string
  {
    EntryText(m.skill, CategoryName(m.category), ConfidenceTenths(text, m.skill))
  }

  function Entries(text: string, pairs: seq<SkillMatch>): (r: seq<string>)
    ensures |r| == |pairs| && forall k :: 0 <= k < |r| ==> r[k] == Entry(text, pairs[k])
  {
    seq(|pairs|, k requires 0 <= k < |pairs| => Entry(text, pairs[k]))
  }

  /** The `skillsJson` that `extractSkills` stores for `text`. */
  function SkillsJson(text: string): string
  {
    JsonArray(Entries(text, FoundPairs(Lower(text), Categories)))
  }

  function JsonArray(entries: seq<string>): string
  {
    "[" + Join(entries, ",") + "]"
  }

  predicate BraceFree(xs: seq<string>) { forall j :: 0 <= j < |xs| ==> '{' !in xs[j] }

  lemma ProgrammingLanguagesBraceFree() ensures BraceFree(ProgrammingLanguageSkills) {}
  lemma WebTechnologiesBraceFree() ensures BraceFree(WebTechnologySkills) {}
  lemma FrameworksBraceFree() ensures BraceFree(FrameworkSkills) {}
  lemma DatabasesBraceFree() ensures BraceFree(DatabaseSkills) {}
  lemma CloudDevOpsBraceFree() ensures BraceFree(CloudDevOpsSkills) {}
  lemma ToolsBraceFree() ensures BraceFree(ToolSkills) {}
  lemma DataScienceBraceFree() ensures BraceFree(DataScienceSkills) {}
  lemma MobileBraceFree() ensures BraceFree(MobileSkills) {}

  /** No category name contains an opening brace. */
  lemma CategoryNameBraceFree(c: Category)
    ensures '{' !in CategoryName(c)
  {
  }

  /** No skill in the catalogue contains an opening brace. */
  lemma CategoryBraceFree(c: Category)
    ensures BraceFree(CategorySkills(c))
  {
    match c
    case ProgrammingLanguages => ProgrammingLanguagesBraceFree();
    case WebTechnologies => WebTechnologiesBraceFree();
    case Frameworks => FrameworksBraceFree();
    case Databases => DatabasesBraceFree();
    case CloudDevOps => CloudDevOpsBraceFree();
    case ToolsOthers => ToolsBraceFree();
    case DataScienceAI => DataScienceBraceFree();
    case MobileDevelopment => MobileBraceFree();
  }

  /** The number of opening braces in `s`, as `chars().filter(ch -> ch == '{').count()` counts them. */
  function BraceCount(s: string): nat
  {
    if s == [] then 0 else BraceCount(s[..|s| - 1]) + (if s[|s| - 1] == '{' then 1 else 0)
  }

  lemma {:induction false} BraceCountConcat(a: string, b: string)
    ensures BraceCount(a + b) == BraceCount(a) + BraceCount(b)
    decreases |b|
  {
    if b != [] {
      BraceCountConcat(a, b[..|b| - 1]);
      assert (a + b)[..|a + b| - 1] == a + b[..|b| - 1];
    } else {
      assert a + b == a;
    }
  }

  lemma {:induction false} BraceFreeCount(s: string)
    requires '{' !in s
    ensures BraceCount(s) == 0
    decreases |s|
  {
    if s != [] {
      assert s[|s| - 1] in s;
      BraceFreeCount(s[..|s| - 1]);
    }
  }

  lemma OneLeadingBrace(rest: string)
    requires '{' !in rest
    ensures BraceCount(['{'] + rest) == 1
  {
    BraceCountConcat(['{'], rest);
    BraceFreeCount(rest);
    assert ['{'][..0] == [];
  }

  lemma EntryHasOneBrace(skill: string, category: string, tenths: nat)
    requires tenths <= 10 && '{' !in skill && '{' !in category
    ensures BraceCount(EntryText(skill, category, tenths)) == 1
  {
    var f := FormatTenths(tenths);
    var rest := "\"name\":\"" + skill + "\",\"category\":\"" + category + "\",\"confidence\":" + f + "}";
    assert '{' !in rest by {
      assert '{' !in f;
      assert '{' !in "\"name\":\"" && '{' !in "\",\"category\":\"" && '{' !in "\",\"confidence\":";
    }
    assert EntryText(skill, category, tenths) == ['{'] + rest;
    OneLeadingBrace(rest);
  }

  /** Every part holds exactly one `{`. */
  predicate OneBraceEach(parts: seq<string>)
  {
    forall k :: 0 <= k < |parts| ==> BraceCount(parts[k]) == 1
  }

  lemma {:induction false} JoinCountsOnePerPart(parts: seq<string>, sep: string)
    requires '{' !in sep && OneBraceEach(parts)
    ensures BraceCount(Join(parts, sep)) == |parts|
    decreases |parts|
  {
    if |parts| >= 2 {
      assert forall k :: 0 <= k < |parts[1..]| ==> parts[1..][k] == parts[k + 1];
      JoinCountsOnePerPart(parts[1..], sep);
      assert Join(parts, sep) == parts[0] + sep + Join(parts[1..], sep);
      BraceCountConcat(parts[0] + sep, Join(parts[1..], sep));
      BraceCountConcat(parts[0], sep);
      BraceFreeCount(sep);
    }
  }

  /** Neither a catalogue skill nor its category name holds an opening brace. */
  lemma SkillBraceFree(skill: string, c: Category)
    requires skill in CategorySkills(c)
    ensures '{' !in skill && '{' !in CategoryName(c)
  {
    CategoryBraceFree(c);
    CategoryNameBraceFree(c);
    var j :| 0 <= j < |CategorySkills(c)| && CategorySkills(c)[j] == skill;
  }

  lemma EntriesHaveOneBrace(text: string)
    ensures OneBraceEach(Entries(text, FoundPairs(Lower(text), Categories)))
  {
    var pairs := FoundPairs(Lower(text), Categories);
    CategoriesDistinct();
    FoundPairsExactly(Lower(text), Categories);
    forall k | 0 <= k < |pairs| ensures BraceCount(Entry(text, pairs[k])) == 1 {
      var m := pairs[k];
      assert m in pairs;
      SkillBraceFree(m.skill, m.category);
      ConfidenceRange(text, m.skill);
      EntryHasOneBrace(m.skill, CategoryName(m.category), ConfidenceTenths(text, m.skill));
    }
  }

  lemma JsonArrayBraceCount(entries: seq<string>)
    requires OneBraceEach(entries)
    ensures BraceCount(JsonArray(entries)) == |entries|
  {
    JoinCountsOnePerPart(entries, ",");
    BraceCountConcat("[" + Join(entries, ","), "]");
    BraceCountConcat("[", Join(entries, ","));
    BraceFreeCount("[");
    BraceFreeCount("]");
  }

  /** The JSON holds exactly one `{` per (category, skill) pair found. */
  lemma SkillsJsonBraceCount(text: string)
    ensures BraceCount(SkillsJson(text)) == |FoundPairs(Lower(text), Categories)|
  {
    EntriesHaveOneBrace(text);
    JsonArrayBraceCount(Entries(text, FoundPairs(Lower(text), Categories)));
  }

  lemma JsonArrayEmpty(entries: seq<string>)
    requires OneBraceEach(entries)
    ensures JsonArray(entries) == "[]" <==> entries == []
  {
    JsonArrayBraceCount(entries);
    if entries == [] {
      assert JsonArray(entries) == "[" + "]";
    } else {
      assert '{' !in "[]";
    }
  }

  /** The JSON is `[]` exactly when no catalogue skill is found. */
  lemma SkillsJsonEmpty(text: string)
    ensures SkillsJson(text) == "[]" <==> FoundPairs(Lower(text), Categories) == []
  {
    EntriesHaveOneBrace(text);
    JsonArrayEmpty(Entries(text, FoundPairs(Lower(text), Categories)));
  }

  // ---------------------------------------------------------------------
  // `extractSkills`
  // ---------------------------------------------------------------------

  lemma EntriesSnoc(text: string, pairs: seq<SkillMatch>, m: SkillMatch)
    ensures Entries(text, pairs + [m]) == Entries(text, pairs) + [Entry(text, m)]
  {
  }

  lemma PairsOfSnoc(before: seq<SkillMatch>, skills: seq<string>, j: nat, c: Category)
    requires j < |skills|
    ensures before + PairsOf(skills[..j + 1], c) == before + PairsOf(skills[..j], c) + [SkillMatch(skills[j], c)]
  {
    assert PairsOf(skills[..j + 1], c) == PairsOf(skills[..j], c) + [SkillMatch(skills[j], c)];
  }

  /** The inner loop of the first phase of `extractSkills`: the set of found skills of one category. */
  method CollectCategory(lowerText: string, skills: seq<string>) returns (inCategory: seq<string>)
    ensures inCategory == FoundSkills(lowerText, skills)
  {
    inCategory := [];
    for j := 0 to |skills|
      invariant inCategory == FoundSkills(lowerText, skills[..j])
    {
      assert skills[..j + 1][..j] == skills[..j];
      var skill := skills[j];
      if IsSkillPresentInContext(lowerText, Lower(skill)) {
        if skill !in inCategory {
          inCategory := inCategory + [skill];
        }
      }
    }
    assert skills[..|skills|] == skills;
  }

  /** The skill list of each of `categories`. */
  function SkillLists(categories: seq<Category>): (r: seq<seq<string>>)
    ensures |r| == |categories| && forall k :: 0 <= k < |r| ==> r[k] == CategorySkills(categories[k])
  {
    seq(|categories|, k requires 0 <= k < |categories| => CategorySkills(categories[k]))
  }

  /** The found skills of each list, in order. */
  function FoundLists(lowerText: string, lists: seq<seq<string>>): (r: seq<seq<string>>)
    ensures |r| == |lists|
  {
    if lists == [] then []
    else FoundLists(lowerText, lists[..|lists| - 1]) + [FoundSkills(lowerText, lists[|lists| - 1])]
  }

  /** Entry `k` of the result is the found skills of list `k`. */
  lemma {:induction false} FoundListsAt(lowerText: string, lists: seq<seq<string>>, k: nat)
    requires k < |lists|
    ensures FoundLists(lowerText, lists)[k] == FoundSkills(lowerText, lists[k])
    decreases |lists|
  {
    var n := |lists|;
    var init := lists[..n - 1];
    assert FoundLists(lowerText, lists) == FoundLists(lowerText, init) + [FoundSkills(lowerText, lists[n - 1])];
    if k < n - 1 {
      FoundListsAt(lowerText, init, k);
      assert init[k] == lists[k];
    }
  }

  /** The first phase of `extractSkills`: one set of found skills per category's list. */
  method CollectSkills(lowerText: string, lists: seq<seq<string>>) returns (found: seq<seq<string>>)
    ensures found == FoundLists(lowerText, lists)
  {
    found := [];
    for ci := 0 to |lists|
      invariant found == FoundLists(lowerText, lists[..ci])
    {
      var inCategory := CollectCategory(lowerText, lists[ci]);
      assert lists[..ci + 1][..ci] == lists[..ci];
      found := found + [inCategory];
    }
    assert lists[..|lists|] == lists;
  }

  /** Appending an object to the array text so far: a comma first unless it is the first object. */
  lemma AppendEntry(entries: seq<string>, e: string)
    ensures "[" + Join(entries + [e], ",") == if entries == [] then "[" + e else "[" + Join(entries, ",") + "," + e
  {
    JoinSnoc(entries, e, ",");
    if entries != [] {
      assert "[" + (Join(entries, ",") + "," + e) == "[" + Join(entries, ",") + "," + e;
    }
  }

  /** One object of the array: a comma first unless it is the first object. */
  method AppendPair(text: string, m: SkillMatch, json0: string, first0: bool, ghost before: seq<SkillMatch>)
    returns (json: string, first: bool, ghost after: seq<SkillMatch>)
    requires json0 == "[" + Join(Entries(text, before), ",") && (first0 <==> before == [])
    ensures after == before + [m]
    ensures json == "[" + Join(Entries(text, after), ",") && !first
  {
    json := json0;
    if !first0 {
      json := json + ",";
    }
    var confidence := CalculateSkillConfidence(text, m.skill);
    json := json + EntryText(m.skill, CategoryName(m.category), confidence);
    first := false;
    AppendEntry(Entries(text, before), Entry(text, m));
    EntriesSnoc(text, before, m);
    after := before + [m];
  }

  /** The inner loop of the second phase: one object per found skill of category `c`. */
  method AppendCategoryEntries(text: string, c: Category, skills: seq<string>, json0: string, first0: bool,
                               ghost before: seq<SkillMatch>)
    returns (json: string, first: bool, ghost after: seq<SkillMatch>)
    requires json0 == "[" + Join(Entries(text, before), ",") && (first0 <==> before == [])
    ensures after == before + PairsOf(skills, c)
    ensures json == "[" + Join(Entries(text, after), ",") && (first <==> after == [])
  {
    json, first, after := json0, first0, before;
    for j := 0 to |skills|
      invariant after == before + PairsOf(skills[..j], c)
      invariant json == "[" + Join(Entries(text, after), ",")
      invariant first <==> after == []
    {
      PairsOfSnoc(before, skills, j, c);
      json, first, after := AppendPair(text, SkillMatch(skills[j], c), json, first, after);
    }
    assert skills[..|skills|] == skills;
  }

  /** The pairs of `found`, list `k` paired with category `k`. */
  function PairsIn(categories: seq<Category>, found: seq<seq<string>>): seq<SkillMatch>
    requires |found| == |categories|
  {
    if categories == [] then []
    else
      var n := |categories|;
      PairsIn(categories[..n - 1], found[..n - 1]) + PairsOf(found[n - 1], categories[n - 1])
  }

  /** Pairing the found lists with their categories gives the pairs found over the categories. */
  lemma {:induction false} FoundListsPairs(lowerText: string, categories: seq<Category>)
    ensures PairsIn(categories, FoundLists(lowerText, SkillLists(categories))) == FoundPairs(lowerText, categories)
    decreases |categories|
  {
    if categories != [] {
      var n := |categories|;
      var init := categories[..n - 1];
      var lists := SkillLists(categories);
      assert lists[..n - 1] == SkillLists(init);
      var found := FoundLists(lowerText, lists);
      assert found == FoundLists(lowerText, lists[..n - 1]) + [FoundSkills(lowerText, lists[n - 1])];
      assert found[..n - 1] == FoundLists(lowerText, SkillLists(init));
      FoundListsPairs(lowerText, init);
    }
  }

  /** The second phase of `extractSkills`: the array of objects, a comma before every one but the first. */
  method WriteSkillsJson(text: string, categories: seq<Category>, found: seq<seq<string>>)
    returns (json: string)
    requires |found| == |categories|
    ensures json == JsonArray(Entries(text, PairsIn(categories, found)))
  {
    json := "[";
    var first := true;
    ghost var pairs: seq<SkillMatch> := [];
    for ci := 0 to |categories|
      invariant pairs == PairsIn(categories[..ci], found[..ci])
      invariant json == "[" + Join(Entries(text, pairs), ",")
      invariant first <==> pairs == []
    {
      assert categories[..ci + 1][..ci] == categories[..ci];
      assert found[..ci + 1][..ci] == found[..ci];
      json, first, pairs := AppendCategoryEntries(text, categories[ci], found[ci], json, first, pairs);
    }
    assert categories[..|categories|] == categories;
    assert found[..|found|] == found;
    json := json + "]";
  }

  /** `extractSkills`: stores the JSON of every catalogue skill found in `text`. */
  method ExtractSkills(resume: Resume, text: string)
    modifies resume`skillsJson
    ensures resume.skillsJson == Some(SkillsJson(text))
  {
    var lowerText := Lower(text);
    var found := CollectSkills(lowerText, SkillLists(Categories));
    var json := WriteSkillsJson(text, Categories, found);
    FoundListsPairs(lowerText, Categories);
    resume.skillsJson := Some(json);
  }

  /** `countSkillsByCategory`: the category is ignored; the `[]` test is subsumed by counting braces. */
  function CountSkillsByCategory(resume: Resume, category: string): (n: nat)
    reads resume
    ensures resume.skillsJson.None? ==> n == 0
    ensures resume.skillsJson.Some? ==> n == BraceCount(resume.skillsJson.value)
  {
    if resume.skillsJson.None? || resume.skillsJson.value == "[]" then BraceFreeCount("[]"); 0 else BraceCount(resume.skillsJson.value)
  }

  /** After `extractSkills`, every category name gets the number of pairs found, the empty array giving 0. */
  lemma CountAfterExtraction(resume: Resume, text: string, category: string)
    requires resume.skillsJson == Some(SkillsJson(text))
    ensures CountSkillsByCategory(resume, category) == |FoundPairs(Lower(text), Categories)|
  {
    SkillsJsonBraceCount(text);
  }

  // ---------------------------------------------------------------------
  // `extractSoftSkills`
  // ---------------------------------------------------------------------

  const SoftSkills: seq<string> := ["Leadership", "Communication", "Problem Solving", "Teamwork", "Creativity",
    "Critical Thinking", "Time Management", "Adaptability", "Work Ethic", "Interpersonal Skills",
    "Project Management", "Analytical Skills"]

  /** The skills of `skills` found in `lowerText`, kept in list order and with repeats. */
  function PresentSkills(lowerText: string, skills: seq<string>): seq<string>
  {
    if skills == [] then []
    else
      var skill := skills[|skills| - 1];
      PresentSkills(lowerText, skills[..|skills| - 1]) + (if IsSkillPresentInContext(lowerText, Lower(skill)) then [skill] else [])
  }

  /** The soft skills returned are the vocabulary entries found, in vocabulary order. */
  lemma {:induction false} PresentSkillsExactly(lowerText: string, skills: seq<string>)
    ensures forall s :: s in PresentSkills(lowerText, skills) <==> s in skills && IsSkillPresentInContext(lowerText, Lower(s))
    ensures IsSubsequence(PresentSkills(lowerText, skills), skills)
    decreases |skills|
  {
    if skills != [] {
      var init := skills[..|skills| - 1];
      var skill := skills[|skills| - 1];
      PresentSkillsExactly(lowerText, init);
      assert skills == init + [skill];
      var prev := PresentSkills(lowerText, init);
      var r := PresentSkills(lowerText, skills);
      assert skills[..|skills| - 1] == init;
      if IsSkillPresentInContext(lowerText, Lower(skill)) {
        assert r == prev + [skill];
        assert r[..|r| - 1] == prev;
        assert IsSubsequence(r, skills);
      } else {
        assert r == prev;
        assert IsSubsequence(r, skills);
      }
    }
  }

  /** The loop of `extractSoftSkills` over a vocabulary. */
  method FindPresent(lowerText: string, skills: seq<string>) returns (found: seq<string>)
    ensures found == PresentSkills(lowerText, skills)
  {
    found := [];
    for i := 0 to |skills|
      invariant found == PresentSkills(lowerText, skills[..i])
    {
      assert skills[..i + 1][..i] == skills[..i];
      var skill := skills[i];
      if IsSkillPresentInContext(lowerText, Lower(skill)) {
        found := found + [skill];
      }
    }
    assert skills[..|skills|] == skills;
  }

  /** `extractSoftSkills`: the soft skills named in `text`, in vocabulary order. */
  method ExtractSoftSkills(text: string) returns (found: seq<string>)
    ensures found == PresentSkills(Lower(text), SoftSkills)
  {
    var lowerText := Lower(text);
    found := FindPresent(lowerText, SoftSkills);
  }
}
