/** The deterministic parts of the smart cover-letter generator: reading a job description
    (`parseJobDescription`), matching a résumé against it (`buildContext`), and the two
    string helpers `formatList` and `sanitize`. */
module Smart {
  import opened Text
  import opened Regex
  import opened Lists
  import opened Storage

  // ===========================================================================
  // The parsed job
  // ===========================================================================

  datatype Seniority = Intern | Entry | Mid | Senior | Lead | Executive

  /** `ParsedJob`; its optional `department` and `location` are never set by the parser. */
  datatype ParsedJob = ParsedJob(
    companyName: string, jobTitle: string, requirements: seq<string>,
    responsibilities: seq<string>, skills: seq<string>, isInternship: bool, isRemote: bool,
    seniority: Seniority)

  /** The backtracking company and title expressions, as matchers:
      `knownCompany(k, text)` is the test of entry `k` of the known-company table on the text;
      `corpGroup(k, s)` is group 1 of corporate pattern `k` (0 to 2) matched against the
      normalised text, `None` when there is no match or the group did not take part;
      `titleGroup(k, text)` is group 1 of explicit title pattern `k` (0 to 2). */
  datatype JobMatchers = JobMatchers(
    knownCompany: (nat, string) -> bool,
    corpGroup: (nat, string) -> Option<string>,
    titleGroup: (nat, string) -> Option<string>)

  /** `text.replace(/\s+/g, ' ').trim()`. */
  function Normalized(text: string): string
  {
    Trim(ReplaceAll(Sensitive(Plus(Space)), text, Const(" ")))
  }

  /** The trimmed pieces, in order. */
  function TrimmedPieces(parts: seq<string>): (r: seq<string>)
    ensures |r| == |parts| && forall k :: 0 <= k < |r| ==> r[k] == Trim(parts[k])
  {
    seq(|parts|, k requires 0 <= k < |parts| => Trim(parts[k]))
  }

  /** `text.split('\n').map(l => l.trim()).filter(Boolean)`. */
  function Lines(text: string): seq<string>
  {
    Select(TrimmedPieces(SplitOn(text, '\n')), NonEmpty)
  }

  // ===========================================================================
  // Company name
  // ===========================================================================

  predicate Named(xs: seq<string>)
  {
    forall k :: 0 <= k < |xs| ==> xs[k] != ""
  }

  // The names of the known-company table, in table order, by the table's own groups.
  // Tech Giants
  const TECH_GIANTS: seq<string> := [
    "Google", "Meta", "Amazon", "Microsoft", "Apple", "Netflix", "Salesforce", "Oracle", "IBM",
    "Cisco", "Intel", "NVIDIA", "AMD", "Qualcomm", "Adobe", "VMware", "Snowflake", "Datadog",
    "Stripe", "Block", "Shopify", "Uber", "Lyft", "Airbnb", "DoorDash", "Instacart", "X",
    "LinkedIn", "Spotify", "Zoom", "Slack", "Asana", "Notion", "Figma", "Canva", "Palantir",
    "OpenAI", "Anthropic"]
  // Finance
  const FINANCE: seq<string> := [
    "Goldman Sachs", "JPMorgan", "Morgan Stanley", "Bank of America", "Citi", "Wells Fargo",
    "BlackRock", "Fidelity", "Vanguard", "Capital One", "American Express", "Visa", "Mastercard",
    "PayPal", "Robinhood", "Coinbase"]
  // Consulting
  const CONSULTING: seq<string> := [
    "McKinsey", "BCG", "Bain & Company", "Deloitte", "PwC", "EY", "KPMG", "Accenture",
    "Booz Allen Hamilton"]
  // Semiconductor & Hardware
  const SEMICONDUCTOR_HARDWARE: seq<string> := [
    "Tokyo Electron", "Tokyo Electron", "ASML", "Lam Research", "Applied Materials", "Micron",
    "Samsung", "TSMC", "Broadcom", "Texas Instruments", "Analog Devices"]
  // Healthcare & Pharma
  const HEALTHCARE_PHARMA: seq<string> := [
    "Pfizer", "Johnson & Johnson", "Merck", "AbbVie", "Bristol-Myers Squibb", "Novartis",
    "Roche", "Genentech", "Gilead", "Moderna", "Amgen", "UnitedHealth", "CVS Health",
    "Kaiser Permanente"]
  // Retail & Consumer
  const RETAIL_CONSUMER: seq<string> := [
    "Walmart", "Target", "Costco", "Home Depot", "Lowe's", "Nike", "Starbucks", "McDonald's",
    "Coca-Cola", "PepsiCo", "Procter & Gamble", "Unilever", "Nestl\U{00E9}"]
  // Data & Analytics
  const DATA_ANALYTICS: seq<string> := [
    "S&P Global", "Bloomberg", "Reuters", "Moody's", "Fitch Ratings"]
  // Aerospace & Defense
  const AEROSPACE_DEFENSE: seq<string> := [
    "Boeing", "Lockheed Martin", "Northrop Grumman", "Raytheon", "General Dynamics", "SpaceX",
    "Blue Origin"]
  // Automotive
  const AUTOMOTIVE: seq<string> := [
    "Tesla", "Ford", "General Motors", "Toyota", "Honda", "BMW", "Mercedes-Benz", "Volkswagen",
    "Rivian", "Lucid Motors", "Waymo"]
  // Energy
  const ENERGY: seq<string> := [
    "ExxonMobil", "Chevron", "Shell", "BP", "ConocoPhillips", "NextEra Energy"]
  const KNOWN_COMPANIES: seq<string> :=
    TECH_GIANTS + FINANCE + CONSULTING + SEMICONDUCTOR_HARDWARE + HEALTHCARE_PHARMA
    + RETAIL_CONSUMER + DATA_ANALYTICS + AEROSPACE_DEFENSE + AUTOMOTIVE + ENERGY

  lemma NamedConcat(a: seq<string>, b: seq<string>)
    requires Named(a) && Named(b)
    ensures Named(a + b)
  {
    forall k | 0 <= k < |a + b| ensures (a + b)[k] != "" {
      if k >= |a| {
        assert (a + b)[k] == b[k - |a|];
      }
    }
  }

  /** Every name of the table is non-empty, so a found name ends the scan. */
  lemma KnownNamed()
    ensures Named(KNOWN_COMPANIES)
  {
    assert Named(TECH_GIANTS);
    assert Named(FINANCE);
    assert Named(CONSULTING);
    assert Named(SEMICONDUCTOR_HARDWARE);
    assert Named(HEALTHCARE_PHARMA);
    assert Named(RETAIL_CONSUMER);
    assert Named(DATA_ANALYTICS);
    assert Named(AEROSPACE_DEFENSE);
    assert Named(AUTOMOTIVE);
    assert Named(ENERGY);
    NamedConcat(TECH_GIANTS, FINANCE);
    NamedConcat(TECH_GIANTS + FINANCE, CONSULTING);
    NamedConcat(TECH_GIANTS + FINANCE + CONSULTING, SEMICONDUCTOR_HARDWARE);
    NamedConcat(TECH_GIANTS + FINANCE + CONSULTING + SEMICONDUCTOR_HARDWARE, HEALTHCARE_PHARMA);
    NamedConcat(TECH_GIANTS + FINANCE + CONSULTING + SEMICONDUCTOR_HARDWARE + HEALTHCARE_PHARMA,
      RETAIL_CONSUMER);
    NamedConcat(TECH_GIANTS + FINANCE + CONSULTING + SEMICONDUCTOR_HARDWARE + HEALTHCARE_PHARMA
      + RETAIL_CONSUMER, DATA_ANALYTICS);
    NamedConcat(TECH_GIANTS + FINANCE + CONSULTING + SEMICONDUCTOR_HARDWARE + HEALTHCARE_PHARMA
      + RETAIL_CONSUMER + DATA_ANALYTICS, AEROSPACE_DEFENSE);
    NamedConcat(TECH_GIANTS + FINANCE + CONSULTING + SEMICONDUCTOR_HARDWARE + HEALTHCARE_PHARMA
      + RETAIL_CONSUMER + DATA_ANALYTICS + AEROSPACE_DEFENSE, AUTOMOTIVE);
    NamedConcat(TECH_GIANTS + FINANCE + CONSULTING + SEMICONDUCTOR_HARDWARE + HEALTHCARE_PHARMA
      + RETAIL_CONSUMER + DATA_ANALYTICS + AEROSPACE_DEFENSE + AUTOMOTIVE, ENERGY);
  }

  /** The name of the first table entry from `k` on whose pattern tests the text, or `''`. */
  function KnownName(m: JobMatchers, text: string, k: nat): string
    decreases |KNOWN_COMPANIES| - k
  {
    if k >= |KNOWN_COMPANIES| then ""
    else if m.knownCompany(k, text) then KNOWN_COMPANIES[k]
    else KnownName(m, text, k + 1)
  }

  const BAD_WORDS: seq<string> :=
    ["the", "this", "that", "with", "from", "your", "about", "join", "apply", "position", "role",
     "job", "we", "our"]

  /** A candidate of 3 to 50 characters that is not one of the bad words (compared in lower
      case). */
  predicate Acceptable(candidate: string)
  {
    3 <= |candidate| <= 50 && ToLower(candidate) !in BAD_WORDS
  }

  const CORP_PATTERNS: nat := 3

  /** The trimmed group 1 of the first corporate pattern from `k` on whose group is non-empty
      and acceptable once trimmed, or `''`. */
  function CorpName(m: JobMatchers, normalized: string, k: nat): string
    decreases CORP_PATTERNS - k
  {
    if k >= CORP_PATTERNS then ""
    else
      match m.corpGroup(k, normalized)
      case Some(g) =>
        if g != "" && Acceptable(Trim(g)) then Trim(g) else CorpName(m, normalized, k + 1)
      case None => CorpName(m, normalized, k + 1)
  }

  /** The company before the default is applied: the known-company scan, then the corporate
      patterns on the normalised text. */
  function CompanyOf(m: JobMatchers, text: string): string
  {
    var known := KnownName(m, text, 0);
    if known != "" then known else CorpName(m, Normalized(text), 0)
  }

  /** The known-company scan: the first entry in table order whose pattern tests the text. */
  method DetectKnownCompany(m: JobMatchers, text: string) returns (companyName: string)
    ensures companyName == KnownName(m, text, 0)
  {
    companyName := "";
    var k := 0;
    while k < |KNOWN_COMPANIES|
      invariant k <= |KNOWN_COMPANIES|
      invariant KnownName(m, text, k) == KnownName(m, text, 0)
    {
      if m.knownCompany(k, text) {
        companyName := KNOWN_COMPANIES[k];
        break;
      }
      k := k + 1;
    }
  }

  /** The corporate-pattern scan: the first acceptable trimmed group. */
  method DetectCorpCompany(m: JobMatchers, normalized: string) returns (companyName: string)
    ensures companyName == CorpName(m, normalized, 0)
  {
    companyName := "";
    var j := 0;
    while j < CORP_PATTERNS
      invariant j <= CORP_PATTERNS
      invariant CorpName(m, normalized, j) == CorpName(m, normalized, 0)
    {
      var group := m.corpGroup(j, normalized);
      if group.Some? && group.value != "" {
        var candidate := Trim(group.value);
        if Acceptable(candidate) {
          companyName := candidate;
          break;
        }
      }
      j := j + 1;
    }
  }

  /** The two scans of `parseJobDescription`, the second only when the first finds nothing. */
  method DetectCompany(m: JobMatchers, text: string) returns (companyName: string)
    ensures companyName == CompanyOf(m, text)
  {
    companyName := DetectKnownCompany(m, text);
    if companyName == "" {
      companyName := DetectCorpCompany(m, Normalized(text));
    }
  }

  // ===========================================================================
  // Job title
  // ===========================================================================

  /** `titleKeywords`. */
  const TITLE_KEYWORDS: Pattern :=
    Insensitive(Seqs([B, Group(1, Alts([
      Words(["intern", "engineer", "developer", "analyst", "scientist", "manager", "director",
        "specialist", "coordinator", "associate", "consultant", "designer", "architect", "lead",
        "administrator", "technician", "representative", "assistant", "officer", "executive",
        "head", "vp"]),
      Seqs([Lit("vice"), Star(Space), Lit("president")]),
      Words(["principal", "staff"])])), B]))

  /** `/\s*[\(\[][^\)\]]*[\)\]]/g`: a bracketed aside with the white space before it. */
  const BRACKETED: Pattern :=
    Sensitive(Seqs([Star(Space), Chars("(["), Star(NotChars(")]")), Chars(")]")]))

  function StripBrackets(s: string): string
  {
    ReplaceAll(BRACKETED, s, Const(""))
  }

  /** The first line as the title, when it names a title keyword and is shorter than 100
      characters; `''` otherwise. */
  function FirstLineTitle(lines: seq<string>): string
  {
    if lines != [] && Test(TITLE_KEYWORDS, lines[0]) && |lines[0]| < 100
    then Trim(StripBrackets(lines[0]))
    else ""
  }

  /** A candidate title from an explicit pattern: 5 to 80 characters naming a keyword. */
  predicate TitleCandidate(candidate: string)
  {
    5 <= |candidate| <= 80 && Test(TITLE_KEYWORDS, candidate)
  }

  const TITLE_PATTERNS: nat := 3

  /** The cleaned trimmed group 1 of the first title pattern from `k` on whose group is a
      candidate, or `''`. */
  function PatternTitle(m: JobMatchers, text: string, k: nat): string
    decreases TITLE_PATTERNS - k
  {
    if k >= TITLE_PATTERNS then ""
    else
      match m.titleGroup(k, text)
      case Some(g) =>
        if g != "" && TitleCandidate(Trim(g)) then Trim(StripBrackets(Trim(g)))
        else PatternTitle(m, text, k + 1)
      case None => PatternTitle(m, text, k + 1)
  }

  /** The title before the default is applied. */
  function TitleOf(m: JobMatchers, text: string): string
  {
    var first := FirstLineTitle(Lines(text));
    if first != "" then first else PatternTitle(m, text, 0)
  }

  /** A pattern whose group is not a candidate passes the choice on. */
  lemma PatternTitleNext(m: JobMatchers, text: string, k: nat)
    requires k < TITLE_PATTERNS
    requires var g := m.titleGroup(k, text); !(g.Some? && g.value != "" && TitleCandidate(Trim(g.value)))
    ensures PatternTitle(m, text, k) == PatternTitle(m, text, k + 1)
  {
  }

  /** The explicit title patterns, tried in order. */
  method DetectPatternTitle(m: JobMatchers, text: string) returns (jobTitle: string)
    ensures jobTitle == PatternTitle(m, text, 0)
  {
    jobTitle := "";
    var k := 0;
    while k < TITLE_PATTERNS
      invariant k <= TITLE_PATTERNS
      invariant PatternTitle(m, text, k) == PatternTitle(m, text, 0)
    {
      var group := m.titleGroup(k, text);
      if group.Some? && group.value != "" {
        var candidate := Trim(group.value);
        if TitleCandidate(candidate) {
          jobTitle := Trim(StripBrackets(candidate));
          break;
        }
      }
      PatternTitleNext(m, text, k);
      k := k + 1;
    }
  }

  method DetectTitle(m: JobMatchers, text: string) returns (jobTitle: string)
    ensures jobTitle == TitleOf(m, text)
  {
    var lines := Lines(text);
    jobTitle := "";
    if lines != [] && Test(TITLE_KEYWORDS, lines[0]) && |lines[0]| < 100 {
      jobTitle := Trim(StripBrackets(lines[0]));
    }
    if jobTitle == "" {
      jobTitle := DetectPatternTitle(m, text);
    }
  }

  // ===========================================================================
  // Skills
  // ===========================================================================

  const TECHNICAL_SKILLS: seq<string> := [
    "python", "java", "javascript", "typescript", "c++", "c#", "go", "rust", "swift", "kotlin",
    "react", "angular", "vue", "node.js", "django", "flask", "spring", "express",
    "sql", "postgresql", "mysql", "mongodb", "redis", "elasticsearch",
    "aws", "azure", "gcp", "docker", "kubernetes", "terraform",
    "machine learning", "deep learning", "data science", "data analysis",
    "tensorflow", "pytorch", "scikit-learn", "pandas", "numpy",
    "git", "ci/cd", "agile", "scrum", "jira",
    "excel", "powerpoint", "tableau", "power bi", "matlab", "r",
    "communication", "leadership", "teamwork", "problem-solving", "analytical"]

  /** The skills the lower-cased text contains as substrings. */
  function MentionedIn(lowerText: string): string -> bool
  {
    skill => Contains(lowerText, skill)
  }

  /** Every technical skill the text mentions, in list order, before the cap of 15. */
  function Mentioned(text: string): seq<string>
  {
    Select(TECHNICAL_SKILLS, MentionedIn(ToLower(text)))
  }

  /** The candidates the lower-cased text contains, in order. */
  method ScanMentions(candidates: seq<string>, lowerText: string) returns (found: seq<string>)
    ensures found == Select(candidates, MentionedIn(lowerText))
  {
    found := [];
    var i := 0;
    while i < |candidates|
      invariant i <= |candidates|
      invariant found == Select(candidates[..i], MentionedIn(lowerText))
    {
      SelectPrefixSnoc(candidates, i, MentionedIn(lowerText));
      if Contains(lowerText, candidates[i]) {
        found := found + [candidates[i]];
      }
      i := i + 1;
    }
    assert candidates[..i] == candidates;
  }

  method DetectSkills(text: string) returns (skills: seq<string>)
    ensures skills == Mentioned(text)
  {
    skills := ScanMentions(TECHNICAL_SKILLS, ToLower(text));
  }

  // ===========================================================================
  // Requirements and responsibilities
  // ===========================================================================

  /** `/(?:^|\n)\s*[•\-\*]\s*([^\n]+)/g`. */
  const BULLET_LINE: Pattern :=
    Sensitive(Seqs([Alt(InputStart, Chr('\n')), Star(Space), Chars("•-*"), Star(Space),
      Group(1, Plus(NotChars("\n")))]))

  /** The whole matches of the bullet-line pattern, in order. */
  function BulletLines(text: string): seq<string>
  {
    MatchAllTexts(BULLET_LINE, text)
  }

  predicate IsMark(c: char)
  {
    IsSpace(c) || c in "•-*"
  }

  /** `replace(/^[\s•\-\*]+/, '')`. */
  function StripMarks(s: string): (r: string)
    ensures |r| <= |s| && r == s[|s| - |r|..]
    ensures forall k :: 0 <= k < |s| - |r| ==> IsMark(s[k])
    ensures r != [] ==> !IsMark(r[0])
  {
    if s != [] && IsMark(s[0]) then StripMarks(s[1..]) else s
  }

  /** A line with its leading marks removed, then trimmed. */
  function Clean(line: string): string
  {
    Trim(StripMarks(line))
  }

  function Cleaned(lines: seq<string>): (r: seq<string>)
    ensures |r| == |lines| && forall k :: 0 <= k < |r| ==> r[k] == Clean(lines[k])
  {
    Mapped(lines, Clean)
  }

  lemma CleanedSnoc(lines: seq<string>, i: nat)
    requires i < |lines|
    ensures Cleaned(lines[..i + 1]) == Cleaned(lines[..i]) + [Clean(lines[i])]
  {
    MappedSnoc(lines, i, Clean);
  }

  const REQUIREMENT_WORDS: seq<string> :=
    ["experience", "knowledge", "ability", "skill", "proficien", "familiar"]
  const RESPONSIBILITY_WORDS: seq<string> :=
    ["will", "responsible", "develop", "design", "create", "manage", "support", "work"]

  /** A case-insensitive test of an alternation of plain words: one of them occurs in the
      lower-cased text. */
  predicate HasWord(s: string, words: seq<string>)
  {
    exists k :: 0 <= k < |words| && Contains(ToLower(s), words[k])
  }

  predicate Sized(clean: string)
  {
    10 < |clean| < 200
  }

  predicate IsRequirement(clean: string)
  {
    Sized(clean) && HasWord(clean, REQUIREMENT_WORDS)
  }

  predicate IsResponsibility(clean: string)
  {
    Sized(clean) && !HasWord(clean, REQUIREMENT_WORDS) && HasWord(clean, RESPONSIBILITY_WORDS)
  }

  /** The cleaned forms of the first 10 bullet lines. */
  function Considered(text: string): seq<string>
  {
    Cleaned(Take(BulletLines(text), 10))
  }

  method SortBullets(bulletLines: seq<string>) returns (requirements: seq<string>, responsibilities: seq<string>)
    ensures requirements == Select(Cleaned(Take(bulletLines, 10)), IsRequirement)
    ensures responsibilities == Select(Cleaned(Take(bulletLines, 10)), IsResponsibility)
  {
    var first := Take(bulletLines, 10);
    requirements, responsibilities := [], [];
    var i := 0;
    while i < |first|
      invariant i <= |first|
      invariant requirements == Select(Cleaned(first[..i]), IsRequirement)
      invariant responsibilities == Select(Cleaned(first[..i]), IsResponsibility)
    {
      var clean := Clean(first[i]);
      CleanedSnoc(first, i);
      SelectSnoc(Cleaned(first[..i]), clean, IsRequirement);
      SelectSnoc(Cleaned(first[..i]), clean, IsResponsibility);
      if Sized(clean) {
        if HasWord(clean, REQUIREMENT_WORDS) {
          requirements := requirements + [clean];
        } else if HasWord(clean, RESPONSIBILITY_WORDS) {
          responsibilities := responsibilities + [clean];
        }
      }
      i := i + 1;
    }
    assert first[..i] == first;
  }

  // ===========================================================================
  // Job type and seniority
  // ===========================================================================

  /** `/\b(intern|internship|co-op|summer\s+\d{4})\b/i`. */
  const INTERNSHIP: Pattern :=
    Insensitive(Seqs([B, Group(1, Alts([Lit("intern"), Lit("internship"), Lit("co-op"),
      Seqs([Lit("summer"), Plus(Space), Rep(Digit, 4, 4)])])), B]))

  /** `/\b(remote|work\s+from\s+home|wfh|hybrid)\b/i`. */
  const REMOTE: Pattern :=
    Insensitive(Seqs([B, Group(1, Alts([Lit("remote"),
      Seqs([Lit("work"), Plus(Space), Lit("from"), Plus(Space), Lit("home")]), Lit("wfh"),
      Lit("hybrid")])), B]))

  /** `years?` */
  const YEARS: Re := Seqs([Lit("year"), Opt(Chr('s'))])

  /** `/\b(entry.?level|junior|new\s+grad|0-2\s+years?)\b/i`. */
  const ENTRY_LEVEL: Pattern :=
    Insensitive(Seqs([B, Group(1, Alts([Seqs([Lit("entry"), Opt(Dot), Lit("level")]), Lit("junior"),
      Seqs([Lit("new"), Plus(Space), Lit("grad")]), Seqs([Lit("0-2"), Plus(Space), YEARS])])), B]))

  /** `/\b(senior|sr\.?|5\+\s+years?|7\+\s+years?)\b/i`. */
  const SENIOR_LEVEL: Pattern :=
    Insensitive(Seqs([B, Group(1, Alts([Lit("senior"), Seqs([Lit("sr"), Opt(Chr('.'))]),
      Seqs([Lit("5+"), Plus(Space), YEARS]), Seqs([Lit("7+"), Plus(Space), YEARS])])), B]))

  /** `/\b(lead|principal|staff|architect)\b/i`. */
  const LEAD_LEVEL: Pattern :=
    Insensitive(Seqs([B, Group(1, Words(["lead", "principal", "staff", "architect"])), B]))

  /** `/\b(director|vp|vice\s*president|head\s+of|c-level|chief)\b/i`. */
  const EXECUTIVE_LEVEL: Pattern :=
    Insensitive(Seqs([B, Group(1, Alts([Lit("director"), Lit("vp"),
      Seqs([Lit("vice"), Star(Space), Lit("president")]), Seqs([Lit("head"), Plus(Space), Lit("of")]),
      Lit("c-level"), Lit("chief")])), B]))

  /** The seniority ladder: `mid` unless one of the tests passes, the first passing one
      deciding. */
  function SeniorityOf(isInternship: bool, text: string): Seniority
  {
    if isInternship then Intern
    else if Test(ENTRY_LEVEL, text) then Entry
    else if Test(SENIOR_LEVEL, text) then Senior
    else if Test(LEAD_LEVEL, text) then Lead
    else if Test(EXECUTIVE_LEVEL, text) then Executive
    else Mid
  }

  // ===========================================================================
  // parseJobDescription
  // ===========================================================================

  /** The company, defaulting to `'the company'`. */
  function JobCompany(m: JobMatchers, text: string): string
  {
    OrElse(CompanyOf(m, text), "the company")
  }

  /** The title, defaulting to `'this position'`. */
  function JobTitle(m: JobMatchers, text: string): string
  {
    OrElse(TitleOf(m, text), "this position")
  }

  function Requirements(text: string): seq<string>
  {
    Select(Considered(text), IsRequirement)
  }

  function Responsibilities(text: string): seq<string>
  {
    Select(Considered(text), IsResponsibility)
  }

  /** `skills.slice(0, 15)`. */
  function JobSkills(text: string): seq<string>
  {
    Take(Mentioned(text), 15)
  }

  function JobSeniority(text: string): Seniority
  {
    SeniorityOf(Test(INTERNSHIP, text), text)
  }

  /** What `parseJobDescription` returns. */
  function JobOf(m: JobMatchers, text: string): ParsedJob
  {
    ParsedJob(JobCompany(m, text), JobTitle(m, text), Requirements(text), Responsibilities(text),
      JobSkills(text), Test(INTERNSHIP, text), Test(REMOTE, text), JobSeniority(text))
  }

  method ParseJobDescription(m: JobMatchers, text: string) returns (job: ParsedJob)
    ensures job == JobOf(m, text)
  {
    var companyName := DetectCompany(m, text);
    var jobTitle := DetectTitle(m, text);
    var skills := DetectSkills(text);
    var requirements, responsibilities := SortBullets(BulletLines(text));
    var isInternship := Test(INTERNSHIP, text);
    var isRemote := Test(REMOTE, text);
    var seniority := Mid;
    if isInternship {
      seniority := Intern;
    } else if Test(ENTRY_LEVEL, text) {
      seniority := Entry;
    } else if Test(SENIOR_LEVEL, text) {
      seniority := Senior;
    } else if Test(LEAD_LEVEL, text) {
      seniority := Lead;
    } else if Test(EXECUTIVE_LEVEL, text) {
      seniority := Executive;
    }
    job := ParsedJob(OrElse(companyName, "the company"), OrElse(jobTitle, "this position"),
      requirements, responsibilities, Take(skills, 15), isInternship, isRemote, seniority);
  }

  // ---------------------------------------------------------------------------
  // What parseJobDescription promises

  /** The company defaults to `'the company'` and the title to `'this position'`; otherwise
      they are what the scans found. */
  lemma JobDefaults(m: JobMatchers, text: string)
    ensures CompanyOf(m, text) == "" ==> JobCompany(m, text) == "the company"
    ensures CompanyOf(m, text) != "" ==> JobCompany(m, text) == CompanyOf(m, text)
    ensures TitleOf(m, text) == "" ==> JobTitle(m, text) == "this position"
    ensures TitleOf(m, text) != "" ==> JobTitle(m, text) == TitleOf(m, text)
  {
  }

  lemma {:induction false} KnownNameAt(m: JobMatchers, text: string, j: nat, k: nat)
    requires j <= k < |KNOWN_COMPANIES| && m.knownCompany(k, text)
    requires forall i :: j <= i < k ==> !m.knownCompany(i, text)
    ensures KnownName(m, text, j) == KNOWN_COMPANIES[k]
    decreases k - j
  {
    if j < k {
      KnownNameAt(m, text, j + 1, k);
    }
  }

  lemma {:induction false} KnownNameNone(m: JobMatchers, text: string, j: nat)
    requires forall i :: j <= i < |KNOWN_COMPANIES| ==> !m.knownCompany(i, text)
    ensures KnownName(m, text, j) == ""
    decreases |KNOWN_COMPANIES| - j
  {
    if j < |KNOWN_COMPANIES| {
      KnownNameNone(m, text, j + 1);
    }
  }

  /** The first table entry whose pattern tests the text names the company, whatever the
      corporate patterns would have found. */
  lemma KnownCompanyWins(m: JobMatchers, text: string, k: nat, corp: (nat, string) -> Option<string>)
    requires k < |KNOWN_COMPANIES| && m.knownCompany(k, text)
    requires forall i :: 0 <= i < k ==> !m.knownCompany(i, text)
    ensures CompanyOf(m, text) == KNOWN_COMPANIES[k]
    ensures CompanyOf(m.(corpGroup := corp), text) == KNOWN_COMPANIES[k]
  {
    KnownNamed();
    KnownNameAt(m, text, 0, k);
    KnownNameAt(m.(corpGroup := corp), text, 0, k);
  }

  /** When no table entry tests the text, the corporate patterns decide. */
  lemma NoKnownCompany(m: JobMatchers, text: string)
    requires forall i :: 0 <= i < |KNOWN_COMPANIES| ==> !m.knownCompany(i, text)
    ensures CompanyOf(m, text) == CorpName(m, Normalized(text), 0)
  {
    KnownNameNone(m, text, 0);
  }

  /** A corporate name found is the trimmed group 1 of a pattern, 3 to 50 characters long and
      not a bad word; a pattern whose group qualifies is never passed over. */
  lemma {:induction false} CorpNameDescribed(m: JobMatchers, normalized: string, k: nat)
    ensures var r := CorpName(m, normalized, k);
      r == "" || (3 <= |r| <= 50 && ToLower(r) !in BAD_WORDS
        && (exists j :: k <= j < CORP_PATTERNS && m.corpGroup(j, normalized).Some?
              && Trim(m.corpGroup(j, normalized).value) == r))
    ensures (k < CORP_PATTERNS && m.corpGroup(k, normalized).Some? && m.corpGroup(k, normalized).value != ""
               && Acceptable(Trim(m.corpGroup(k, normalized).value))) ==>
      CorpName(m, normalized, k) == Trim(m.corpGroup(k, normalized).value)
    decreases CORP_PATTERNS - k
  {
    if k < CORP_PATTERNS {
      CorpNameDescribed(m, normalized, k + 1);
    }
  }

  /** The skills are technical skills the lower-cased text contains, in list order, at most
      15; when fewer than 15 are found, every one the text contains is listed. */
  lemma SkillsDescribed(text: string)
    ensures IsSubsequence(JobSkills(text), TECHNICAL_SKILLS)
    ensures |JobSkills(text)| <= 15
    ensures forall k :: 0 <= k < |JobSkills(text)| ==> Contains(ToLower(text), JobSkills(text)[k])
    ensures |Mentioned(text)| < 15 ==>
      forall k :: 0 <= k < |TECHNICAL_SKILLS| && Contains(ToLower(text), TECHNICAL_SKILLS[k]) ==>
        TECHNICAL_SKILLS[k] in JobSkills(text)
  {
    var found := Mentioned(text);
    SelectDescribed(TECHNICAL_SKILLS, MentionedIn(ToLower(text)));
    var skills := Take(found, 15);
    SubsequencePrefix(found, TECHNICAL_SKILLS, |skills|);
  }

  /** Sorting cleaned lines: each list keeps its lines in order; each line is 11 to 199
      characters long; no line lands in both lists; every line of the right size and wording
      lands in its list. */
  lemma SortedDescribed(considered: seq<string>)
    ensures IsSubsequence(Select(considered, IsRequirement), considered)
    ensures IsSubsequence(Select(considered, IsResponsibility), considered)
    ensures forall k :: 0 <= k < |Select(considered, IsRequirement)| ==>
      10 < |Select(considered, IsRequirement)[k]| < 200
    ensures forall k :: 0 <= k < |Select(considered, IsResponsibility)| ==>
      10 < |Select(considered, IsResponsibility)[k]| < 200
    ensures forall i, j :: 0 <= i < |Select(considered, IsRequirement)| && 0 <= j < |Select(considered, IsResponsibility)| ==>
      Select(considered, IsRequirement)[i] != Select(considered, IsResponsibility)[j]
    ensures forall k :: 0 <= k < |considered| && IsRequirement(considered[k]) ==>
      considered[k] in Select(considered, IsRequirement)
    ensures forall k :: 0 <= k < |considered| && IsResponsibility(considered[k]) ==>
      considered[k] in Select(considered, IsResponsibility)
  {
    SelectDescribed(considered, IsRequirement);
    SelectDescribed(considered, IsResponsibility);
    var req, resp := Select(considered, IsRequirement), Select(considered, IsResponsibility);
    forall i, j | 0 <= i < |req| && 0 <= j < |resp| ensures req[i] != resp[j] {
      assert IsRequirement(req[i]) && IsResponsibility(resp[j]);
    }
  }

  /** Requirements and responsibilities are drawn from the cleaned first 10 bullet lines, as
      the sorting above describes. */
  lemma BulletsDescribed(text: string)
    ensures |Considered(text)| <= 10
    ensures forall k :: 0 <= k < |Considered(text)| ==> Considered(text)[k] == Clean(BulletLines(text)[k])
    ensures Requirements(text) == Select(Considered(text), IsRequirement)
    ensures Responsibilities(text) == Select(Considered(text), IsResponsibility)
  {
  }

  /** The seniority ladder: `intern` exactly for internships; otherwise the first of entry,
      senior, lead and executive whose test passes; `mid` when none does. */
  lemma SeniorityLadder(text: string)
    ensures JobSeniority(text) == Intern <==> Test(INTERNSHIP, text)
    ensures JobSeniority(text) == Entry <==> !Test(INTERNSHIP, text) && Test(ENTRY_LEVEL, text)
    ensures JobSeniority(text) == Senior <==>
      !Test(INTERNSHIP, text) && !Test(ENTRY_LEVEL, text) && Test(SENIOR_LEVEL, text)
    ensures JobSeniority(text) == Lead <==>
      !Test(INTERNSHIP, text) && !Test(ENTRY_LEVEL, text) && !Test(SENIOR_LEVEL, text) && Test(LEAD_LEVEL, text)
    ensures JobSeniority(text) == Executive <==>
      !Test(INTERNSHIP, text) && !Test(ENTRY_LEVEL, text) && !Test(SENIOR_LEVEL, text) && !Test(LEAD_LEVEL, text)
      && Test(EXECUTIVE_LEVEL, text)
    ensures JobSeniority(text) == Mid <==>
      !Test(INTERNSHIP, text) && !Test(ENTRY_LEVEL, text) && !Test(SENIOR_LEVEL, text) && !Test(LEAD_LEVEL, text)
      && !Test(EXECUTIVE_LEVEL, text)
  {
  }

  /** A title from the first line is that line with its bracketed asides removed, trimmed; a
      title from an explicit pattern is a trimmed group of 5 to 80 characters naming a title
      keyword, its asides removed and trimmed. */
  lemma {:induction false} PatternTitleDescribed(m: JobMatchers, text: string, k: nat)
    ensures var r := PatternTitle(m, text, k);
      r == "" || (exists j :: k <= j < TITLE_PATTERNS && m.titleGroup(j, text).Some?
                    && TitleCandidate(Trim(m.titleGroup(j, text).value))
                    && r == Trim(StripBrackets(Trim(m.titleGroup(j, text).value))))
    decreases TITLE_PATTERNS - k
  {
    if k < TITLE_PATTERNS {
      PatternTitleDescribed(m, text, k + 1);
    }
  }

  lemma TitleDescribed(m: JobMatchers, text: string)
    ensures var lines := Lines(text);
      (lines != [] && Test(TITLE_KEYWORDS, lines[0]) && |lines[0]| < 100
         && Trim(StripBrackets(lines[0])) != "") ==>
        TitleOf(m, text) == Trim(StripBrackets(lines[0]))
    ensures var lines := Lines(text);
      (lines == [] || !Test(TITLE_KEYWORDS, lines[0]) || |lines[0]| >= 100) ==>
        TitleOf(m, text) == PatternTitle(m, text, 0)
  {
  }

  // ===========================================================================
  // buildContext
  // ===========================================================================

  datatype MatchedExperience = MatchedExperience(title: string, company: string, bullets: seq<string>)

  datatype GeneratorContext = GeneratorContext(
    job: ParsedJob, resume: ResumeData, matchedSkills: seq<string>,
    matchedExperiences: seq<MatchedExperience>, achievements: seq<string>)

  function Lowered(xs: seq<string>): (r: seq<string>)
    ensures |r| == |xs| && forall k :: 0 <= k < |r| ==> r[k] == ToLower(xs[k])
  {
    seq(|xs|, k requires 0 <= k < |xs| => ToLower(xs[k]))
  }

  /** A résumé skill related to a job skill: one contains the other. */
  function RelatedTo(jobSkills: seq<string>): string -> bool
  {
    s => exists k :: 0 <= k < |jobSkills| && (Contains(s, jobSkills[k]) || Contains(jobSkills[k], s))
  }

  /** The lower-cased résumé skills related to a lower-cased job skill, at most 8. */
  function MatchedSkills(job: ParsedJob, resume: ResumeData): seq<string>
  {
    Take(Select(Lowered(resume.skills), RelatedTo(Lowered(job.skills))), 8)
  }

  /** `b.trim().length > 10`. */
  predicate LongBullet(b: string)
  {
    |Trim(b)| > 10
  }

  function DescriptionLines(exp: WorkExperience): seq<string>
  {
    SplitOn(exp.description, '\n')
  }

  function ExperienceOf(exp: WorkExperience): MatchedExperience
  {
    MatchedExperience(exp.title, exp.company, Select(DescriptionLines(exp), LongBullet))
  }

  /** One matched experience per entry of `work`, in order. */
  function Experiences(work: seq<WorkExperience>): (r: seq<MatchedExperience>)
    ensures |r| == |work| && forall k :: 0 <= k < |r| ==> r[k] == ExperienceOf(work[k])
  {
    seq(|work|, k requires 0 <= k < |work| => ExperienceOf(work[k]))
  }

  /** `/\d+%|\$[\d,]+|\d+x|\d+\s*(percent|million|thousand|users|customers)/i`. */
  const METRIC: Pattern :=
    Insensitive(Alts([
      Seqs([Plus(Digit), Chr('%')]),
      Seqs([Chr('$'), Plus(Set([('0', '9')], ",", false))]),
      Seqs([Plus(Digit), Chr('x')]),
      Seqs([Plus(Digit), Star(Space), Group(1, Words(["percent", "million", "thousand", "users", "customers"]))])]))

  predicate AchievementSized(clean: string)
  {
    15 < |clean| < 200
  }

  /** A line with a metric whose cleaned form is 16 to 199 characters long. */
  predicate IsAchievement(line: string)
  {
    Test(METRIC, line) && AchievementSized(Clean(line))
  }

  lemma FoundSnoc(lines: seq<string>, j: nat)
    requires j < |lines|
    ensures Found(lines[..j + 1]) == Found(lines[..j]) + (if IsAchievement(lines[j]) then [Clean(lines[j])] else [])
  {
    PickedPrefixSnoc(lines, j, IsAchievement, Clean);
  }

  lemma AllFoundSnoc(work: seq<WorkExperience>, i: nat)
    requires i < |work|
    ensures AllFound(work[..i + 1]) == AllFound(work[..i]) + Found(DescriptionLines(work[i]))
  {
    assert work[..i + 1][..i] == work[..i];
  }

  /** The cleaned achievement lines, in order. */
  function Found(lines: seq<string>): seq<string>
  {
    Picked(lines, IsAchievement, Clean)
  }

  /** The achievements of every entry's description lines, entry after entry. */
  function AllFound(work: seq<WorkExperience>): seq<string>
  {
    if work == [] then []
    else AllFound(work[..|work| - 1]) + Found(DescriptionLines(work[|work| - 1]))
  }

  /** What `buildContext` returns. */
  function ContextOf(job: ParsedJob, resume: ResumeData): GeneratorContext
  {
    GeneratorContext(job, resume, MatchedSkills(job, resume), Experiences(Take(resume.workExperience, 3)),
      Take(AllFound(resume.workExperience), 5))
  }

  lemma ExperiencesSnoc(work: seq<WorkExperience>, i: nat)
    requires i < |work|
    ensures Experiences(work[..i + 1]) == Experiences(work[..i]) + [ExperienceOf(work[i])]
  {
  }

  method RecentExperiences(work: seq<WorkExperience>) returns (matched: seq<MatchedExperience>)
    ensures matched == Experiences(Take(work, 3))
  {
    var recent := Take(work, 3);
    matched := [];
    var i := 0;
    while i < |recent|
      invariant i <= |recent|
      invariant matched == Experiences(recent[..i])
    {
      var exp := recent[i];
      var bullets := Select(SplitOn(exp.description, '\n'), LongBullet);
      ExperiencesSnoc(recent, i);
      matched := matched + [MatchedExperience(exp.title, exp.company, bullets)];
      i := i + 1;
    }
    assert recent[..i] == recent;
  }

  /** The inner loop of the achievement scan, over one description's lines. */
  method LineAchievements(lines: seq<string>) returns (found: seq<string>)
    ensures found == Found(lines)
  {
    found := [];
    var j := 0;
    while j < |lines|
      invariant j <= |lines|
      invariant found == Found(lines[..j])
    {
      var line := lines[j];
      FoundSnoc(lines, j);
      if Test(METRIC, line) {
        var clean := Clean(line);
        if AchievementSized(clean) {
          found := found + [clean];
        }
      }
      j := j + 1;
    }
    assert lines[..j] == lines;
  }

  /** The achievement scan over every work entry, in order. */
  method Achievements(work: seq<WorkExperience>) returns (achievements: seq<string>)
    ensures achievements == AllFound(work)
  {
    achievements := [];
    var i := 0;
    while i < |work|
      invariant i <= |work|
      invariant achievements == AllFound(work[..i])
    {
      var found := LineAchievements(SplitOn(work[i].description, '\n'));
      AllFoundSnoc(work, i);
      achievements := achievements + found;
      i := i + 1;
    }
    assert work[..i] == work;
  }

  /** `buildContext`. */
  method BuildContext(job: ParsedJob, resume: ResumeData) returns (ctx: GeneratorContext)
    ensures ctx == ContextOf(job, resume)
  {
    var resumeSkills := Lowered(resume.skills);
    var jobSkills := Lowered(job.skills);
    var matchedSkills := Select(resumeSkills, RelatedTo(jobSkills));
    var matchedExperiences := RecentExperiences(resume.workExperience);
    var achievements := Achievements(resume.workExperience);
    ctx := GeneratorContext(job, resume, Take(matchedSkills, 8), matchedExperiences, Take(achievements, 5));
  }

  // ---------------------------------------------------------------------------
  // What buildContext promises

  /** The matched skills are lower-cased résumé skills, in résumé order, at most 8, each
      containing or contained in a lower-cased job skill; below the cap every related
      résumé skill is matched. */
  lemma MatchedSkillsDescribed(job: ParsedJob, resume: ResumeData)
    ensures IsSubsequence(MatchedSkills(job, resume), Lowered(resume.skills))
    ensures |MatchedSkills(job, resume)| <= 8
    ensures forall k :: 0 <= k < |MatchedSkills(job, resume)| ==>
      exists j :: 0 <= j < |job.skills|
        && (Contains(MatchedSkills(job, resume)[k], ToLower(job.skills[j]))
            || Contains(ToLower(job.skills[j]), MatchedSkills(job, resume)[k]))
    ensures |Select(Lowered(resume.skills), RelatedTo(Lowered(job.skills)))| < 8 ==>
      forall k :: 0 <= k < |resume.skills| && RelatedTo(Lowered(job.skills))(ToLower(resume.skills[k])) ==>
        ToLower(resume.skills[k]) in MatchedSkills(job, resume)
  {
    var lowered, jobSkills := Lowered(resume.skills), Lowered(job.skills);
    var related := Select(lowered, RelatedTo(jobSkills));
    SelectDescribed(lowered, RelatedTo(jobSkills));
    SubsequencePrefix(related, lowered, |MatchedSkills(job, resume)|);
    forall k | 0 <= k < |MatchedSkills(job, resume)|
      ensures exists j :: 0 <= j < |job.skills|
                && (Contains(MatchedSkills(job, resume)[k], ToLower(job.skills[j]))
                    || Contains(ToLower(job.skills[j]), MatchedSkills(job, resume)[k]))
    {
      var s := MatchedSkills(job, resume)[k];
      assert s == related[k];
      assert RelatedTo(jobSkills)(s);
      var j :| 0 <= j < |jobSkills| && (Contains(s, jobSkills[j]) || Contains(jobSkills[j], s));
      assert jobSkills[j] == ToLower(job.skills[j]);
    }
  }

  /** `e` carries the title and company of `exp` and exactly the description lines whose
      trimmed length exceeds 10, in order. */
  predicate DescribesEntry(e: MatchedExperience, exp: WorkExperience)
  {
    e.title == exp.title && e.company == exp.company
    && IsSubsequence(e.bullets, DescriptionLines(exp))
    && (forall k :: 0 <= k < |e.bullets| ==> |Trim(e.bullets[k])| > 10)
    && (forall j :: 0 <= j < |DescriptionLines(exp)| && |Trim(DescriptionLines(exp)[j])| > 10 ==>
          DescriptionLines(exp)[j] in e.bullets)
  }

  lemma ExperienceOfDescribed(exp: WorkExperience)
    ensures DescribesEntry(ExperienceOf(exp), exp)
  {
    SelectDescribed(DescriptionLines(exp), LongBullet);
  }

  /** The matched experiences are the first at most 3 work entries, in order, each
      described as above. */
  lemma ExperiencesDescribed(work: seq<WorkExperience>)
    ensures |Experiences(Take(work, 3))| == if |work| < 3 then |work| else 3
    ensures forall k :: 0 <= k < |Experiences(Take(work, 3))| ==> DescribesEntry(Experiences(Take(work, 3))[k], work[k])
  {
    forall k | 0 <= k < |Experiences(Take(work, 3))|
      ensures DescribesEntry(Experiences(Take(work, 3))[k], work[k])
    {
      ExperienceOfDescribed(work[k]);
    }
  }


  /** Every achievement line found is the cleaned form of a line that qualifies, and every
      line that qualifies is found. */
  lemma FoundDescribed(lines: seq<string>)
    ensures forall k :: 0 <= k < |Found(lines)| ==>
      exists j :: 0 <= j < |lines| && IsAchievement(lines[j]) && Found(lines)[k] == Clean(lines[j])
    ensures forall j :: 0 <= j < |lines| && IsAchievement(lines[j]) ==> Clean(lines[j]) in Found(lines)
  {
    PickedDescribed(lines, IsAchievement, Clean);
    var r := Found(lines);
    forall k | 0 <= k < |r| ensures exists j :: 0 <= j < |lines| && IsAchievement(lines[j]) && r[k] == Clean(lines[j]) {
      assert r[k] == Picked(lines, IsAchievement, Clean)[k];
    }
  }

  /** Every achievement is found in the description of some work entry. */
  lemma {:induction false} AllFoundDescribed(work: seq<WorkExperience>)
    ensures forall k :: 0 <= k < |AllFound(work)| ==>
      exists i :: 0 <= i < |work| && AllFound(work)[k] in Found(DescriptionLines(work[i]))
  {
    if work != [] {
      var init, last := work[..|work| - 1], work[|work| - 1];
      AllFoundDescribed(init);
      forall k | 0 <= k < |AllFound(work)|
        ensures exists i :: 0 <= i < |work| && AllFound(work)[k] in Found(DescriptionLines(work[i]))
      {
        if k < |AllFound(init)| {
          assert AllFound(work)[k] == AllFound(init)[k];
          var i :| 0 <= i < |init| && AllFound(init)[k] in Found(DescriptionLines(init[i]));
          assert work[i] == init[i];
        } else {
          assert AllFound(work)[k] == Found(DescriptionLines(last))[k - |AllFound(init)|];
        }
      }
    } else {
      assert AllFound(work) == [];
    }
  }

  /** `a` is the cleaned form, 16 to 199 characters long, of a line with a metric in the
      description of some entry of `work`. */
  predicate FromMetricLine(work: seq<WorkExperience>, a: string)
  {
    exists i, j :: 0 <= i < |work| && 0 <= j < |DescriptionLines(work[i])|
      && Test(METRIC, DescriptionLines(work[i])[j]) && a == Clean(DescriptionLines(work[i])[j])
      && 15 < |a| < 200
  }

  /** At most 5 achievements, each from a metric line of some work entry's description. */
  lemma AchievementsDescribed(work: seq<WorkExperience>)
    ensures |Take(AllFound(work), 5)| <= 5
    ensures forall k :: 0 <= k < |Take(AllFound(work), 5)| ==> FromMetricLine(work, Take(AllFound(work), 5)[k])
  {
    AllFoundDescribed(work);
    forall k | 0 <= k < |Take(AllFound(work), 5)| ensures FromMetricLine(work, Take(AllFound(work), 5)[k]) {
      var a := Take(AllFound(work), 5)[k];
      assert a == AllFound(work)[k];
      var i :| 0 <= i < |work| && a in Found(DescriptionLines(work[i]));
      var lines := DescriptionLines(work[i]);
      FoundDescribed(lines);
      var f :| 0 <= f < |Found(lines)| && Found(lines)[f] == a;
      var j :| 0 <= j < |lines| && IsAchievement(lines[j]) && Found(lines)[f] == Clean(lines[j]);
      assert Test(METRIC, lines[j]) && a == Clean(lines[j]) && 15 < |a| < 200;
    }
  }

  // ===========================================================================
  // formatList
  // ===========================================================================

  /** `formatList`: the first `maxItems` items in English, with a serial comma from three
      items on. */
  function FormatList(items: seq<string>, maxItems: nat): string
  {
    var selected := Take(items, maxItems);
    if |selected| == 0 then ""
    else if |selected| == 1 then selected[0]
    else if |selected| == 2 then selected[0] + " and " + selected[1]
    else Join(selected[..|selected| - 1], ", ") + ", and " + selected[|selected| - 1]
  }

  lemma {:induction false} JoinSnoc(xs: seq<string>, y: string, sep: string)
    requires xs != []
    ensures Join(xs + [y], sep) == Join(xs, sep) + sep + y
  {
    if |xs| == 1 {
      assert (xs + [y])[1..] == [y];
    } else {
      JoinSnoc(xs[1..], y, sep);
      assert (xs + [y])[1..] == xs[1..] + [y];
    }
  }

  /** No items give `''`, one gives the item, two give `a and b`, more give `a, b, and c`;
      only the first `maxItems` are read. */
  lemma FormatListCases(items: seq<string>, maxItems: nat)
    ensures maxItems == 0 || items == [] ==> FormatList(items, maxItems) == ""
    ensures maxItems >= 1 && |items| >= 1 && (maxItems == 1 || |items| == 1) ==>
      FormatList(items, maxItems) == items[0]
    ensures maxItems >= 2 && |items| >= 2 && (maxItems == 2 || |items| == 2) ==>
      FormatList(items, maxItems) == items[0] + " and " + items[1]
    ensures maxItems <= |items| ==> FormatList(items, maxItems) == FormatList(items[..maxItems], maxItems)
  {
  }

  /** From three selected items on, the list is the items joined by `, ` with `and `
      before the last one. */
  lemma FormatListSerial(items: seq<string>, maxItems: nat)
    requires |Take(items, maxItems)| >= 3
    ensures var selected := Take(items, maxItems);
      FormatList(items, maxItems)
        == Join(selected[..|selected| - 1] + ["and " + selected[|selected| - 1]], ", ")
  {
    var selected := Take(items, maxItems);
    var n := |selected|;
    JoinSnoc(selected[..n - 1], "and " + selected[n - 1], ", ");
  }

  // ===========================================================================
  // sanitize
  // ===========================================================================

  /** `[•·▪▸►◦‣⁃]`. */
  const BULLET_GLYPHS: string :=
    "\U{2022}\U{00B7}\U{25AA}\U{25B8}\U{25BA}\U{25E6}\U{2023}\U{2043}"

  /** `/\b(\w+)\s+ed\b/g`. */
  const SPLIT_ED: Pattern := Sensitive(Seqs([B, Group(1, Plus(WordCh)), Plus(Space), Lit("ed"), B]))

  /** `/\b(\w+)\s+ing\b/g`. */
  const SPLIT_ING: Pattern := Sensitive(Seqs([B, Group(1, Plus(WordCh)), Plus(Space), Lit("ing"), B]))

  /** `/\s{2,}/g`. */
  const SPACE_RUN: Pattern := Sensitive(AtLeast(Space, 2))

  /** `/\s+([.,;:!?])/g`. */
  const SPACE_BEFORE_PUNCT: Pattern := Sensitive(Seqs([Plus(Space), Group(1, Chars(".,;:!?"))]))

  predicate NotGlyph(c: char)
  {
    c !in BULLET_GLYPHS
  }

  /** Group 1 followed by `suffix`: `'$1ed'`, `'$1ing'`, `'$1'`. */
  function Rejoin(s: string, suffix: string): Match -> string
  {
    m => GroupOr(s, m, 1) + suffix
  }

  /** `sanitize`: bullet glyphs removed, split `-ed`/`-ing` endings rejoined, runs of white
      space collapsed, white space before clause punctuation removed, then trimmed. */
  function Sanitize(text: string): string
  {
    var noGlyphs := Filter(text, NotGlyph);
    var ed := ReplaceAll(SPLIT_ED, noGlyphs, Rejoin(noGlyphs, "ed"));
    var ing := ReplaceAll(SPLIT_ING, ed, Rejoin(ed, "ing"));
    var collapsed := ReplaceAll(SPACE_RUN, ing, Const(" "));
    var punct := ReplaceAll(SPACE_BEFORE_PUNCT, collapsed, Rejoin(collapsed, ""));
    Trim(punct)
  }

  predicate Avoids(s: string, bad: string)
  {
    forall i :: 0 <= i < |s| ==> s[i] !in bad
  }

  lemma AvoidsConcat(a: string, b: string, bad: string)
    requires Avoids(a, bad) && Avoids(b, bad)
    ensures Avoids(a + b, bad)
  {
    forall i | 0 <= i < |a + b| ensures (a + b)[i] !in bad {
      if i >= |a| {
        assert (a + b)[i] == b[i - |a|];
      }
    }
  }

  lemma SliceAvoids(s: string, i: nat, j: nat, bad: string)
    requires Avoids(s, bad)
    ensures Avoids(Slice(s, i, j), bad)
  {
    if i <= j <= |s| {
      forall k | 0 <= k < j - i ensures Slice(s, i, j)[k] !in bad {
        assert Slice(s, i, j)[k] == s[i + k];
      }
    }
  }

  /** Replacing matches keeps out every character that neither the text nor any
      replacement contains. */
  lemma {:induction false} AssembleAvoids(s: string, ms: seq<Match>, next: nat, f: Match -> string, bad: string)
    requires Avoids(s, bad)
    requires forall m :: Avoids(f(m), bad)
    ensures Avoids(Assemble(s, ms, next, f), bad)
    decreases |ms|
  {
    if ms == [] {
      SliceAvoids(s, next, |s|, bad);
    } else if next <= ms[0].start <= |s| {
      AssembleAvoids(s, ms[1..], ms[0].end, f, bad);
      SliceAvoids(s, next, ms[0].start, bad);
      assert s[next..ms[0].start] == Slice(s, next, ms[0].start);
      assert Avoids(f(ms[0]), bad);
      AvoidsConcat(s[next..ms[0].start], f(ms[0]), bad);
      AvoidsConcat(s[next..ms[0].start] + f(ms[0]), Assemble(s, ms[1..], ms[0].end, f), bad);
    } else {
      AssembleAvoids(s, ms[1..], next, f, bad);
    }
  }

  lemma ReplaceAllAvoids(p: Pattern, s: string, f: Match -> string, bad: string)
    requires Avoids(s, bad)
    requires forall m :: Avoids(f(m), bad)
    ensures Avoids(ReplaceAll(p, s, f), bad)
  {
    AssembleAvoids(s, AllMatches(p, s), 0, f, bad);
  }

  lemma RejoinAvoids(s: string, suffix: string, bad: string)
    requires Avoids(s, bad) && Avoids(suffix, bad)
    ensures forall m :: Avoids(Rejoin(s, suffix)(m), bad)
  {
    forall m ensures Avoids(Rejoin(s, suffix)(m), bad) {
      if 1 in m.caps {
        SliceAvoids(s, m.caps[1].0, m.caps[1].1, bad);
      }
      AvoidsConcat(GroupOr(s, m, 1), suffix, bad);
    }
  }

  /** No bullet glyph survives `sanitize`, and its result neither starts nor ends with white
      space. */
  lemma SanitizeClean(text: string)
    ensures Avoids(Sanitize(text), BULLET_GLYPHS)
    ensures Sanitize(text) != [] ==>
      !IsSpace(Sanitize(text)[0]) && !IsSpace(Sanitize(text)[|Sanitize(text)| - 1])
  {
    var bad := BULLET_GLYPHS;
    var noGlyphs := Filter(text, NotGlyph);
    assert Avoids(noGlyphs, bad);
    assert Avoids("ed", bad) && Avoids("ing", bad) && Avoids(" ", bad) && Avoids("", bad);
    RejoinAvoids(noGlyphs, "ed", bad);
    ReplaceAllAvoids(SPLIT_ED, noGlyphs, Rejoin(noGlyphs, "ed"), bad);
    var ed := ReplaceAll(SPLIT_ED, noGlyphs, Rejoin(noGlyphs, "ed"));
    RejoinAvoids(ed, "ing", bad);
    ReplaceAllAvoids(SPLIT_ING, ed, Rejoin(ed, "ing"), bad);
    var ing := ReplaceAll(SPLIT_ING, ed, Rejoin(ed, "ing"));
    ReplaceAllAvoids(SPACE_RUN, ing, Const(" "), bad);
    var collapsed := ReplaceAll(SPACE_RUN, ing, Const(" "));
    RejoinAvoids(collapsed, "", bad);
    ReplaceAllAvoids(SPACE_BEFORE_PUNCT, collapsed, Rejoin(collapsed, ""), bad);
    var punct := ReplaceAll(SPACE_BEFORE_PUNCT, collapsed, Rejoin(collapsed, ""));
    TrimSlice(punct);
    SliceAvoids(punct, LeadingSpace(punct), LeadingSpace(punct) + |Trim(punct)|, bad);
  }
}
