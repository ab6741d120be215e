/** The deterministic helpers of the template cover-letter generator: what a user's edited
    letter says about their preferences, the key skills a job description names, the work
    entries it relates to, the measurable achievements of a résumé, and the two clean-up
    steps applied to the text of a fetched job page. */
module CoverLetter {
  import opened Text
  import opened Regex
  import opened Lists
  import opened Storage

  // ===========================================================================
  // analyzeUserEdits
  // ===========================================================================

  datatype Length = Short | Medium | Long

  datatype Tone = Formal | Conversational

  datatype UserPreferences = UserPreferences(
    preferredLength: Length, avoidPhrases: seq<string>, keepPhrases: seq<string>, toneStyle: Tone)

  /** `/\s+/`. */
  const WORD_SEPARATOR: Pattern := Sensitive(Plus(Space))

  /** `editedLetter.split(/\s+/).length`. */
  function WordCount(letter: string): nat
  {
    |Split(WORD_SEPARATOR, letter)|
  }

  /** The phrases a generated letter tends to use, which a user may have removed. */
  const AI_PHRASES: seq<string> :=
    ["I am confident", "I am excited", "I believe", "from day one", "meaningful contributions",
     "dynamic environment", "passionate about", "eager to"]

  const FORMAL_INDICATORS: seq<string> :=
    ["I am writing", "Please find", "I would like", "Thank you for your consideration"]

  const CONVERSATIONAL_INDICATORS: seq<string> := ["I'm", "I'd", "can't wait", "really"]

  /** `text.toLowerCase().includes(phrase.toLowerCase())`. */
  function ContainedIgnoringCase(text: string): string -> bool
  {
    phrase => Contains(ToLower(text), ToLower(phrase))
  }

  function AbsentIgnoringCase(text: string): string -> bool
  {
    phrase => !Contains(ToLower(text), ToLower(phrase))
  }

  /** `text.includes(phrase)`. */
  function ContainedIn(text: string): string -> bool
  {
    phrase => Contains(text, phrase)
  }

  /** `/[^.!?]+[.!?]/g`: a run of non-terminators and the terminator closing it. */
  const SENTENCE: Pattern := Sensitive(Seqs([Plus(NotChars(".!?")), Chars(".!?")]))

  function Sentences(letter: string): seq<string>
  {
    MatchAllTexts(SENTENCE, letter)
  }

  /** A sentence worth keeping: between 21 and 149 characters once trimmed. */
  predicate KeptLength(sentence: string)
  {
    20 < |Trim(sentence)| < 150
  }

  function AvoidPhrases(letter: string): seq<string>
  {
    Select(AI_PHRASES, AbsentIgnoringCase(letter))
  }

  /** The first 3 sentences of a length worth keeping, trimmed. */
  function KeptPhrases(sentences: seq<string>): seq<string>
  {
    Take(Picked(sentences, KeptLength, Trim), 3)
  }

  function KeepPhrases(letter: string): seq<string>
  {
    KeptPhrases(Sentences(letter))
  }

  function FormalCount(letter: string): nat
  {
    |Select(FORMAL_INDICATORS, ContainedIn(letter))|
  }

  function ConversationalCount(letter: string): nat
  {
    |Select(CONVERSATIONAL_INDICATORS, ContainedIgnoringCase(letter))|
  }

  /** `analyzeUserEdits`: short below 200 words, long above 400; formal unless the
      conversational indicators outnumber the formal ones. */
  function AnalyzeUserEdits(letter: string): (p: UserPreferences)
    ensures p.preferredLength == Short <==> WordCount(letter) < 200
    ensures p.preferredLength == Long <==> WordCount(letter) > 400
    ensures p.preferredLength == Medium <==> 200 <= WordCount(letter) <= 400
    ensures p.toneStyle == Formal <==> FormalCount(letter) >= ConversationalCount(letter)
    ensures p.avoidPhrases == AvoidPhrases(letter) && p.keepPhrases == KeepPhrases(letter)
  {
    var wordCount := WordCount(letter);
    var preferredLength := if wordCount < 200 then Short else if wordCount > 400 then Long else Medium;
    var toneStyle := if FormalCount(letter) >= ConversationalCount(letter) then Formal else Conversational;
    UserPreferences(preferredLength, AvoidPhrases(letter), KeepPhrases(letter), toneStyle)
  }

  /** The phrases to avoid are exactly the listed phrases the letter does not contain,
      ignoring case, in list order. */
  lemma AvoidPhrasesExact(letter: string)
    ensures IsSubsequence(AvoidPhrases(letter), AI_PHRASES)
    ensures forall k :: 0 <= k < |AI_PHRASES| ==>
      (AI_PHRASES[k] in AvoidPhrases(letter) <==> !Contains(ToLower(letter), ToLower(AI_PHRASES[k])))
  {
    var avoid := AvoidPhrases(letter);
    SelectDescribed(AI_PHRASES, AbsentIgnoringCase(letter));
    forall k | 0 <= k < |AI_PHRASES| && AI_PHRASES[k] in avoid
      ensures !Contains(ToLower(letter), ToLower(AI_PHRASES[k]))
    {
      var j :| 0 <= j < |avoid| && avoid[j] == AI_PHRASES[k];
      assert AbsentIgnoringCase(letter)(avoid[j]);
    }
  }

  /** At most 3 phrases are kept, each a trimmed sentence of 21 to 149 characters; with
      fewer than 3, every such sentence is kept. */
  lemma KeptPhrasesDescribed(sentences: seq<string>)
    ensures |KeptPhrases(sentences)| <= 3
    ensures forall k :: 0 <= k < |KeptPhrases(sentences)| ==>
      20 < |KeptPhrases(sentences)[k]| < 150
      && exists j :: 0 <= j < |sentences| && KeptPhrases(sentences)[k] == Trim(sentences[j])
    ensures |KeptPhrases(sentences)| < 3 ==>
      forall j :: 0 <= j < |sentences| && KeptLength(sentences[j]) ==> Trim(sentences[j]) in KeptPhrases(sentences)
  {
    var kept := KeptPhrases(sentences);
    TakePickedDescribed(sentences, KeptLength, Trim, 3);
    forall k | 0 <= k < |kept|
      ensures 20 < |kept[k]| < 150
    {
      var j :| 0 <= j < |sentences| && KeptLength(sentences[j]) && kept[k] == Trim(sentences[j]);
    }
  }

  // ===========================================================================
  // extractKeySkills
  // ===========================================================================

  /** The keyword list, in order. Each entry stands for a pattern source denoting a literal:
      the source writes `c\+\+` for `c++`; the others have no special characters. */
  const TECHNICAL_KEYWORDS: seq<string> :=
    ["python", "javascript", "typescript", "java", "c++", "c#", "go", "rust", "swift", "kotlin",
     "php", "ruby", "scala", "r", "matlab", "sql",
     "react", "vue", "angular", "node", "express", "django", "flask", "spring", "fastapi",
     "tensorflow", "pytorch", "keras", "scikit-learn",
     "postgresql", "mysql", "mongodb", "elasticsearch", "redis", "cassandra",
     "aws", "azure", "gcp", "docker", "kubernetes", "jenkins", "gitlab", "github",
     "leadership", "communication", "problem-solving", "team", "collaboration", "agile",
     "scrum", "project management", "data analysis", "analytics", "design",
     "ui/ux", "web development", "mobile development", "machine learning", "ai",
     "deep learning", "devops", "ci/cd", "security", "testing"]

  /** `new RegExp(`\\b${keyword}\\b`, 'i')` (the `g` flag of the first test changes nothing
      on a fresh pattern). */
  function KeywordPattern(keyword: string): Pattern
  {
    Insensitive(Seqs([B, Lit(keyword), B]))
  }

  function Occurs(lowerDesc: string): string -> bool
  {
    keyword => Test(KeywordPattern(keyword), lowerDesc)
  }

  /** `match[0]` of the keyword's first match, or `''` when there is none. */
  function MatchOf(lowerDesc: string): string -> string
  {
    keyword =>
      match Search(KeywordPattern(keyword), lowerDesc)
      case Some(m) => MatchText(lowerDesc, m)
      case None => ""
  }

  /** The text matched for each keyword that occurs, in keyword order. */
  function FoundSkills(keywords: seq<string>, lowerDesc: string): seq<string>
  {
    Picked(keywords, Occurs(lowerDesc), MatchOf(lowerDesc))
  }

  function Identity(s: string): string { s }

  /** `[...new Set(found)].slice(0, 7)`. */
  function TopDistinct(found: seq<string>): seq<string>
  {
    Take(DedupBy(found, Identity), 7)
  }

  function KeySkills(jobDescription: string): seq<string>
  {
    TopDistinct(FoundSkills(TECHNICAL_KEYWORDS, ToLower(jobDescription)))
  }

  /** The loop over the keywords, pushing the match of each one that occurs. */
  method ScanKeywords(keywords: seq<string>, lowerDesc: string) returns (found: seq<string>)
    ensures found == FoundSkills(keywords, lowerDesc)
  {
    found := [];
    var i := 0;
    while i < |keywords|
      invariant i <= |keywords|
      invariant found == FoundSkills(keywords[..i], lowerDesc)
    {
      var keyword := keywords[i];
      PickedPrefixSnoc(keywords, i, Occurs(lowerDesc), MatchOf(lowerDesc));
      if Test(KeywordPattern(keyword), lowerDesc) {
        var m := Search(KeywordPattern(keyword), lowerDesc);
        if m.Some? {
          found := found + [MatchText(lowerDesc, m.value)];
        }
      }
      i := i + 1;
    }
    assert keywords[..i] == keywords;
  }

  /** `extractKeySkills`. */
  method ExtractKeySkills(jobDescription: string) returns (skills: seq<string>)
    ensures skills == KeySkills(jobDescription)
  {
    var found := ScanKeywords(TECHNICAL_KEYWORDS, ToLower(jobDescription));
    skills := TopDistinct(found);
  }

  /** At most 7 texts, no two alike. */
  lemma TopDistinctDistinct(found: seq<string>)
    ensures |TopDistinct(found)| <= 7
    ensures forall i, j :: 0 <= i < j < |TopDistinct(found)| ==> TopDistinct(found)[i] != TopDistinct(found)[j]
  {
    var d := DedupBy(found, Identity);
    var r := TopDistinct(found);
    DedupByDistinct(found, Identity);
    forall i, j | 0 <= i < j < |r| ensures r[i] != r[j] {
      assert r[i] == d[i] && r[j] == d[j];
      assert Identity(d[i]) != Identity(d[j]);
    }
  }

  /** The texts kept are found ones, in the order found. */
  lemma TopDistinctOrder(found: seq<string>)
    ensures IsSubsequence(TopDistinct(found), found)
    ensures forall k :: 0 <= k < |TopDistinct(found)| ==> TopDistinct(found)[k] in found
  {
    var d := DedupBy(found, Identity);
    DedupBySubsequence(found, Identity);
    SubsequencePrefix(d, found, |TopDistinct(found)|);
    SubsequenceMembers(TopDistinct(found), found);
  }

  /** With fewer than 7 kept, every text found is kept. */
  lemma TopDistinctComplete(found: seq<string>)
    ensures |TopDistinct(found)| < 7 ==> forall p :: 0 <= p < |found| ==> found[p] in TopDistinct(found)
  {
    var d := DedupBy(found, Identity);
    var r := TopDistinct(found);
    if |r| < 7 {
      DedupByCovers(found, Identity);
      assert r == d;
      forall p | 0 <= p < |found| ensures found[p] in r {
        assert Identity(found[p]) in Keys(d, Identity);
        var k :| 0 <= k < |d| && Keys(d, Identity)[k] == found[p];
        assert d[k] == found[p];
      }
    }
  }

  /** The same, for texts picked from `xs`: each is `f` of an element that passes, and with
      fewer than 7, `f` of every element that passes is among them. */
  lemma TopDistinctDescribed<T>(xs: seq<T>, keep: T -> bool, f: T -> string)
    ensures var r := TopDistinct(Picked(xs, keep, f));
      |r| <= 7
      && (forall i, j :: 0 <= i < j < |r| ==> r[i] != r[j])
      && IsSubsequence(r, Picked(xs, keep, f))
      && (forall k :: 0 <= k < |r| ==> exists j :: 0 <= j < |xs| && keep(xs[j]) && r[k] == f(xs[j]))
      && (|r| < 7 ==> forall j :: 0 <= j < |xs| && keep(xs[j]) ==> f(xs[j]) in r)
  {
    var found := Picked(xs, keep, f);
    var r := TopDistinct(found);
    TopDistinctDistinct(found);
    TopDistinctOrder(found);
    TopDistinctComplete(found);
    PickedDescribed(xs, keep, f);
    forall k | 0 <= k < |r| ensures exists j :: 0 <= j < |xs| && keep(xs[j]) && r[k] == f(xs[j]) {
      var p :| 0 <= p < |found| && found[p] == r[k];
    }
    if |r| < 7 {
      forall j | 0 <= j < |xs| && keep(xs[j]) ensures f(xs[j]) in r {
        var p :| 0 <= p < |found| && found[p] == f(xs[j]);
      }
    }
  }

  /** `extractKeySkills` returns at most 7 distinct skills, in keyword order; each is the
      text matched for a keyword that occurs in the lower-cased description; with fewer
      than 7, every such text is among them. */
  lemma KeySkillsDescribed(jobDescription: string)
    ensures var r, lower := KeySkills(jobDescription), ToLower(jobDescription);
      |r| <= 7
      && (forall i, j :: 0 <= i < j < |r| ==> r[i] != r[j])
      && IsSubsequence(r, FoundSkills(TECHNICAL_KEYWORDS, lower))
      && (forall k :: 0 <= k < |r| ==>
            exists j :: 0 <= j < |TECHNICAL_KEYWORDS| && Test(KeywordPattern(TECHNICAL_KEYWORDS[j]), lower)
              && r[k] == MatchOf(lower)(TECHNICAL_KEYWORDS[j]))
      && (|r| < 7 ==>
            forall j :: 0 <= j < |TECHNICAL_KEYWORDS| && Test(KeywordPattern(TECHNICAL_KEYWORDS[j]), lower) ==>
              MatchOf(lower)(TECHNICAL_KEYWORDS[j]) in r)
  {
    var lower := ToLower(jobDescription);
    TopDistinctDescribed(TECHNICAL_KEYWORDS, Occurs(lower), MatchOf(lower));
  }

  // ===========================================================================
  // findRelevantExperience
  // ===========================================================================

  datatype RelevantExperience = RelevantExperience(title: string, company: string, description: string)

  /** A description word that the job description contains and that is longer than 3. */
  function SharedWord(jobDescLower: string): string -> bool
  {
    word => Contains(jobDescLower, word) && |word| > 3
  }

  function SharedWords(jobDescLower: string, work: WorkExperience): seq<string>
  {
    Select(SplitOn(ToLower(work.description), ' '), SharedWord(jobDescLower))
  }

  /** The title or the company occurs in the job description, ignoring case, or more than 3
      of the description's words do. An empty title or company always occurs. */
  predicate IsRelevant(jobDescLower: string, work: WorkExperience)
  {
    Contains(jobDescLower, ToLower(work.title)) || Contains(jobDescLower, ToLower(work.company))
    || |SharedWords(jobDescLower, work)| > 3
  }

  function RelevantTo(jobDescLower: string): WorkExperience -> bool
  {
    work => IsRelevant(jobDescLower, work)
  }

  /** Title, company and the first line of the description (the whole description when
      that line is empty). */
  function Summary(work: WorkExperience): RelevantExperience
  {
    RelevantExperience(work.title, work.company, OrElse(SplitOn(work.description, '\n')[0], work.description))
  }

  function RelevantOf(jobDescription: string, resume: ResumeData): seq<RelevantExperience>
  {
    Take(Picked(resume.workExperience, RelevantTo(ToLower(jobDescription)), Summary), 2)
  }

  /** `findRelevantExperience`. */
  method FindRelevantExperience(jobDescription: string, resume: ResumeData)
    returns (relevant: seq<RelevantExperience>)
    ensures relevant == RelevantOf(jobDescription, resume)
  {
    var jobDescLower := ToLower(jobDescription);
    var work := resume.workExperience;
    var matched: seq<RelevantExperience> := [];
    var i := 0;
    while i < |work|
      invariant i <= |work|
      invariant matched == Picked(work[..i], RelevantTo(jobDescLower), Summary)
    {
      var entry := work[i];
      PickedPrefixSnoc(work, i, RelevantTo(jobDescLower), Summary);
      var titleMatch := Contains(jobDescLower, ToLower(entry.title));
      var companyMatch := Contains(jobDescLower, ToLower(entry.company));
      var descMatch := |SharedWords(jobDescLower, entry)| > 3;
      if titleMatch || companyMatch || descMatch {
        matched := matched + [Summary(entry)];
      }
      i := i + 1;
    }
    assert work[..i] == work;
    relevant := Take(matched, 2);
  }

  /** At most 2 entries, in résumé order, each the summary of a relevant work entry; with
      fewer than 2, every relevant entry is among them. */
  lemma RelevantDescribed(jobDescription: string, resume: ResumeData)
    ensures |RelevantOf(jobDescription, resume)| <= 2
    ensures IsSubsequence(RelevantOf(jobDescription, resume), Mapped(resume.workExperience, Summary))
    ensures forall k :: 0 <= k < |RelevantOf(jobDescription, resume)| ==>
      exists j :: 0 <= j < |resume.workExperience| && IsRelevant(ToLower(jobDescription), resume.workExperience[j])
        && RelevantOf(jobDescription, resume)[k] == Summary(resume.workExperience[j])
    ensures |RelevantOf(jobDescription, resume)| < 2 ==>
      forall j :: 0 <= j < |resume.workExperience| && IsRelevant(ToLower(jobDescription), resume.workExperience[j]) ==>
        Summary(resume.workExperience[j]) in RelevantOf(jobDescription, resume)
  {
    var work, lower := resume.workExperience, ToLower(jobDescription);
    TakePickedDescribed(work, RelevantTo(lower), Summary, 2);
  }

  /** The summary's description is the text before the first line break, or the whole
      description when that text is empty. */
  lemma SummaryDescription(work: WorkExperience)
    ensures var first := SplitOn(work.description, '\n')[0];
      StartsWith(work.description, first) && '\n' !in first
      && (|first| < |work.description| ==> work.description[|first|] == '\n')
      && Summary(work).description == (if first != "" then first else work.description)
  {
    SplitOnHead(work.description, '\n');
  }

  // ===========================================================================
  // extractAchievements
  // ===========================================================================

  /** `/\d+%|improved|increased|reduced|grew|launched|shipped|delivered|solved|created/i`. */
  const ACHIEVEMENT: Pattern :=
    Insensitive(Alt(Seqs([Plus(Digit), Chr('%')]),
      Words(["improved", "increased", "reduced", "grew", "launched", "shipped", "delivered", "solved", "created"])))

  predicate NonBlank(line: string)
  {
    Trim(line) != ""
  }

  /** The bullet mentions a percentage or an outcome verb. */
  predicate Measurable(bullet: string)
  {
    Test(ACHIEVEMENT, bullet)
  }

  /** `description.split('\n').filter(b => b.trim())`. */
  function Bullets(work: WorkExperience): seq<string>
  {
    Select(SplitOn(work.description, '\n'), NonBlank)
  }

  /** The trimmed measurable bullets of one description, in order. */
  function EntryAchievements(bullets: seq<string>): seq<string>
  {
    Picked(bullets, Measurable, Trim)
  }

  /** The achievements of each entry, entry after entry. */
  function AllAchievements(work: seq<WorkExperience>): seq<string>
  {
    if work == [] then []
    else AllAchievements(work[..|work| - 1]) + EntryAchievements(Bullets(work[|work| - 1]))
  }

  function AchievementsOf(resume: ResumeData): seq<string>
  {
    Take(AllAchievements(Take(resume.workExperience, 3)), 3)
  }

  /** The inner loop, over one entry's bullets. */
  method BulletAchievements(bullets: seq<string>) returns (found: seq<string>)
    ensures found == EntryAchievements(bullets)
  {
    found := [];
    var j := 0;
    while j < |bullets|
      invariant j <= |bullets|
      invariant found == EntryAchievements(bullets[..j])
    {
      var bullet := bullets[j];
      PickedPrefixSnoc(bullets, j, Measurable, Trim);
      if Measurable(bullet) {
        found := found + [Trim(bullet)];
      }
      j := j + 1;
    }
    assert bullets[..j] == bullets;
  }

  /** `extractAchievements`. */
  method ExtractAchievements(resume: ResumeData) returns (achievements: seq<string>)
    ensures achievements == AchievementsOf(resume)
  {
    var recent := Take(resume.workExperience, 3);
    var all: seq<string> := [];
    var i := 0;
    while i < |recent|
      invariant i <= |recent|
      invariant all == AllAchievements(recent[..i])
    {
      var found := BulletAchievements(Bullets(recent[i]));
      AllAchievementsSnoc(recent, i);
      all := all + found;
      i := i + 1;
    }
    assert recent[..i] == recent;
    achievements := Take(all, 3);
  }

  /** `a` is a trimmed, non-empty, measurable line of the description of one of the entries. */
  predicate FromMeasurableLine(work: seq<WorkExperience>, a: string)
  {
    exists i, j :: 0 <= i < |work| && 0 <= j < |SplitOn(work[i].description, '\n')|
      && Measurable(SplitOn(work[i].description, '\n')[j])
      && a == Trim(SplitOn(work[i].description, '\n')[j]) && a != ""
  }

  /** What is picked from the non-blank lines is the trim of a line that passes, and it is
      not empty. */
  lemma PickedBulletsDescribed(lines: seq<string>, keep: string -> bool)
    ensures forall k :: 0 <= k < |Picked(Select(lines, NonBlank), keep, Trim)| ==>
      exists j :: 0 <= j < |lines| && keep(lines[j])
        && Picked(Select(lines, NonBlank), keep, Trim)[k] == Trim(lines[j])
        && Picked(Select(lines, NonBlank), keep, Trim)[k] != ""
  {
    var bullets := Select(lines, NonBlank);
    var found := Picked(bullets, keep, Trim);
    PickedDescribed(bullets, keep, Trim);
    SelectDescribed(lines, NonBlank);
    SubsequenceMembers(bullets, lines);
    forall k | 0 <= k < |found|
      ensures exists j :: 0 <= j < |lines| && keep(lines[j]) && found[k] == Trim(lines[j]) && found[k] != ""
    {
      var b :| 0 <= b < |bullets| && keep(bullets[b]) && found[k] == Trim(bullets[b]);
      assert NonBlank(bullets[b]);
      var j :| 0 <= j < |lines| && lines[j] == bullets[b];
    }
  }

  lemma EntryAchievementsDescribed(work: WorkExperience)
    ensures forall k :: 0 <= k < |EntryAchievements(Bullets(work))| ==>
      exists j :: 0 <= j < |SplitOn(work.description, '\n')|
        && Measurable(SplitOn(work.description, '\n')[j])
        && EntryAchievements(Bullets(work))[k] == Trim(SplitOn(work.description, '\n')[j])
        && EntryAchievements(Bullets(work))[k] != ""
  {
    var lines := SplitOn(work.description, '\n');
    var found := EntryAchievements(Bullets(work));
    PickedBulletsDescribed(lines, Measurable);
    forall k | 0 <= k < |found|
      ensures exists j :: 0 <= j < |lines| && Measurable(lines[j]) && found[k] == Trim(lines[j]) && found[k] != ""
    {
      var j :| 0 <= j < |lines| && Measurable(lines[j]) && found[k] == Trim(lines[j]) && found[k] != "";
    }
    assert found == EntryAchievements(Bullets(work));
    assert lines == SplitOn(work.description, '\n');
  }

  lemma AllAchievementsSnoc(work: seq<WorkExperience>, i: nat)
    requires i < |work|
    ensures AllAchievements(work[..i + 1]) == AllAchievements(work[..i]) + EntryAchievements(Bullets(work[i]))
  {
    assert work[..i + 1][..i] == work[..i];
  }

  /** `a` is an achievement of one of the entries. */
  predicate FromEntry(work: seq<WorkExperience>, a: string)
  {
    exists i :: 0 <= i < |work| && a in EntryAchievements(Bullets(work[i]))
  }

  /** An achievement of an entry comes from a measurable line of its description. */
  lemma EntryAchievementFrom(work: seq<WorkExperience>, i: nat, a: string)
    requires i < |work| && a in EntryAchievements(Bullets(work[i]))
    ensures FromMeasurableLine(work, a)
  {
    var found := EntryAchievements(Bullets(work[i]));
    EntryAchievementsDescribed(work[i]);
    var k :| 0 <= k < |found| && found[k] == a;
    var j :| 0 <= j < |SplitOn(work[i].description, '\n')| && Measurable(SplitOn(work[i].description, '\n')[j])
      && found[k] == Trim(SplitOn(work[i].description, '\n')[j]) && found[k] != "";
  }

  lemma {:induction false} AllAchievementsFromEntries(work: seq<WorkExperience>)
    ensures forall k :: 0 <= k < |AllAchievements(work)| ==> FromEntry(work, AllAchievements(work)[k])
  {
    if work != [] {
      var init, last := work[..|work| - 1], work[|work| - 1];
      var all, before, found := AllAchievements(work), AllAchievements(init), EntryAchievements(Bullets(last));
      AllAchievementsFromEntries(init);
      assert all == before + found;
      forall k | 0 <= k < |all| ensures FromEntry(work, all[k]) {
        if k < |before| {
          assert all[k] == before[k];
          var i :| 0 <= i < |init| && before[k] in EntryAchievements(Bullets(init[i]));
          assert work[i] == init[i];
        } else {
          assert all[k] == found[k - |before|];
          assert all[k] in EntryAchievements(Bullets(work[|work| - 1]));
        }
      }
    }
  }

  /** Every achievement gathered is a trimmed, non-empty, measurable description line of one
      of the entries. */
  lemma AllAchievementsDescribed(work: seq<WorkExperience>)
    ensures forall k :: 0 <= k < |AllAchievements(work)| ==> FromMeasurableLine(work, AllAchievements(work)[k])
  {
    AllAchievementsFromEntries(work);
    forall k | 0 <= k < |AllAchievements(work)| ensures FromMeasurableLine(work, AllAchievements(work)[k]) {
      var i :| 0 <= i < |work| && AllAchievements(work)[k] in EntryAchievements(Bullets(work[i]));
      EntryAchievementFrom(work, i, AllAchievements(work)[k]);
    }
  }

  /** At most 3 achievements, each a trimmed, non-empty, measurable description line of one
      of the first 3 work entries. */
  lemma AchievementsDescribed(resume: ResumeData)
    ensures |AchievementsOf(resume)| <= 3
    ensures forall k :: 0 <= k < |AchievementsOf(resume)| ==>
      FromMeasurableLine(Take(resume.workExperience, 3), AchievementsOf(resume)[k])
  {
    var recent := Take(resume.workExperience, 3);
    AllAchievementsDescribed(recent);
    forall k | 0 <= k < |AchievementsOf(resume)| ensures FromMeasurableLine(recent, AchievementsOf(resume)[k]) {
      assert AchievementsOf(resume)[k] == AllAchievements(recent)[k];
    }
  }

  // ===========================================================================
  // cleanText
  // ===========================================================================

  /** `/[\t\r]+/g`, `/ +/g` and `/\n+/`. */
  const TAB_RUN: Pattern := Sensitive(Plus(Chars("\t\r")))
  const BLANK_RUN: Pattern := Sensitive(Plus(Chr(' ')))
  const LINE_BREAKS: Pattern := Sensitive(Plus(Chr('\n')))

  /** Tabs and carriage returns become spaces, then runs of spaces one space. */
  function Collapsed(text: string): string
  {
    ReplaceAll(BLANK_RUN, ReplaceAll(TAB_RUN, text, Const(" ")), Const(" "))
  }

  /** The trimmed, non-empty lines. */
  function PageLines(text: string): seq<string>
  {
    Select(Mapped(Split(LINE_BREAKS, Collapsed(text)), Trim), NonEmpty)
  }

  /** `line.toLowerCase().substring(0, 50)`. */
  function LineKey(line: string): string
  {
    Take(ToLower(line), 50)
  }

  /** The navigation and interface noise patterns, in order. */
  const NOISE_PATTERNS: seq<Pattern> := [
    // `/^(sign in|log in|sign up|register|menu|home|about us|contact|privacy|terms|cookies?|©|copyright)/i`
    Insensitive(Seqs([InputStart, Group(1, Alts([
      Words(["sign in", "log in", "sign up", "register", "menu", "home", "about us", "contact", "privacy", "terms"]),
      Seqs([Lit("cookie"), Opt(Chr('s'))]),
      Words(["©", "copyright"])]))])),
    // `/^(share|tweet|post|follow|subscribe|newsletter)/i`
    Insensitive(Seqs([InputStart, Group(1, Words(["share", "tweet", "post", "follow", "subscribe", "newsletter"]))])),
    // `/^(facebook|twitter|linkedin|instagram|youtube)/i`
    Insensitive(Seqs([InputStart, Group(1, Words(["facebook", "twitter", "linkedin", "instagram", "youtube"]))])),
    // `/^(back to|go to|view all|see more|show more|load more)/i`
    Insensitive(Seqs([InputStart, Group(1, Words(["back to", "go to", "view all", "see more", "show more", "load more"]))])),
    // `/^(search|filter|sort by|page \d)/i`
    Insensitive(Seqs([InputStart, Group(1, Alt(Words(["search", "filter", "sort by"]), Seqs([Lit("page "), Digit])))])),
    // `/^\d+\s*(days?|hours?|minutes?|seconds?)\s*ago/i`
    Insensitive(Seqs([InputStart, Plus(Digit), Star(Space),
      Group(1, Alts([Seqs([Lit("day"), Opt(Chr('s'))]), Seqs([Lit("hour"), Opt(Chr('s'))]),
        Seqs([Lit("minute"), Opt(Chr('s'))]), Seqs([Lit("second"), Opt(Chr('s'))])])),
      Star(Space), Lit("ago")])),
    // `/^(apply now|save job|report|flag)/i`
    Insensitive(Seqs([InputStart, Group(1, Words(["apply now", "save job", "report", "flag"]))])),
    // `/^[\W\s]*$/`
    Sensitive(Seqs([InputStart,
      Star(Class(CharSet([('\U{0000}', '/'), (':', '@'), ('[', '^'), ('`', '`'), ('{', '\U{10FFFF}')] + SpaceRanges, false))),
      InputEnd])),
    // `/^.{0,8}$/`
    Sensitive(Seqs([InputStart, Rep(Dot, 0, 8), InputEnd]))]

  predicate IsNoise(line: string)
  {
    exists k :: 0 <= k < |NOISE_PATTERNS| && Test(NOISE_PATTERNS[k], line)
  }

  function NotNoise(line: string): bool
  {
    !IsNoise(line)
  }

  /** The lines kept: the first line with each key, then those that are not noise. */
  function Meaningful(text: string): seq<string>
  {
    Select(DedupBy(PageLines(text), LineKey), NotNoise)
  }

  function CleanTextOf(text: string): string
  {
    Trim(Join(Meaningful(text), "\n"))
  }

  /** The nested `cleanText` of the job-page fetcher. */
  method CleanText(text: string) returns (cleaned: string)
    ensures cleaned == CleanTextOf(text)
  {
    var lines := PageLines(text);
    var deduped := DedupWithSeen(lines, LineKey);
    cleaned := Trim(Join(Select(deduped, NotNoise), "\n"));
  }

  /** A line that neither starts nor ends with white space. */
  predicate Trimmed(line: string)
  {
    line != "" ==> !IsSpace(line[0]) && !IsSpace(line[|line| - 1])
  }

  /** Joining non-empty trimmed lines gives a string that is itself trimmed. */
  lemma {:induction false} JoinTrimmed(lines: seq<string>, sep: string)
    requires forall k :: 0 <= k < |lines| ==> lines[k] != "" && Trimmed(lines[k])
    ensures Trimmed(Join(lines, sep))
    ensures lines != [] ==> Join(lines, sep) != ""
  {
    if |lines| > 1 {
      JoinTrimmed(lines[1..], sep);
      var rest := Join(lines[1..], sep);
      assert Join(lines, sep) == lines[0] + sep + rest;
      assert lines[1..][0] == lines[1];
    }
  }

  /** The page lines are non-empty and trimmed. */
  lemma PageLinesTrimmed(pieces: seq<string>)
    ensures forall i :: 0 <= i < |Select(Mapped(pieces, Trim), NonEmpty)| ==>
      Select(Mapped(pieces, Trim), NonEmpty)[i] != "" && Trimmed(Select(Mapped(pieces, Trim), NonEmpty)[i])
  {
    var trimmed := Mapped(pieces, Trim);
    var lines := Select(trimmed, NonEmpty);
    SelectDescribed(trimmed, NonEmpty);
    SubsequenceMembers(lines, trimmed);
    forall i | 0 <= i < |lines| ensures lines[i] != "" && Trimmed(lines[i]) {
      assert NonEmpty(lines[i]);
      var t :| 0 <= t < |trimmed| && trimmed[t] == lines[i];
      assert trimmed[t] == Trim(pieces[t]);
    }
  }

  /** Lines deduplicated by key, then filtered by `keep`: distinct keys, each kept line the
      first with its key, every key represented, and every deduplicated line that passes
      kept. */
  lemma DedupKept(lines: seq<string>, keep: string -> bool)
    ensures var d := DedupBy(lines, LineKey);
      var m := Select(d, keep);
      (forall k :: 0 <= k < |m| ==> keep(m[k]) && m[k] in lines)
      && (forall i, j :: 0 <= i < j < |m| ==> LineKey(m[i]) != LineKey(m[j]))
      && (forall k :: 0 <= k < |m| ==> exists i :: FirstWithKey(lines, LineKey, i) && lines[i] == m[k])
      && (forall i :: 0 <= i < |lines| ==> LineKey(lines[i]) in Keys(d, LineKey))
      && (forall k :: 0 <= k < |d| && keep(d[k]) ==> d[k] in m)
  {
    var d := DedupBy(lines, LineKey);
    var m := Select(d, keep);
    DedupByDescribed(lines, LineKey);
    SubsequenceMembers(d, lines);
    SelectDescribed(d, keep);
    SubsequenceMembers(m, d);
    forall k | 0 <= k < |m| ensures m[k] in lines && exists i :: FirstWithKey(lines, LineKey, i) && lines[i] == m[k] {
      var i :| 0 <= i < |d| && d[i] == m[k];
    }
    forall i, j | 0 <= i < j < |m| ensures LineKey(m[i]) != LineKey(m[j]) {
      DistinctKeysSubsequence(m, d, LineKey, i, j);
    }
  }

  /** The kept lines are non-empty and trimmed, none is noise, no two share a lower-cased
      50-character prefix, and each is the first page line with its prefix; every page
      line's prefix is represented after deduplication, and every deduplicated line that is
      not noise is kept. */
  lemma CleanLinesDescribed(text: string)
    ensures forall k :: 0 <= k < |Meaningful(text)| ==>
      Meaningful(text)[k] != "" && Trimmed(Meaningful(text)[k]) && !IsNoise(Meaningful(text)[k])
    ensures forall i, j :: 0 <= i < j < |Meaningful(text)| ==> LineKey(Meaningful(text)[i]) != LineKey(Meaningful(text)[j])
    ensures forall k :: 0 <= k < |Meaningful(text)| ==>
      exists i :: FirstWithKey(PageLines(text), LineKey, i) && PageLines(text)[i] == Meaningful(text)[k]
    ensures forall i :: 0 <= i < |PageLines(text)| ==>
      LineKey(PageLines(text)[i]) in Keys(DedupBy(PageLines(text), LineKey), LineKey)
    ensures forall k :: 0 <= k < |DedupBy(PageLines(text), LineKey)| && !IsNoise(DedupBy(PageLines(text), LineKey)[k]) ==>
      DedupBy(PageLines(text), LineKey)[k] in Meaningful(text)
  {
    var lines := PageLines(text);
    var d := DedupBy(lines, LineKey);
    var m := Meaningful(text);
    PageLinesTrimmed(Split(LINE_BREAKS, Collapsed(text)));
    DedupKept(lines, NotNoise);
    forall k | 0 <= k < |m| ensures m[k] != "" && Trimmed(m[k]) && !IsNoise(m[k]) {
      assert NotNoise(m[k]);
      var i :| 0 <= i < |lines| && lines[i] == m[k];
    }
    forall k | 0 <= k < |d| && !IsNoise(d[k]) ensures d[k] in m {
      assert NotNoise(d[k]);
    }
  }

  /** The cleaned text is the kept lines joined by line breaks: the final trim removes
      nothing. */
  lemma CleanTextJoined(text: string)
    ensures CleanTextOf(text) == Join(Meaningful(text), "\n")
  {
    CleanLinesDescribed(text);
    JoinTrimmed(Meaningful(text), "\n");
    TrimUnchanged(Join(Meaningful(text), "\n"));
  }

  // ===========================================================================
  // truncateAtBoilerplate
  // ===========================================================================

  /** Words separated by `\s+`. */
  function Spaced(words: seq<string>): Re
  {
    if words == [] then Empty
    else if |words| == 1 then Lit(words[0])
    else Seqs([Lit(words[0]), Plus(Space), Spaced(words[1..])])
  }

  /** `/\b<words separated by \s+>\b/i`. */
  function Marker(words: seq<string>): Pattern
  {
    Insensitive(Seqs([B, Spaced(words), B]))
  }

  /** The markers of company boilerplate, in order. */
  const BOILERPLATE_MARKERS: seq<Pattern> := [
    // `/\bAbout\s+(the\s+)?Company\b/i`
    Insensitive(Seqs([B, Lit("About"), Plus(Space), Opt(Group(1, Seqs([Lit("the"), Plus(Space)]))), Lit("Company"), B])),
    Marker(["About", "S&P", "Global"]),
    Marker(["About", "Us"]),
    Marker(["Who", "We", "Are"]),
    // `/\bWhat'?s\s+In\s+It\s+For\s+You\b/i`
    Insensitive(Seqs([B, Lit("What"), Opt(Chr('\'')), Lit("s"), Plus(Space), Spaced(["In", "It", "For", "You"]), B])),
    Marker(["Our", "Mission"]),
    Marker(["Our", "Values"]),
    Marker(["Our", "People"]),
    Marker(["Our", "Culture"]),
    // `/\bBenefits\s*(:|We\s+Offer)\b/i`
    Insensitive(Seqs([B, Lit("Benefits"), Star(Space), Group(1, Alt(Chr(':'), Spaced(["We", "Offer"]))), B])),
    // `/\bPerks\s+(&|and)\s+Benefits\b/i`
    Insensitive(Seqs([B, Lit("Perks"), Plus(Space), Group(1, Words(["&", "and"])), Plus(Space), Lit("Benefits"), B])),
    Marker(["Equal", "Opportunity", "Employer"]),
    Marker(["EEO", "Statement"]),
    // `/\bDiversity\s+(&|and)\s+Inclusion\b/i`
    Insensitive(Seqs([B, Lit("Diversity"), Plus(Space), Group(1, Words(["&", "and"])), Plus(Space), Lit("Inclusion"), B])),
    Marker(["We", "are", "an", "equal"]),
    // `/\bLearn\s+more\s+at\s+www\./i`
    Insensitive(Seqs([B, Spaced(["Learn", "more", "at", "www."])])),
    // `/\bVisit\s+(us\s+at\s+)?www\./i`
    Insensitive(Seqs([B, Lit("Visit"), Plus(Space), Opt(Group(1, Seqs([Spaced(["us", "at"]), Plus(Space)]))), Lit("www.")])),
    Marker(["For", "more", "information", "visit"]),
    Marker(["Apply", "Now"]),
    Marker(["How", "to", "Apply"]),
    Marker(["Application", "Process"]),
    // `/\bSalary\s+Range\s*:/i`
    Insensitive(Seqs([B, Spaced(["Salary", "Range"]), Star(Space), Chr(':')])),
    // `/\bCompensation\s*:/i`
    Insensitive(Seqs([B, Lit("Compensation"), Star(Space), Chr(':')]))]

  /** Marker matches at or before this position do not cut. */
  const CUT_AFTER: nat := 200

  /** The first match of the marker starts after position 200 and before `bound`. */
  predicate CutsBefore(marker: Pattern, text: string, bound: nat)
  {
    Search(marker, text).Some? && CUT_AFTER < Search(marker, text).value.start < bound
  }

  /** `minIndex` after the loop over `markers`. */
  function Earliest(markers: seq<Pattern>, text: string): nat
  {
    if markers == [] then |text|
    else
      var e := Earliest(markers[..|markers| - 1], text);
      if CutsBefore(markers[|markers| - 1], text, e) then Search(markers[|markers| - 1], text).value.start else e
  }

  function TruncatedOf(text: string): string
  {
    var cut := Earliest(BOILERPLATE_MARKERS, text);
    if cut < |text| then Trim(text[..cut]) else text
  }

  method EarliestMarker(markers: seq<Pattern>, text: string) returns (minIndex: nat)
    ensures minIndex == Earliest(markers, text)
  {
    minIndex := |text|;
    var i := 0;
    while i < |markers|
      invariant i <= |markers|
      invariant minIndex == Earliest(markers[..i], text)
    {
      var pattern := markers[i];
      assert markers[..i + 1][..i] == markers[..i] && markers[..i + 1][i] == pattern;
      var m := Search(pattern, text);
      if m.Some? && m.value.start > CUT_AFTER && m.value.start < minIndex {
        minIndex := m.value.start;
      }
      i := i + 1;
    }
    assert markers[..i] == markers;
  }

  /** The nested `truncateAtBoilerplate` of the job-page fetcher. */
  method TruncateAtBoilerplate(text: string) returns (r: string)
    ensures r == TruncatedOf(text)
  {
    var minIndex := EarliestMarker(BOILERPLATE_MARKERS, text);
    if minIndex < |text| {
      return Trim(text[..minIndex]);
    }
    return text;
  }

  /** The cut is the smallest start, after position 200, of a marker's first match, and the
      whole length when there is none. */
  lemma {:induction false} EarliestDescribed(markers: seq<Pattern>, text: string)
    ensures Earliest(markers, text) <= |text|
    ensures Earliest(markers, text) < |text| ==>
      exists k :: 0 <= k < |markers| && CutsBefore(markers[k], text, |text|)
        && Search(markers[k], text).value.start == Earliest(markers, text)
    ensures forall k :: 0 <= k < |markers| && CutsBefore(markers[k], text, |text|) ==>
      Earliest(markers, text) <= Search(markers[k], text).value.start
  {
    if markers != [] {
      var init, last := markers[..|markers| - 1], markers[|markers| - 1];
      EarliestDescribed(init, text);
      var e := Earliest(init, text);
      forall k | 0 <= k < |markers| && CutsBefore(markers[k], text, |text|)
        ensures Earliest(markers, text) <= Search(markers[k], text).value.start
      {
        if k < |init| {
          assert markers[k] == init[k];
        }
      }
      if Earliest(markers, text) < |text| && !CutsBefore(last, text, e) {
        var k :| 0 <= k < |init| && CutsBefore(init[k], text, |text|) && Search(init[k], text).value.start == e;
        assert markers[k] == init[k];
      }
    }
  }

  /** Without a marker matching first after position 200 the text is returned unchanged;
      otherwise it is cut at the earliest such match and trimmed. */
  lemma TruncateDescribed(text: string)
    ensures (forall k :: 0 <= k < |BOILERPLATE_MARKERS| ==> !CutsBefore(BOILERPLATE_MARKERS[k], text, |text|)) ==>
      TruncatedOf(text) == text
    ensures (exists k :: 0 <= k < |BOILERPLATE_MARKERS| && CutsBefore(BOILERPLATE_MARKERS[k], text, |text|)) ==>
      exists k :: 0 <= k < |BOILERPLATE_MARKERS| && CutsBefore(BOILERPLATE_MARKERS[k], text, |text|)
        && TruncatedOf(text) == Trim(text[..Search(BOILERPLATE_MARKERS[k], text).value.start])
        && forall j :: 0 <= j < |BOILERPLATE_MARKERS| && CutsBefore(BOILERPLATE_MARKERS[j], text, |text|) ==>
          Search(BOILERPLATE_MARKERS[k], text).value.start <= Search(BOILERPLATE_MARKERS[j], text).value.start
  {
    EarliestDescribed(BOILERPLATE_MARKERS, text);
  }
}
