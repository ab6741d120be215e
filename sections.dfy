/** Recognising section headings in the reconstructed text and splitting its lines into
    section buckets. */
module Sections {
  import opened Text

  datatype Section =
    | Experience | Education | Skills | Leadership | Awards | Publications | Grants
    | Teaching | Conferences | Projects | Certifications | Summary

  // The keywords of each section, in the order they are declared.
  const EXPERIENCE_KEYWORDS: seq<string> :=
    ["experience", "employment", "work history", "professional experience", "career", "job history"]
  const EDUCATION_KEYWORDS: seq<string> :=
    ["education", "academic", "degrees", "qualifications", "schooling"]
  const SKILLS_KEYWORDS: seq<string> :=
    ["skills", "competencies", "expertise", "technologies", "proficiencies", "technical skills",
     "core competencies"]
  const LEADERSHIP_KEYWORDS: seq<string> :=
    ["leadership", "volunteer", "extracurricular", "activities", "organizations", "community"]
  const AWARDS_KEYWORDS: seq<string> :=
    ["awards", "honors", "achievements", "recognition", "accomplishments", "scholarships", "fellowships"]
  const PUBLICATIONS_KEYWORDS: seq<string> :=
    ["publications", "papers", "articles", "research publications", "journal", "published works"]
  const GRANTS_KEYWORDS: seq<string> := ["grants", "funding", "sponsored", "fellowship"]
  const TEACHING_KEYWORDS: seq<string> :=
    ["teaching", "instruction", "courses taught", "academic experience"]
  const CONFERENCES_KEYWORDS: seq<string> :=
    ["conferences", "presentations", "talks", "posters", "invited"]
  const PROJECTS_KEYWORDS: seq<string> := ["projects", "portfolio", "personal projects"]
  const CERTIFICATIONS_KEYWORDS: seq<string> := ["certifications", "licenses", "credentials", "training"]
  const SUMMARY_KEYWORDS: seq<string> :=
    ["summary", "objective", "profile", "about", "overview", "introduction"]

  /** Each line paired with the same tag: a keyword with its section, a routed line with
      its bucket. */
  function Tagged<T>(tag: T, lines: seq<string>): (r: seq<(T, string)>)
    ensures |r| == |lines|
    ensures forall k :: 0 <= k < |lines| ==> r[k] == (tag, lines[k])
  {
    seq(|lines|, k requires 0 <= k < |lines| => (tag, lines[k]))
  }

  /** The keyword table, read section by section and keyword by keyword in the order it is
      declared: the order in which a heading is tried against it. */
  const KEYWORDS: seq<(Section, string)> :=
    Tagged(Experience, EXPERIENCE_KEYWORDS) + Tagged(Education, EDUCATION_KEYWORDS)
    + Tagged(Skills, SKILLS_KEYWORDS) + Tagged(Leadership, LEADERSHIP_KEYWORDS)
    + Tagged(Awards, AWARDS_KEYWORDS) + Tagged(Publications, PUBLICATIONS_KEYWORDS)
    + Tagged(Grants, GRANTS_KEYWORDS) + Tagged(Teaching, TEACHING_KEYWORDS)
    + Tagged(Conferences, CONFERENCES_KEYWORDS) + Tagged(Projects, PROJECTS_KEYWORDS)
    + Tagged(Certifications, CERTIFICATIONS_KEYWORDS) + Tagged(Summary, SUMMARY_KEYWORDS)

  /** The decorations a heading may carry: `[:\-–—•·_|]`. */
  predicate IsHeadingPunct(c: char)
  {
    c == ':' || c == '-' || c == '–' || c == '—' || c == '•' || c == '·'
    || c == '_' || c == '|'
  }

  /** Every heading decoration replaced by a space. */
  function BlankPunct(s: string): (r: string)
    ensures |r| == |s|
    ensures forall i :: 0 <= i < |s| ==> r[i] == (if IsHeadingPunct(s[i]) then ' ' else s[i])
  {
    seq(|s|, i requires 0 <= i < |s| => if IsHeadingPunct(s[i]) then ' ' else s[i])
  }

  /** The form of a line that is compared with the keywords: lower-cased, decorations
      replaced by spaces, trimmed. */
  function CleanHeading(line: string): (r: string)
    ensures |r| <= |line|
    ensures forall i :: 0 <= i < |r| ==> !IsUpper(r[i]) && !IsHeadingPunct(r[i])
  {
    Trim(BlankPunct(ToLower(line)))
  }

  /** A line in capitals: upper-casing leaves it as it is, and it has a capital letter. */
  predicate IsAllCaps(line: string)
  {
    line == ToUpper(line) && exists i :: 0 <= i < |line| && IsUpper(line[i])
  }

  /** The number of maximal runs of white space in `s`. */
  function SpaceRuns(s: string): (n: nat)
    ensures n <= |s|
    ensures n == 0 <==> forall i :: 0 <= i < |s| ==> !IsSpace(s[i])
  {
    if s == [] then 0
    else
      var init := s[..|s| - 1];
      var rest := SpaceRuns(init);
      assert forall i :: 0 <= i < |init| ==> init[i] == s[i];
      rest + (if IsSpace(s[|s| - 1]) && (init == [] || !IsSpace(init[|init| - 1])) then 1 else 0)
  }

  /** `split(/\s+/).length`: one more piece than there are runs of white space. */
  function WordCount(s: string): (n: nat)
    ensures n >= 1
    ensures n == 1 <==> forall i :: 0 <= i < |s| ==> !IsSpace(s[i])
  {
    SpaceRuns(s) + 1
  }

  /** The four ways a cleaned line can name a keyword. */
  predicate KeywordHits(clean: string, keyword: string, caps: bool, short: bool)
  {
    clean == keyword
    || StartsWith(clean, keyword + " ") || EndsWith(clean, " " + keyword)
    || (caps && Contains(clean, keyword))
    || (short && Contains(clean, keyword))
  }

  /** The first entry of `table`, from `from` on, that the cleaned line hits. */
  function FirstHit(table: seq<(Section, string)>, clean: string, caps: bool, short: bool, from: nat): (r: Option<nat>)
    requires from <= |table|
    ensures r.Some? ==> from <= r.value < |table| && KeywordHits(clean, table[r.value].1, caps, short)
    ensures r.Some? ==> forall k :: from <= k < r.value ==> !KeywordHits(clean, table[k].1, caps, short)
    ensures r.None? ==> forall k :: from <= k < |table| ==> !KeywordHits(clean, table[k].1, caps, short)
    decreases |table| - from
  {
    if from == |table| then None
    else if KeywordHits(clean, table[from].1, caps, short) then Some(from)
    else FirstHit(table, clean, caps, short, from + 1)
  }

  /** The cleaned line's length lies within the bounds a heading may have. */
  predicate HeadingLength(clean: string)
  {
    3 <= |clean| <= 50
  }

  /** Whether the line, in capitals or not, is short: at most four words once cleaned. */
  predicate IsShortHeading(line: string)
  {
    WordCount(CleanHeading(line)) <= 4
  }

  /** Entry `j` of `table` is the first one that `line` hits. */
  predicate FirstHitAt(table: seq<(Section, string)>, line: string, j: int)
  {
    var clean := CleanHeading(line);
    0 <= j < |table| && KeywordHits(clean, table[j].1, IsAllCaps(line), IsShortHeading(line))
    && forall k :: 0 <= k < j ==> !KeywordHits(clean, table[k].1, IsAllCaps(line), IsShortHeading(line))
  }

  /** No entry of `table` is hit by `line`. */
  predicate NoHit(table: seq<(Section, string)>, line: string)
  {
    forall k :: 0 <= k < |table| ==>
      !KeywordHits(CleanHeading(line), table[k].1, IsAllCaps(line), IsShortHeading(line))
  }

  /** The heading test over a keyword table, as written: the first keyword, in table
      order, that the line hits by any of the four rules. */
  function HeaderIn(table: seq<(Section, string)>, line: string): (r: Option<Section>)
    ensures !HeadingLength(CleanHeading(line)) ==> r == None
    ensures HeadingLength(CleanHeading(line)) && r.None? ==> NoHit(table, line)
    ensures r.Some? ==> exists j :: FirstHitAt(table, line, j) && r.value == table[j].0
  {
    var clean := CleanHeading(line);
    if !HeadingLength(clean) then None
    else
      match FirstHit(table, clean, IsAllCaps(line), IsShortHeading(line), 0)
      case None => None
      case Some(j) =>
        assert FirstHitAt(table, line, j);
        Some(table[j].0)
  }

  /** The first entry of `table`, from `from` on, whose keyword is exactly `clean`. */
  function FirstExact(table: seq<(Section, string)>, clean: string, from: nat): (r: Option<nat>)
    requires from <= |table|
    ensures r.Some? ==> from <= r.value < |table| && table[r.value].1 == clean
    ensures r.Some? ==> forall k :: from <= k < r.value ==> table[k].1 != clean
    ensures r.None? ==> forall k :: from <= k < |table| ==> table[k].1 != clean
    decreases |table| - from
  {
    if from == |table| then None
    else if table[from].1 == clean then Some(from)
    else FirstExact(table, clean, from + 1)
  }

  /** Entry `j` of `table` is the first one with its keyword. */
  predicate FirstOwner(table: seq<(Section, string)>, j: int)
  {
    0 <= j < |table| && forall k :: 0 <= k < j ==> table[k].1 != table[j].1
  }

  /** No keyword of `table` is exactly `clean`. */
  predicate NoExact(table: seq<(Section, string)>, clean: string)
  {
    forall k :: 0 <= k < |table| ==> table[k].1 != clean
  }

  /** The heading test with the exact matches given priority over the partial ones: a line
      that is exactly a keyword names the section that owns it, and any other line is
      classified as written. */
  function HeaderExactFirstIn(table: seq<(Section, string)>, line: string): (r: Option<Section>)
    ensures !HeadingLength(CleanHeading(line)) ==> r == None
    ensures forall j | FirstOwner(table, j) && table[j].1 == CleanHeading(line) ::
      HeadingLength(table[j].1) ==> r == Some(table[j].0)
    ensures NoExact(table, CleanHeading(line)) ==> r == HeaderIn(table, line)
  {
    var clean := CleanHeading(line);
    if !HeadingLength(clean) then None
    else
      match FirstExact(table, clean, 0)
      case Some(j) =>
        assert forall i | FirstOwner(table, i) && table[i].1 == clean :: i == j;
        Some(table[j].0)
      case None => HeaderIn(table, line)
  }

  /** `isSectionHeader`. */
  function IsSectionHeader(line: string): Option<Section>
  {
    HeaderIn(KEYWORDS, line)
  }

  /** `isSectionHeader` as evidently intended, exact matches first. */
  function IsSectionHeaderIntended(line: string): Option<Section>
  {
    HeaderExactFirstIn(KEYWORDS, line)
  }

  /** Every keyword of a list has a length a heading may have. */
  predicate HeadingLengths(keywords: seq<string>)
  {
    forall k :: 0 <= k < |keywords| ==> HeadingLength(keywords[k])
  }

  predicate TableLengths(table: seq<(Section, string)>)
  {
    forall k :: 0 <= k < |table| ==> HeadingLength(table[k].1)
  }

  lemma TableLengthsConcat(a: seq<(Section, string)>, b: seq<(Section, string)>)
    requires TableLengths(a) && TableLengths(b)
    ensures TableLengths(a + b)
  {
    forall k | 0 <= k < |a + b| ensures HeadingLength((a + b)[k].1) {
      if k >= |a| { assert (a + b)[k] == b[k - |a|]; }
    }
  }

  /** Every keyword list has lengths a heading may have. */
  lemma ListLengths()
    ensures HeadingLengths(EXPERIENCE_KEYWORDS) && HeadingLengths(EDUCATION_KEYWORDS)
    ensures HeadingLengths(SKILLS_KEYWORDS) && HeadingLengths(LEADERSHIP_KEYWORDS)
    ensures HeadingLengths(AWARDS_KEYWORDS) && HeadingLengths(PUBLICATIONS_KEYWORDS)
    ensures HeadingLengths(GRANTS_KEYWORDS) && HeadingLengths(TEACHING_KEYWORDS)
    ensures HeadingLengths(CONFERENCES_KEYWORDS) && HeadingLengths(PROJECTS_KEYWORDS)
    ensures HeadingLengths(CERTIFICATIONS_KEYWORDS) && HeadingLengths(SUMMARY_KEYWORDS)
  {
  }

  /** Every keyword has a length a heading may have. */
  lemma KeywordLengths()
    ensures TableLengths(KEYWORDS)
  {
    ListLengths();
    var t1 := Tagged(Experience, EXPERIENCE_KEYWORDS) + Tagged(Education, EDUCATION_KEYWORDS);
    TableLengthsConcat(Tagged(Experience, EXPERIENCE_KEYWORDS), Tagged(Education, EDUCATION_KEYWORDS));
    var t2 := t1 + Tagged(Skills, SKILLS_KEYWORDS);
    TableLengthsConcat(t1, Tagged(Skills, SKILLS_KEYWORDS));
    var t3 := t2 + Tagged(Leadership, LEADERSHIP_KEYWORDS);
    TableLengthsConcat(t2, Tagged(Leadership, LEADERSHIP_KEYWORDS));
    var t4 := t3 + Tagged(Awards, AWARDS_KEYWORDS);
    TableLengthsConcat(t3, Tagged(Awards, AWARDS_KEYWORDS));
    var t5 := t4 + Tagged(Publications, PUBLICATIONS_KEYWORDS);
    TableLengthsConcat(t4, Tagged(Publications, PUBLICATIONS_KEYWORDS));
    var t6 := t5 + Tagged(Grants, GRANTS_KEYWORDS);
    TableLengthsConcat(t5, Tagged(Grants, GRANTS_KEYWORDS));
    var t7 := t6 + Tagged(Teaching, TEACHING_KEYWORDS);
    TableLengthsConcat(t6, Tagged(Teaching, TEACHING_KEYWORDS));
    var t8 := t7 + Tagged(Conferences, CONFERENCES_KEYWORDS);
    TableLengthsConcat(t7, Tagged(Conferences, CONFERENCES_KEYWORDS));
    var t9 := t8 + Tagged(Projects, PROJECTS_KEYWORDS);
    TableLengthsConcat(t8, Tagged(Projects, PROJECTS_KEYWORDS));
    var t10 := t9 + Tagged(Certifications, CERTIFICATIONS_KEYWORDS);
    TableLengthsConcat(t9, Tagged(Certifications, CERTIFICATIONS_KEYWORDS));
    TableLengthsConcat(t10, Tagged(Summary, SUMMARY_KEYWORDS));
  }

  /** With exact matches first, a line that is exactly a keyword is a heading of the
      section that owns it, the first owner in table order. */
  lemma ExactKeywordIntended(line: string, j: int)
    requires FirstOwner(KEYWORDS, j) && CleanHeading(line) == KEYWORDS[j].1
    ensures IsSectionHeaderIntended(line) == Some(KEYWORDS[j].0)
  {
    KeywordLengths();
  }

  /** A line that is exactly a keyword is a heading, though not necessarily of the
      keyword's section. */
  lemma ExactKeyword(line: string, j: int)
    requires 0 <= j < |KEYWORDS| && CleanHeading(line) == KEYWORDS[j].1
    ensures IsSectionHeader(line).Some?
  {
    KeywordLengths();
    assert KeywordHits(CleanHeading(line), KEYWORDS[j].1, IsAllCaps(line), IsShortHeading(line));
  }

  /** Where the experience and the teaching keywords sit in the table. */
  lemma TableEntries()
    ensures KEYWORDS[0] == (Experience, "experience")
    ensures KEYWORDS[44] == (Teaching, "academic experience")
  {
    var t := Tagged(Experience, EXPERIENCE_KEYWORDS) + Tagged(Education, EDUCATION_KEYWORDS)
      + Tagged(Skills, SKILLS_KEYWORDS) + Tagged(Leadership, LEADERSHIP_KEYWORDS)
      + Tagged(Awards, AWARDS_KEYWORDS) + Tagged(Publications, PUBLICATIONS_KEYWORDS)
      + Tagged(Grants, GRANTS_KEYWORDS);
    assert |t| == 41;
    assert KEYWORDS[44] == Tagged(Teaching, TEACHING_KEYWORDS)[3];
  }

  /** A heading test that the first entry of the table accepts returns its section. */
  lemma FirstEntryWins(table: seq<(Section, string)>, line: string)
    requires |table| > 0 && HeadingLength(CleanHeading(line))
    requires KeywordHits(CleanHeading(line), table[0].1, IsAllCaps(line), IsShortHeading(line))
    ensures HeaderIn(table, line) == Some(table[0].0)
  {
  }

  lemma LowerAcademicExperience()
    ensures ToLower("Academic Experience") == "academic experience"
  {
  }

  lemma BlankAcademicExperience()
    ensures BlankPunct("academic experience") == "academic experience"
  {
  }

  /** The cleaned form of the line `Academic Experience`. */
  lemma CleanAcademicExperience()
    ensures CleanHeading("Academic Experience") == "academic experience"
  {
    LowerAcademicExperience();
    BlankAcademicExperience();
    TrimUnchanged("academic experience");
  }

  /** A line that ends with a space and a keyword hits that keyword. */
  lemma HitByEnd(clean: string, keyword: string, caps: bool, short: bool)
    requires EndsWith(clean, " " + keyword)
    ensures KeywordHits(clean, keyword, caps, short)
  {
  }

  /** `academic experience` ends with a space and `experience`. */
  lemma EndsWithExperience()
    ensures EndsWith("academic experience", " " + "experience")
  {
    assert "academic experience"[8..] == " experience";
  }

  /** The teaching keyword `academic experience` can never win as written: the experience
      keyword ahead of it already matches the end of a line that cleans to it. */
  lemma AcademicExperienceAsWritten(line: string)
    requires CleanHeading(line) == "academic experience"
    ensures KEYWORDS[44] == (Teaching, CleanHeading(line))
    ensures IsSectionHeader(line) == Some(Experience)
  {
    TableEntries();
    EndsWithExperience();
    HitByEnd(CleanHeading(line), KEYWORDS[0].1, IsAllCaps(line), IsShortHeading(line));
    FirstEntryWins(KEYWORDS, line);
  }

  /** No keyword of `table` is `w`. */
  predicate Absent(table: seq<(Section, string)>, w: string)
  {
    forall k :: 0 <= k < |table| ==> table[k].1 != w
  }

  lemma AbsentConcat(a: seq<(Section, string)>, b: seq<(Section, string)>, w: string)
    requires Absent(a, w) && Absent(b, w)
    ensures Absent(a + b, w)
  {
    forall k | 0 <= k < |a + b| ensures (a + b)[k].1 != w {
      if k >= |a| { assert (a + b)[k] == b[k - |a|]; }
    }
  }

  /** `academic experience` is in none of the keyword lists ahead of its own. */
  lemma NotEarlierKeyword()
    ensures var w := "academic experience";
      w !in EXPERIENCE_KEYWORDS && w !in EDUCATION_KEYWORDS && w !in SKILLS_KEYWORDS
      && w !in LEADERSHIP_KEYWORDS && w !in AWARDS_KEYWORDS && w !in PUBLICATIONS_KEYWORDS
      && w !in GRANTS_KEYWORDS && w !in TEACHING_KEYWORDS[..3]
  {
  }

  /** `academic experience` is the first keyword of its kind: no keyword ahead of it in the
      table is the same. */
  lemma AcademicExperienceOwner()
    ensures FirstOwner(KEYWORDS, 44)
  {
    var w := "academic experience";
    TableEntries();
    NotEarlierKeyword();
    var t1 := Tagged(Experience, EXPERIENCE_KEYWORDS) + Tagged(Education, EDUCATION_KEYWORDS);
    AbsentConcat(Tagged(Experience, EXPERIENCE_KEYWORDS), Tagged(Education, EDUCATION_KEYWORDS), w);
    var t2 := t1 + Tagged(Skills, SKILLS_KEYWORDS);
    AbsentConcat(t1, Tagged(Skills, SKILLS_KEYWORDS), w);
    var t3 := t2 + Tagged(Leadership, LEADERSHIP_KEYWORDS);
    AbsentConcat(t2, Tagged(Leadership, LEADERSHIP_KEYWORDS), w);
    var t4 := t3 + Tagged(Awards, AWARDS_KEYWORDS);
    AbsentConcat(t3, Tagged(Awards, AWARDS_KEYWORDS), w);
    var t5 := t4 + Tagged(Publications, PUBLICATIONS_KEYWORDS);
    AbsentConcat(t4, Tagged(Publications, PUBLICATIONS_KEYWORDS), w);
    var t6 := t5 + Tagged(Grants, GRANTS_KEYWORDS);
    AbsentConcat(t5, Tagged(Grants, GRANTS_KEYWORDS), w);
    var teach := Tagged(Teaching, TEACHING_KEYWORDS);
    var rest := Tagged(Conferences, CONFERENCES_KEYWORDS) + Tagged(Projects, PROJECTS_KEYWORDS)
      + Tagged(Certifications, CERTIFICATIONS_KEYWORDS) + Tagged(Summary, SUMMARY_KEYWORDS);
    assert KEYWORDS == t6 + teach + rest;
    assert |t6| == 41;
    forall k | 0 <= k < 44 ensures KEYWORDS[k].1 != w {
      if k < 41 {
        assert KEYWORDS[k] == t6[k];
      } else {
        assert KEYWORDS[k] == teach[k - 41];
        assert TEACHING_KEYWORDS[..3][k - 41] in TEACHING_KEYWORDS[..3];
      }
    }
  }

  /** With exact matches first, such a line is a teaching heading. */
  lemma AcademicExperienceIntended(line: string)
    requires CleanHeading(line) == "academic experience"
    ensures IsSectionHeaderIntended(line) == Some(Teaching)
  {
    TableEntries();
    AcademicExperienceOwner();
    ExactKeywordIntended(line, 44);
  }

  // ---------------------------------------------------------------------------
  // Splitting the text into sections
  // ---------------------------------------------------------------------------

  /** The buckets lines are collected in: the header, one per section that has a bucket,
      and the rest. */
  datatype Bucket = HeaderBucket | SectionBucket(section: Section) | OtherBucket

  /** Certifications and summaries are recognised as headings but have no bucket. */
  predicate HasBucket(section: Section)
  {
    section != Certifications && section != Summary
  }

  predicate IsBucket(b: Bucket)
  {
    b.SectionBucket? ==> HasBucket(b.section)
  }

  /** The lines of the text, each trimmed. */
  function TextLines(text: string): (lines: seq<string>)
    ensures |lines| == |SplitOn(text, '\n')|
    ensures forall i :: 0 <= i < |lines| ==> lines[i] == Trim(SplitOn(text, '\n')[i])
  {
    var raw := SplitOn(text, '\n');
    seq(|raw|, i requires 0 <= i < |raw| => Trim(raw[i]))
  }

  // The routing below is stated for any heading classifier `header`; the program uses
  // `IsSectionHeader`.

  /** A line that goes into some bucket: neither empty nor a heading. */
  predicate IsContent(header: string -> Option<Section>, line: string)
  {
    line != "" && header(line).None?
  }

  /** The lines that go into some bucket, in order. */
  function ContentLines(header: string -> Option<Section>, lines: seq<string>): (r: seq<string>)
    ensures |r| <= |lines|
    ensures forall k :: 0 <= k < |r| ==> IsContent(header, r[k])
  {
    if lines == [] then []
    else
      var last := lines[|lines| - 1];
      ContentLines(header, lines[..|lines| - 1]) + (if IsContent(header, last) then [last] else [])
  }

  /** The section of the last heading among `lines`, if any. */
  function LastHeading(header: string -> Option<Section>, lines: seq<string>): Option<Section>
  {
    if lines == [] then None
    else
      var last := lines[|lines| - 1];
      if last != "" && header(last).Some? then header(last)
      else LastHeading(header, lines[..|lines| - 1])
  }

  /** Where a content line goes while `current` is the section being read: the header bucket
      before any header, the section's bucket when it has one, and the rest otherwise. */
  function Destination(current: Option<Section>): (b: Bucket)
    ensures IsBucket(b)
    ensures current.None? <==> b == HeaderBucket
    ensures b == OtherBucket <==> current.Some? && !HasBucket(current.value)
  {
    match current
    case None => HeaderBucket
    case Some(section) => if HasBucket(section) then SectionBucket(section) else OtherBucket
  }

  /** Each content line with the bucket it goes into, in order. */
  function Route(header: string -> Option<Section>, lines: seq<string>): (r: seq<(Bucket, string)>)
  {
    if lines == [] then []
    else
      var init, last := lines[..|lines| - 1], lines[|lines| - 1];
      Route(header, init) + (if IsContent(header, last) then [(Destination(LastHeading(header, init)), last)] else [])
  }

  /** The lines routed to bucket `b`, in order. */
  function Contents(route: seq<(Bucket, string)>, b: Bucket): (r: seq<string>)
    ensures |r| <= |route|
  {
    if route == [] then []
    else
      var last := route[|route| - 1];
      Contents(route[..|route| - 1], b) + (if last.0 == b then [last.1] else [])
  }

  /** The key the loop looks up for the section being read. */
  function Key(current: Option<Section>): Bucket
  {
    match current
    case None => HeaderBucket
    case Some(section) => SectionBucket(section)
  }

  /** The buckets, in the order of the record literal. */
  const BUCKETS: seq<Bucket> := [HeaderBucket, SectionBucket(Experience), SectionBucket(Education),
    SectionBucket(Skills), SectionBucket(Leadership), SectionBucket(Awards),
    SectionBucket(Publications), SectionBucket(Grants), SectionBucket(Teaching),
    SectionBucket(Conferences), SectionBucket(Projects), OtherBucket]

  lemma BucketListed(b: Bucket)
    ensures b in BUCKETS <==> IsBucket(b)
  {
    match b
    case HeaderBucket => assert BUCKETS[0] == b;
    case OtherBucket => assert BUCKETS[11] == b;
    case SectionBucket(section) =>
      match section
      case Experience => assert BUCKETS[1] == b;
      case Education => assert BUCKETS[2] == b;
      case Skills => assert BUCKETS[3] == b;
      case Leadership => assert BUCKETS[4] == b;
      case Awards => assert BUCKETS[5] == b;
      case Publications => assert BUCKETS[6] == b;
      case Grants => assert BUCKETS[7] == b;
      case Teaching => assert BUCKETS[8] == b;
      case Conferences => assert BUCKETS[9] == b;
      case Projects => assert BUCKETS[10] == b;
      case Certifications =>
      case Summary =>
  }

  /** The empty buckets the loop starts from. */
  function EmptyBuckets(): (m: map<Bucket, seq<string>>)
    ensures forall b :: b in m <==> IsBucket(b)
    ensures forall b | b in m :: m[b] == []
  {
    assert forall b :: b in BUCKETS <==> IsBucket(b) by {
      forall b ensures b in BUCKETS <==> IsBucket(b) {
        BucketListed(b);
      }
    }
    map b | b in BUCKETS :: []
  }

  /** `sections` holds, bucket by bucket, the lines `route` sends there. */
  ghost predicate Collected(sections: map<Bucket, seq<string>>, route: seq<(Bucket, string)>)
  {
    (forall b :: b in sections <==> IsBucket(b))
    && forall b | b in sections :: sections[b] == Contents(route, b)
  }

  lemma ContentsSnoc(route: seq<(Bucket, string)>, e: (Bucket, string), b: Bucket)
    ensures Contents(route + [e], b) == Contents(route, b) + (if e.0 == b then [e.1] else [])
  {
    assert (route + [e])[..|route|] == route;
  }

  /** Appending a line to its bucket keeps the map in step with the route. */
  lemma PushCollected(sections: map<Bucket, seq<string>>, route: seq<(Bucket, string)>,
                      d: Bucket, line: string)
    requires Collected(sections, route) && IsBucket(d)
    ensures Collected(sections[d := sections[d] + [line]], route + [(d, line)])
  {
    forall b | b in sections[d := sections[d] + [line]]
      ensures sections[d := sections[d] + [line]][b] == Contents(route + [(d, line)], b)
    {
      ContentsSnoc(route, (d, line), b);
    }
  }

  /** One more line: how the route and the current section change. */
  lemma RouteStep(header: string -> Option<Section>, lines: seq<string>, i: nat)
    requires i < |lines|
    ensures Route(header, lines[..i + 1]) == Route(header, lines[..i])
      + (if IsContent(header, lines[i]) then [(Destination(LastHeading(header, lines[..i])), lines[i])] else [])
    ensures LastHeading(header, lines[..i + 1])
      == (if lines[i] != "" && header(lines[i]).Some? then header(lines[i])
          else LastHeading(header, lines[..i]))
  {
    assert lines[..i + 1][..i] == lines[..i];
  }

  /** `splitIntoSections`: every trimmed line that is neither empty nor a heading goes into
      the bucket of the section last announced, in order. */
  method SplitIntoSections(text: string) returns (sections: map<Bucket, seq<string>>)
    ensures forall b :: b in sections <==> IsBucket(b)
    ensures forall b | b in sections :: sections[b] == Contents(Route(IsSectionHeader, TextLines(text)), b)
  {
    var lines := TextLines(text);
    sections := EmptyBuckets();
    var current: Option<Section> := None;
    var foundFirstSection := false;
    ghost var route: seq<(Bucket, string)> := [];
    for i := 0 to |lines|
      invariant foundFirstSection <==> current.Some?
      invariant current == LastHeading(IsSectionHeader, lines[..i])
      invariant route == Route(IsSectionHeader, lines[..i])
      invariant Collected(sections, route)
    {
      var line := lines[i];
      RouteStep(IsSectionHeader, lines, i);
      if line != "" {
        var sectionType := IsSectionHeader(line);
        if sectionType.Some? {
          foundFirstSection := true;
          current := sectionType;
        } else if !foundFirstSection && |sections[HeaderBucket]| < 10 {
          PushCollected(sections, route, HeaderBucket, line);
          sections := sections[HeaderBucket := sections[HeaderBucket] + [line]];
          route := route + [(HeaderBucket, line)];
        } else if Key(current) in sections {
          PushCollected(sections, route, Key(current), line);
          sections := sections[Key(current) := sections[Key(current)] + [line]];
          route := route + [(Key(current), line)];
        } else {
          PushCollected(sections, route, OtherBucket, line);
          sections := sections[OtherBucket := sections[OtherBucket] + [line]];
          route := route + [(OtherBucket, line)];
        }
      }
    }
    assert lines[..|lines|] == lines;
  }

  /** The lines of a route, in order. */
  function RoutedLines(route: seq<(Bucket, string)>): (r: seq<string>)
    ensures |r| == |route|
    ensures forall k :: 0 <= k < |route| ==> r[k] == route[k].1
  {
    seq(|route|, k requires 0 <= k < |route| => route[k].1)
  }

  predicate NoHeadingIn(header: string -> Option<Section>, lines: seq<string>)
  {
    forall k :: 0 <= k < |lines| ==> lines[k] == "" || header(lines[k]).None?
  }

  /** Every content line is routed exactly once, and the route keeps their order. */
  lemma {:induction false} RouteKeepsContent(header: string -> Option<Section>, lines: seq<string>)
    ensures RoutedLines(Route(header, lines)) == ContentLines(header, lines)
  {
    if lines != [] {
      var init, last := lines[..|lines| - 1], lines[|lines| - 1];
      RouteKeepsContent(header, init);
      var tail := if IsContent(header, last) then [(Destination(LastHeading(header, init)), last)] else [];
      assert RoutedLines(Route(header, init) + tail) == RoutedLines(Route(header, init)) + RoutedLines(tail);
    }
  }

  /** One more line at the end: how the route, the content and the current section grow. */
  lemma Snoc(header: string -> Option<Section>, lines: seq<string>, x: string)
    ensures Route(header, lines + [x]) == Route(header, lines)
      + (if IsContent(header, x) then [(Destination(LastHeading(header, lines)), x)] else [])
    ensures ContentLines(header, lines + [x])
      == ContentLines(header, lines) + (if IsContent(header, x) then [x] else [])
    ensures LastHeading(header, lines + [x])
      == (if x != "" && header(x).Some? then header(x) else LastHeading(header, lines))
  {
    assert (lines + [x])[..|lines|] == lines;
  }

  /** Lines with no heading among them all go where the last heading before them said. */
  lemma {:induction false} RouteAfter(header: string -> Option<Section>, lines: seq<string>,
                                      post: seq<string>)
    requires NoHeadingIn(header, post)
    ensures LastHeading(header, lines + post) == LastHeading(header, lines)
    ensures Route(header, lines + post)
      == Route(header, lines) + Tagged(Destination(LastHeading(header, lines)), ContentLines(header, post))
  {
    if post == [] {
      assert lines + post == lines;
    } else {
      var init, last := post[..|post| - 1], post[|post| - 1];
      assert post == init + [last];
      assert NoHeadingIn(header, init) by {
        forall k | 0 <= k < |init| ensures init[k] == "" || header(init[k]).None? {
          assert init[k] == post[k];
        }
      }
      RouteAfter(header, lines, init);
      assert lines + post == (lines + init) + [last];
      Snoc(header, lines + init, last);
      Snoc(header, init, last);
      var d := Destination(LastHeading(header, lines));
      if IsContent(header, last) {
        assert Tagged(d, ContentLines(header, init) + [last]) == Tagged(d, ContentLines(header, init)) + [(d, last)];
      }
    }
  }

  /** Before the first heading every content line goes to the header, however many there
      are: the ten-line cap on the header never takes effect. */
  lemma AllToHeader(header: string -> Option<Section>, lines: seq<string>)
    requires NoHeadingIn(header, lines)
    ensures Contents(Route(header, lines), HeaderBucket) == ContentLines(header, lines)
    ensures forall b | b != HeaderBucket :: Contents(Route(header, lines), b) == []
  {
    RouteAfter(header, [], lines);
    assert [] + lines == lines;
    assert Route(header, lines) == Tagged(HeaderBucket, ContentLines(header, lines));
    ContentsTag(HeaderBucket, ContentLines(header, lines));
  }

  /** Routing every line to one bucket fills that bucket and no other. */
  lemma {:induction false} ContentsTag(d: Bucket, xs: seq<string>)
    ensures Contents(Tagged(d, xs), d) == xs
    ensures forall b | b != d :: Contents(Tagged(d, xs), b) == []
  {
    if xs != [] {
      var init := xs[..|xs| - 1];
      ContentsTag(d, init);
      assert Tagged(d, xs)[..|xs| - 1] == Tagged(d, init);
      assert xs == init + [xs[|xs| - 1]];
    }
  }

  lemma {:induction false} ContentsConcat(r1: seq<(Bucket, string)>, r2: seq<(Bucket, string)>, b: Bucket)
    ensures Contents(r1 + r2, b) == Contents(r1, b) + Contents(r2, b)
  {
    if r2 == [] {
      assert r1 + r2 == r1;
    } else {
      var init := r2[..|r2| - 1];
      ContentsConcat(r1, init, b);
      assert (r1 + r2)[..|r1 + r2| - 1] == r1 + init;
      assert (r1 + r2)[|r1 + r2| - 1] == r2[|r2| - 1];
    }
  }

  /** After a heading, until the next one, content lines go to that section's bucket; for
      certifications and summaries, which have none, to the rest. */
  lemma AfterHeading(header: string -> Option<Section>, pre: seq<string>, heading: string, post: seq<string>,
                     section: Section)
    requires heading != "" && header(heading) == Some(section)
    requires NoHeadingIn(header, post)
    ensures var route := Route(header, pre + [heading] + post);
      var d := if HasBucket(section) then SectionBucket(section) else OtherBucket;
      Contents(route, d) == Contents(Route(header, pre), d) + ContentLines(header, post)
      && forall b | b != d :: Contents(route, b) == Contents(Route(header, pre), b)
  {
    var lines := pre + [heading];
    assert lines[..|lines| - 1] == pre && lines[|lines| - 1] == heading;
    assert LastHeading(header, lines) == Some(section);
    assert Route(header, lines) == Route(header, pre);
    RouteAfter(header, lines, post);
    var d := Destination(Some(section));
    ContentsTag(d, ContentLines(header, post));
    forall b ensures Contents(Route(header, lines + post), b)
      == Contents(Route(header, pre), b) + Contents(Tagged(d, ContentLines(header, post)), b)
    {
      ContentsConcat(Route(header, pre), Tagged(d, ContentLines(header, post)), b);
    }
  }
}
