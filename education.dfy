/** Education (`extractEducation`, `parseEducationEntry`): lines of three or more characters
    are read in order, and a line that names a school or a degree opens a new entry once the
    entry being filled has a line and either the new line carries a year or the entry already
    has three lines. */
module Education {
  import opened Text
  import opened Regex
  import opened Storage
  import opened Dates
  import opened Fields
  import opened Lists
  import opened Entries
  import opened Extract
  import opened Accumulate

  const SCHOOL_KEYWORDS: seq<string> := ["university", "college", "institute", "school", "academy", "polytechnic"]

  const FAMOUS_SCHOOLS: seq<string> := [
    "MIT", "UCLA", "USC", "NYU", "Stanford", "Harvard", "Yale", "Princeton",
    "Berkeley", "Columbia", "Cornell", "Duke", "Northwestern", "Caltech",
    "Georgia Tech", "Purdue", "Michigan", "Virginia Tech", "Texas A&M",
    "Oxford", "Cambridge", "Carnegie Mellon", "Brown", "Penn", "Dartmouth"]

  /** The line, lower-cased, contains a school keyword or the lower-cased name of a famous
      school. */
  predicate HasSchool(line: string)
  {
    var lower := ToLower(line);
    (exists k :: 0 <= k < |SCHOOL_KEYWORDS| && Contains(lower, SCHOOL_KEYWORDS[k]))
    || (exists k :: 0 <= k < |FAMOUS_SCHOOLS| && Contains(lower, ToLower(FAMOUS_SCHOOLS[k])))
  }

  /** `!line || line.length < 3`: the lines the loop passes over. */
  predicate TooShort(line: string)
  {
    |line| < 3
  }

  /** A school or degree line opens a new entry when the current one has a line and the new
      line has a year or the current entry has more than two lines. */
  predicate OpensEducation(h: Heuristics, line: string, size: nat)
  {
    (HasSchool(line) || h.hasDegree(line)) && size > 0 && (FindYear(line).Some? || size > 2)
  }

  function KeepLine(line: string): string
  {
    line
  }

  function EducationRule(h: Heuristics): Rule
  {
    Rule(TooShort, (line: string, size: nat) => OpensEducation(h, line, size), KeepLine)
  }

  /** `[0-9]\.[0-9]{1,2}`. */
  const GpaFigure: Re := Seqs([Digit, Chr('.'), Rep(Digit, 1, 2)])

  /** `/GPA[:\s]*([0-9]\.[0-9]{1,2})/i`. */
  const GpaLabelled: Pattern := Insensitive(Seqs([Lit("GPA"), Star(Set(SpaceRanges, ":", false)), Group(1, GpaFigure)]))

  /** `/([0-9]\.[0-9]{1,2})\s*\/\s*4\.0/`. */
  const GpaOutOfFour: Pattern := Sensitive(Seqs([Group(1, GpaFigure), Star(Space), Chr('/'), Star(Space), Lit("4.0")]))

  /** The GPA: group 1 of the labelled form, else of the `/ 4.0` form, else `''`. */
  function Gpa(fullText: string): string
  {
    match Search(GpaLabelled, fullText)
    case Some(m) => GroupOr(fullText, m, 1)
    case None =>
      match Search(GpaOutOfFour, fullText)
      case Some(m) => GroupOr(fullText, m, 1)
      case None => ""
  }

  /** The field: the one found after the degree, else the cleaned group of the
      `major|concentration|in` pattern, else `''`. */
  function Field(h: Heuristics, fullText: string, afterDegree: string): string
  {
    if afterDegree != "" then afterDegree
    else
      match h.fieldOnly(fullText)
      case Some(f) => CleanFieldValue(f, TextField)
      case None => ""
  }

  /** A description line: longer than 15 characters, and its first 10 characters are not
      part of the school found. */
  predicate DescribesStudy(school: string, l: string)
  {
    |l| > 15 && !Contains(school, l[..10])
  }

  /** `parseEducationEntry` (the `id` is set when the entry is pushed). The empty group,
      which the loop never yields, reads as one empty line. */
  function ParseEducationEntry(h: Heuristics, lines: seq<string>): Education
  {
    var fullText := Join(lines, " ");
    var dates := ExtractDateRange(fullText);
    var school := h.school(fullText);
    var (degree, afterDegree) := h.degree(fullText);
    var first := if lines == [] then "" else lines[0];
    Education("", OrElse(school, CleanFieldValue(first, TextField)), degree, Field(h, fullText, afterDegree),
      Location(fullText), dates, Some(Gpa(fullText)),
      NormalizedJoin(StudyLines(school, lines), "\n"), dates.endYear == "Present")
  }

  function WithId(e: Education, id: string): Education
  {
    e.(id := id)
  }

  function EducationGroups(h: Heuristics, lines: seq<string>): seq<seq<string>>
  {
    Groups(EducationRule(h), lines)
  }

  /** What `extractEducation` returns: one entry per group, numbered from `next` on. */
  function EducationOf(h: Heuristics, lines: seq<string>, ids: IdSupply, next: nat): seq<Education>
  {
    Parsed(EducationGroups(h, lines), g => ParseEducationEntry(h, g), WithId, ids, next)
  }

  /** `extractEducation`: the accumulator loop under the education rule, every group
      parsed. */
  method ExtractEducation(h: Heuristics, lines: seq<string>, ids: IdSupply, next: nat) returns (educations: seq<Education>)
    ensures educations == EducationOf(h, lines, ids, next)
  {
    if |lines| == 0 {
      return [];
    }
    educations := Collect(EducationRule(h), lines, KeepAll, g => ParseEducationEntry(h, g), WithId, ids, next);
    KeptAll(EducationRule(h), lines);
  }

  /** The groups' lines are exactly the lines of three or more characters, in order, and
      every group has a line. */
  lemma EducationLines(h: Heuristics, lines: seq<string>)
    ensures Flatten(EducationGroups(h, lines)) == Retained(EducationRule(h), lines)
    ensures forall k :: 0 <= k < |EducationGroups(h, lines)| ==> EducationGroups(h, lines)[k] != []
  {
    GroupsKeepLines(EducationRule(h), lines);
  }

  /** A line of three or more characters that opens an entry after a group with lines
      starts the next group. */
  lemma OpenersStartGroups(h: Heuristics, lines: seq<string>)
    ensures forall i ::
              (0 <= i < |lines| && |lines[i]| >= 3
              && OpensEducation(h, lines[i], |Accumulated(EducationRule(h), lines, i).current|))
              ==> 1 <= |Close(Accumulated(EducationRule(h), lines, i))| < |EducationGroups(h, lines)|
                  && EducationGroups(h, lines)[|Close(Accumulated(EducationRule(h), lines, i))|][0] == lines[i]
  {
    var rule, groups := EducationRule(h), EducationGroups(h, lines);
    forall i | 0 <= i < |lines| && |lines[i]| >= 3 && OpensEducation(h, lines[i], |Accumulated(rule, lines, i).current|)
      ensures 1 <= |Close(Accumulated(rule, lines, i))| < |groups|
      ensures groups[|Close(Accumulated(rule, lines, i))|][0] == lines[i]
    {
      assert OpenedAt(rule, lines, i);
      OpenerStartsGroup(rule, lines, i);
    }
  }

  /** Every group after the first starts with a line of three or more characters that names
      a school or a degree and either has a year or follows a group of three or more lines;
      and every such line that follows a group with lines closes it and starts the next. */
  lemma EducationOpeners(h: Heuristics, lines: seq<string>)
    ensures forall k :: 1 <= k < |EducationGroups(h, lines)| ==>
      exists i :: 0 <= i < |lines| && EducationGroups(h, lines)[k][0] == lines[i] && |lines[i]| >= 3
        && (HasSchool(lines[i]) || h.hasDegree(lines[i]))
        && (FindYear(lines[i]).Some? || |Accumulated(EducationRule(h), lines, i).current| > 2)
  {
    var rule, groups := EducationRule(h), EducationGroups(h, lines);
    GroupsDescribed(rule, lines);
    forall k | 1 <= k < |groups|
      ensures exists i :: 0 <= i < |lines| && groups[k][0] == lines[i] && |lines[i]| >= 3
                && (HasSchool(lines[i]) || h.hasDegree(lines[i]))
                && (FindYear(lines[i]).Some? || |Accumulated(rule, lines, i).current| > 2)
    {
      var i :| 0 <= i < |lines| && OpenedAt(rule, lines, i) && groups[k][0] == rule.head(lines[i]);
      assert OpensEducation(h, lines[i], |Accumulated(rule, lines, i).current|);
    }
  }

  /** The school falls back to the cleaned first line, the field to the
      `major|concentration|in` pattern; the GPA is always present (`''` when none is found);
      and the entry is `present` exactly when its range is open. */
  lemma EducationEntryDescribed(h: Heuristics, lines: seq<string>)
    requires lines != []
    ensures var e, fullText := ParseEducationEntry(h, lines), Join(lines, " ");
      (h.school(fullText) != "" ==> e.school == h.school(fullText))
      && (h.school(fullText) == "" ==> e.school == CleanFieldValue(lines[0], TextField))
      && e.degree == h.degree(fullText).0
      && (h.degree(fullText).1 != "" ==> e.field == h.degree(fullText).1)
      && (h.degree(fullText).1 == "" && h.fieldOnly(fullText).None? ==> e.field == "")
      && e.gpa.Some? && e.dates == ExtractDateRange(fullText)
      && (e.present <==> e.dates.endYear == "Present")
  {
  }

  /** The GPA comes from the labelled form when there is one, and otherwise from the
      `/ 4.0` form. */
  lemma GpaPrefersLabel(fullText: string)
    ensures Search(GpaLabelled, fullText).Some? ==> Gpa(fullText) == GroupOr(fullText, Search(GpaLabelled, fullText).value, 1)
    ensures Search(GpaLabelled, fullText).None? && Search(GpaOutOfFour, fullText).None? ==> Gpa(fullText) == ""
  {
  }

  /** The description lines: those `DescribesStudy` keeps. */
  function StudyLines(school: string, lines: seq<string>): (r: seq<string>)
    ensures forall k :: 0 <= k < |r| ==> |r[k]| > 15 && !Contains(school, r[k][..10])
  {
    Select(lines, l => DescribesStudy(school, l))
  }

  /** The description lines are the long lines not named by the school, in order. */
  lemma StudyLinesDescribed(school: string, lines: seq<string>)
    ensures IsSubsequence(StudyLines(school, lines), lines)
    ensures forall k :: 0 <= k < |lines| && DescribesStudy(school, lines[k]) ==> lines[k] in StudyLines(school, lines)
  {
    SelectDescribed(lines, l => DescribesStudy(school, l));
  }

  /** There is one entry per group, in order: the k-th is its group parsed, with identifier
      `ids(next + k)`. */
  lemma EducationNumbered(h: Heuristics, lines: seq<string>, ids: IdSupply, next: nat)
    ensures |EducationOf(h, lines, ids, next)| == |EducationGroups(h, lines)|
    ensures forall k :: 0 <= k < |EducationGroups(h, lines)| ==>
      EducationOf(h, lines, ids, next)[k] == ParseEducationEntry(h, EducationGroups(h, lines)[k]).(id := ids(next + k))
  {
    ParsedAt(EducationGroups(h, lines), g => ParseEducationEntry(h, g), WithId, ids, next);
  }
}
