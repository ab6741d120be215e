/** Teaching experience (`extractTeaching`): one record per entry that names a course. */
module Teaching {
  import opened Text
  import opened Regex
  import opened Storage
  import opened Dates
  import opened Fields
  import opened Lists
  import opened Entries
  import opened Extract

  /** `/(instructor|ta|teaching assistant|lecturer|professor|adjunct|graduate assistant)/i`.
      The pattern has no word boundaries, so `ta` is also found inside words. */
  const RolePattern: Pattern :=
    Insensitive(Group(1, Words(["instructor", "ta", "teaching assistant", "lecturer", "professor",
      "adjunct", "graduate assistant"])))

  /** `/"([^"]+)"|([A-Z]{2,4}\s*\d{3,4})/`: a quoted name or a course code. */
  const CoursePattern: Pattern :=
    Sensitive(Alt(
      Seqs([Chr('"'), Group(1, Plus(NotChars("\""))), Chr('"')]),
      Group(2, Seqs([Rep(UpperCh, 2, 4), Star(Space), Rep(Digit, 3, 4)]))))

  /** `[A-Z][a-z]+(?:\s+[A-Z][a-z]+)*`: capitalised words. */
  const CapitalWords: Re := Seqs([UpperCh, Plus(LowerCh), Star(Seqs([Plus(Space), UpperCh, Plus(LowerCh)]))])

  /** The institution patterns, in the order they are tried. */
  const SchoolPatterns: seq<Pattern> := [
    Insensitive(Seqs([Lit("University"), Plus(Space), Lit("of"), Plus(Space), UpperCh, Plus(NotChars("\n,"))])),
    Insensitive(Seqs([CapitalWords, Plus(Space), Lit("University")])),
    Insensitive(Seqs([CapitalWords, Plus(Space), Lit("College")])),
    Insensitive(Seqs([CapitalWords, Plus(Space), Lit("Institute")]))]

  /** The text of the first pattern from `k` on that matches, or `''`. */
  function FirstSchool(text: string, k: nat): (r: string)
    decreases |SchoolPatterns| - k
  {
    if k >= |SchoolPatterns| then ""
    else
      match FirstText(SchoolPatterns[k], text)
      case Some(t) => t
      case None => FirstSchool(text, k + 1)
  }

  /** The role: group 1 of the role pattern, or `''`. */
  function Role(fullText: string): string
  {
    match Search(RolePattern, fullText)
    case Some(m) => GroupOr(fullText, m, 1)
    case None => ""
  }

  /** The course: a quoted name or course code found in the text (`m[1] || m[2]`, not
      cleaned) and otherwise the first line up to its first year, cleaned. */
  function Course(entry: seq<string>): string
    requires entry != []
  {
    var fullText := Join(entry, " ");
    match Search(CoursePattern, fullText)
    case Some(m) => OrElse(GroupOr(fullText, m, 1), GroupOr(fullText, m, 2))
    case None => CleanFieldValue(CutYearTail(entry[0]), TextField)
  }

  /** `l.length > 10`: the lines that make the description. */
  predicate DescribesCourse(l: string)
  {
    |l| > 10
  }

  /** The record an entry yields (its `id` is set when it is pushed), or `None` when the
      course is empty. The empty entry, which entry grouping never yields, gives `None`. */
  function Draft(entry: seq<string>): (r: Option<TeachingExperience>)
  {
    if entry == [] then None
    else
      var fullText := Join(entry, " ");
      var course := Course(entry);
      if course == "" then None
      else
        Some(TeachingExperience("", course, FirstSchool(fullText, 0), Role(fullText),
          ExtractDateRange(fullText), NormalizedJoin(Select(entry[1..], DescribesCourse), "\n")))
  }

  function WithId(t: TeachingExperience, id: string): TeachingExperience
  {
    t.(id := id)
  }

  /** `extractTeaching`: the entries of the lines, each turned into a record, the records
      numbered from `next` on. */
  function ExtractTeaching(lines: seq<string>, ids: IdSupply, next: nat): seq<TeachingExperience>
  {
    Records(EntriesOf(lines), Draft, WithId, ids, next)
  }

  /** A record is kept exactly when it names a course, and then carries that course and the
      dates of its whole text. */
  lemma DraftKeptIff(entry: seq<string>)
    requires entry != []
    ensures Draft(entry).Some? <==> Course(entry) != ""
    ensures Draft(entry).Some? ==>
      Draft(entry).value.course == Course(entry)
      && Draft(entry).value.dates == ExtractDateRange(Join(entry, " "))
  {
  }

  /** A quoted name or course code in the text takes precedence over the first line. */
  lemma QuotedCourseWins(entry: seq<string>)
    requires entry != []
    requires Search(CoursePattern, Join(entry, " ")).Some?
    ensures var fullText := Join(entry, " ");
      var m := Search(CoursePattern, fullText).value;
      Course(entry) == OrElse(GroupOr(fullText, m, 1), GroupOr(fullText, m, 2))
  {
  }

  /** The institution is the match of the earliest school pattern that matches, and `''`
      when none does. */
  lemma {:induction false} FirstSchoolIsEarliest(text: string, k: nat)
    decreases |SchoolPatterns| - k
    ensures FirstSchool(text, k) != "" ==>
      exists j :: k <= j < |SchoolPatterns| && FirstText(SchoolPatterns[j], text) == Some(FirstSchool(text, k))
        && forall i :: k <= i < j ==> FirstText(SchoolPatterns[i], text).None?
    ensures (forall i :: k <= i < |SchoolPatterns| ==> FirstText(SchoolPatterns[i], text).None?) ==>
      FirstSchool(text, k) == ""
  {
    if k < |SchoolPatterns| {
      FirstSchoolIsEarliest(text, k + 1);
      if FirstText(SchoolPatterns[k], text).None? && FirstSchool(text, k) != "" {
        var j :| k + 1 <= j < |SchoolPatterns| && FirstText(SchoolPatterns[j], text) == Some(FirstSchool(text, k + 1))
          && forall i :: k + 1 <= i < j ==> FirstText(SchoolPatterns[i], text).None?;
        assert FirstText(SchoolPatterns[j], text) == Some(FirstSchool(text, k));
      }
    }
  }

  /** Every record names a course, and the k-th takes identifier `ids(next + k)`; there is
      at most one record per entry. */
  lemma TeachingDescribed(lines: seq<string>, ids: IdSupply, next: nat)
    ensures |ExtractTeaching(lines, ids, next)| <= |EntriesOf(lines)|
    ensures forall k :: 0 <= k < |ExtractTeaching(lines, ids, next)| ==>
      var t := ExtractTeaching(lines, ids, next)[k];
      t.id == ids(next + k) && t.course != ""
  {
    RecordsFrom(EntriesOf(lines), Draft, WithId, ids, next);
  }
}
