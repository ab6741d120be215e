/** Work experience (`extractWorkExperience`): one record per entry that yields a title or
    a company. */
module Work {
  import opened Text
  import opened Regex
  import opened Storage
  import opened Dates
  import opened Fields
  import opened Lists
  import opened Entries
  import opened Extract

  /** The first-line split patterns, in the order they are tried: `/\s+at\s+/i`,
      `/\s+@\s+/`, `/\s*[|–—]\s*\/` and `/,\s+(?=[A-Z])/`. */
  const SplitPatterns: seq<Pattern> := [
    Insensitive(Seqs([Plus(Space), Lit("at"), Plus(Space)])),
    Sensitive(Seqs([Plus(Space), Chr('@'), Plus(Space)])),
    Sensitive(Seqs([Star(Space), Chars("|\U{2013}\U{2014}"), Star(Space)])),
    Sensitive(Seqs([Chr(','), Plus(Space), Lookahead(UpperCh, true)]))]

  /** The split loop from pattern `k` on: the first pattern that cuts the first line in two
      or more parts fills whichever of title and company is still empty, from the first
      part and from the second part up to its first comma. */
  function SplitAttempt(firstLine: string, title: string, company: string, k: nat): (r: (string, string))
    decreases |SplitPatterns| - k
    ensures title != "" ==> r.0 == title
    ensures company != "" ==> r.1 == company
  {
    if k >= |SplitPatterns| then (title, company)
    else
      var parts := Split(SplitPatterns[k], firstLine);
      if |parts| >= 2 then
        (if title == "" then CleanFieldValue(Trim(parts[0]), TextField) else title,
         if company == "" then CleanFieldValue(Trim(SplitOn(parts[1], ',')[0]), TextField) else company)
      else SplitAttempt(firstLine, title, company, k + 1)
  }

  /** With no company yet, the second line (cut at its first year, trimmed) is given to
      `detectCompany`, and failing that, when 4 to 79 characters long, its text up to the
      first comma is taken. */
  function SecondLineCompany(h: Heuristics, entry: seq<string>, company: string): (r: string)
    ensures company != "" ==> r == company
    ensures |entry| < 2 ==> r == company
  {
    if company != "" || |entry| < 2 || entry[1] == "" then company
    else
      var line2 := Trim(CutYearTail(entry[1]));
      var c := h.detectCompany(line2);
      if c == "" && 3 < |line2| < 80 then CleanFieldValue(SplitOn(line2, ',')[0], TextField) else c
  }

  predicate IsTitleSep(c: char)
  {
    c == ',' || c == '|' || c == '\U{2013}' || c == '\U{2014}'
  }

  /** With no title yet, a first line longer than 3 characters gives one: its text up to the
      first `,`, `|`, `–` or `—`. */
  function FirstLineTitle(firstLine: string, title: string): (r: string)
    ensures title != "" || |firstLine| <= 3 ==> r == title
  {
    if title == "" && |firstLine| > 3 then CleanFieldValue(Trim(SplitWhere(firstLine, IsTitleSep)[0]), TextField)
    else title
  }

  /** The title and company of an entry, before the placeholders: the detectors on the whole
      entry first, then the split of the first line, then the second line for the company
      and the first line for the title. */
  function TitleAndCompany(h: Heuristics, entry: seq<string>): (r: (string, string))
    requires entry != []
  {
    var fullText := Join(entry, " ");
    var firstLine := OpeningLine(entry[0]);
    var company := h.detectCompany(fullText);
    var title := h.detectTitle(fullText);
    var split := if title == "" || company == "" then SplitAttempt(firstLine, title, company, 0) else (title, company);
    (FirstLineTitle(firstLine, split.0), SecondLineCompany(h, entry, split.1))
  }

  /** The description filter as written: a line is kept when it is longer than 15
      characters, does not contain the first 10 characters of the company, does not start
      with a year and holds no title. */
  predicate Describes(h: Heuristics, company: string, l: string)
  {
    |l| > 15 && !Contains(l, Take(company, 10)) && !StartsWithYear(l) && h.detectTitle(l) == ""
  }

  /** Every string contains the empty string, so with no company found the filter as
      written drops every line. */
  lemma NoCompanyNoDescription(h: Heuristics, lines: seq<string>)
    ensures Select(lines, l => Describes(h, "", l)) == []
  {
    var keep := l => Describes(h, "", l);
    forall k | 0 <= k < |lines| ensures !keep(lines[k]) {
      assert Take("", 10) == "";
      assert OccursAt(lines[k], "", 0);
      OccursContains(lines[k], "", 0);
    }
    SelectNone(lines, keep);
  }

  /** The filter as evidently intended: the company test applied only when there is a
      company. */
  predicate DescribesIntended(h: Heuristics, company: string, l: string)
  {
    |l| > 15 && (company == "" || !Contains(l, Take(company, 10))) && !StartsWithYear(l) && h.detectTitle(l) == ""
  }

  /** With no company, every line after the first that is long enough, does not start with
      a year and holds no title is kept. */
  lemma NoCompanyKeepsLines(h: Heuristics, lines: seq<string>)
    ensures forall k :: 0 <= k < |lines| ==>
      (|lines[k]| > 15 && !StartsWithYear(lines[k]) && h.detectTitle(lines[k]) == ""
       ==> lines[k] in Select(lines, l => DescribesIntended(h, "", l)))
  {
    SelectDescribed(lines, l => DescribesIntended(h, "", l));
  }

  /** The record an entry yields (its `id` is set when it is pushed), or `None` when the
      entry is empty or yields neither a title nor a company. */
  function Draft(h: Heuristics, entry: seq<string>): (r: Option<WorkExperience>)
  {
    if entry == [] then None
    else
      var fullText := Join(entry, " ");
      var dates := ExtractDateRange(fullText);
      var (title, company) := TitleAndCompany(h, entry);
      if title == "" && company == "" then None
      else
        var description := Bulleted(Select(entry[1..], l => Describes(h, company, l)));
        Some(WorkExperience("", OrElse(title, "Position"), OrElse(company, "Company"),
          Location(fullText), dates, description, dates.endYear == "Present"))
  }

  function WithId(w: WorkExperience, id: string): WorkExperience
  {
    w.(id := id)
  }

  /** `extractWorkExperience`: the entries of the lines, each turned into a record, the
      records numbered from `next` on. */
  function ExtractWorkExperience(h: Heuristics, lines: seq<string>, ids: IdSupply, next: nat): (r: seq<WorkExperience>)
  {
    Records(EntriesOf(lines), e => Draft(h, e), WithId, ids, next)
  }

  /** A record is dropped exactly when its entry yields neither title nor company. */
  lemma DraftKeptIff(h: Heuristics, entry: seq<string>)
    requires entry != []
    ensures Draft(h, entry).None? <==> TitleAndCompany(h, entry) == ("", "")
  {
  }

  /** A kept record has a title and a company: the placeholders `Position` and `Company`
      stand in for the missing one. */
  lemma DraftNamed(h: Heuristics, entry: seq<string>)
    requires Draft(h, entry).Some?
    ensures Draft(h, entry).value.title != "" && Draft(h, entry).value.company != ""
    ensures TitleAndCompany(h, entry).0 == "" ==> Draft(h, entry).value.title == "Position"
    ensures TitleAndCompany(h, entry).1 == "" ==> Draft(h, entry).value.company == "Company"
  {
  }

  /** A kept record carries the dates of its whole text, is `present` exactly when the range
      is open (and then has no end month), and has an empty or bulleted description. */
  lemma DraftDated(h: Heuristics, entry: seq<string>)
    requires Draft(h, entry).Some?
    ensures var w := Draft(h, entry).value;
      w.dates == ExtractDateRange(Join(entry, " "))
      && (w.present <==> w.dates.endYear == "Present")
      && (w.present ==> w.dates.endMonth == "")
      && (w.description == "" || StartsWith(w.description, "• "))
  {
  }

  /** A record whose entry yields no company stands in `Company` for it and, as written,
      has no description, however many lines the entry has. */
  lemma DraftWithoutCompany(h: Heuristics, entry: seq<string>)
    requires Draft(h, entry).Some? && TitleAndCompany(h, entry).1 == ""
    ensures Draft(h, entry).value.company == "Company"
    ensures Draft(h, entry).value.description == ""
  {
    NoCompanyNoDescription(h, entry[1..]);
  }

  /** What the detectors find on the whole entry is never overridden. */
  lemma DetectorsWin(h: Heuristics, entry: seq<string>)
    requires entry != []
    ensures var fullText := Join(entry, " ");
      (h.detectTitle(fullText) != "" ==> TitleAndCompany(h, entry).0 == h.detectTitle(fullText))
      && (h.detectCompany(fullText) != "" ==> TitleAndCompany(h, entry).1 == h.detectCompany(fullText))
  {
  }

  /** Every record carries a title and a company, and the k-th takes identifier
      `ids(next + k)`; there is at most one record per entry. */
  lemma WorkDescribed(h: Heuristics, lines: seq<string>, ids: IdSupply, next: nat)
    ensures |ExtractWorkExperience(h, lines, ids, next)| <= |EntriesOf(lines)|
    ensures forall k :: 0 <= k < |ExtractWorkExperience(h, lines, ids, next)| ==>
      var w := ExtractWorkExperience(h, lines, ids, next)[k];
      w.id == ids(next + k) && w.title != "" && w.company != ""
  {
    var draft := e => Draft(h, e);
    RecordsFrom(EntriesOf(lines), draft, WithId, ids, next);
    forall e | draft(e).Some? ensures draft(e).value.title != "" && draft(e).value.company != "" {
      DraftNamed(h, e);
    }
  }
}
