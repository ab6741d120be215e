/** Leadership experience (`extractLeadership`): one record per entry whose first line yields
    a role or an organization. */
module Leadership {
  import opened Text
  import opened Regex
  import opened Storage
  import opened Dates
  import opened Fields
  import opened Lists
  import opened Entries
  import opened Extract

  /** `/\s+[-–—,]\s+|\s+at\s+|\s+@\s+/i`: the cut between role and organization. */
  const RoleSplitter: Pattern :=
    Insensitive(Alts([
      Seqs([Plus(Space), Chars("-\U{2013}\U{2014},"), Plus(Space)]),
      Seqs([Plus(Space), Lit("at"), Plus(Space)]),
      Seqs([Plus(Space), Chr('@'), Plus(Space)])]))

  /** `parts[k]?.trim() || ''`. */
  function Part(parts: seq<string>, k: nat): (r: string)
    ensures k < |parts| ==> r == Trim(parts[k])
    ensures k >= |parts| ==> r == ""
  {
    if k < |parts| then Trim(parts[k]) else ""
  }

  /** The role and the organization: the first two pieces of the first line (without its
      year spans and `present`/`current`), cut at the splitter and cleaned. */
  function RoleAndOrganization(entry: seq<string>): (string, string)
    requires entry != []
  {
    var parts := Split(RoleSplitter, OpeningLine(entry[0]));
    (CleanFieldValue(Part(parts, 0), TextField), CleanFieldValue(Part(parts, 1), TextField))
  }

  /** `l.length > 10`: the lines that make the description. */
  predicate DescribesRole(l: string)
  {
    |l| > 10
  }

  /** The record an entry yields (its `id` is set when it is pushed), or `None` when the
      entry is empty or yields neither a role nor an organization. */
  function Draft(entry: seq<string>): (r: Option<LeadershipExperience>)
  {
    if entry == [] then None
    else
      var fullText := Join(entry, " ");
      var dates := ExtractDateRange(fullText);
      var (role, organization) := RoleAndOrganization(entry);
      if role == "" && organization == "" then None
      else
        Some(LeadershipExperience("", OrElse(role, "Role"), OrElse(organization, "Organization"),
          Location(fullText), dates, Bulleted(Select(entry[1..], DescribesRole)),
          dates.endYear == "Present"))
  }

  function WithId(x: LeadershipExperience, id: string): LeadershipExperience
  {
    x.(id := id)
  }

  /** `extractLeadership`: the entries of the lines, each turned into a record, the records
      numbered from `next` on. */
  function ExtractLeadership(lines: seq<string>, ids: IdSupply, next: nat): seq<LeadershipExperience>
  {
    Records(EntriesOf(lines), Draft, WithId, ids, next)
  }

  /** A record is dropped exactly when the first line yields neither role nor organization. */
  lemma DraftKeptIff(entry: seq<string>)
    requires entry != []
    ensures Draft(entry).None? <==> RoleAndOrganization(entry) == ("", "")
  {
  }

  /** A kept record has a role and an organization: the placeholders `Role` and
      `Organization` stand in for the missing one. */
  lemma DraftNamed(entry: seq<string>)
    requires Draft(entry).Some?
    ensures Draft(entry).value.role != "" && Draft(entry).value.organization != ""
    ensures RoleAndOrganization(entry).0 == "" ==> Draft(entry).value.role == "Role"
    ensures RoleAndOrganization(entry).1 == "" ==> Draft(entry).value.organization == "Organization"
  {
  }

  /** A kept record carries the dates of its whole text, is `present` exactly when the range
      is open, and has an empty or bulleted description. */
  lemma DraftDated(entry: seq<string>)
    requires Draft(entry).Some?
    ensures var x := Draft(entry).value;
      x.dates == ExtractDateRange(Join(entry, " "))
      && (x.present <==> x.dates.endYear == "Present")
      && (x.description == "" || StartsWith(x.description, "• "))
  {
  }

  /** A first line the splitter does not cut is all role: the organization is missing. */
  lemma UncutLineIsRole(entry: seq<string>)
    requires entry != []
    requires forall j :: 0 <= j <= |OpeningLine(entry[0])| ==> MatchAt(RoleSplitter, OpeningLine(entry[0]), j).None?
    ensures RoleAndOrganization(entry) == (CleanFieldValue(OpeningLine(entry[0]), TextField), "")
  {
    var line := OpeningLine(entry[0]);
    SplitNoMatch(RoleSplitter, line);
    TrimUnchanged(line);
    assert CleanFieldValue("", TextField) == "";
  }

  /** Every record carries a role and an organization, and the k-th takes identifier
      `ids(next + k)`; there is at most one record per entry. */
  lemma LeadershipDescribed(lines: seq<string>, ids: IdSupply, next: nat)
    ensures |ExtractLeadership(lines, ids, next)| <= |EntriesOf(lines)|
    ensures forall k :: 0 <= k < |ExtractLeadership(lines, ids, next)| ==>
      var x := ExtractLeadership(lines, ids, next)[k];
      x.id == ids(next + k) && x.role != "" && x.organization != ""
  {
    RecordsFrom(EntriesOf(lines), Draft, WithId, ids, next);
    forall e | Draft(e).Some? ensures Draft(e).value.role != "" && Draft(e).value.organization != "" {
      DraftNamed(e);
    }
  }
}
