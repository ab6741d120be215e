/** Conferences (`extractConferences`): one record per line of ten or more characters that
    leaves a title. */
module Conferences {
  import opened Text
  import opened Regex
  import opened Storage
  import opened Dates
  import opened Fields
  import opened Extract

  /** `/(?:at|,)\s+([A-Z][^\d,]+)/`: the conference name after `at` or a comma. */
  const ConferencePattern: Pattern :=
    Sensitive(Seqs([Alt(Lit("at"), Chr(',')), Plus(Space), Group(1, Seqs([UpperCh, Plus(NotChars("0123456789,"))]))]))

  /** The title: the line without its stand-alone years and then without its bullet,
      cleaned. */
  function ConferenceTitle(line: string): string
  {
    CleanFieldValue(StripBullet(DropYears(line)), TextField)
  }

  /** The conference name: group 1 of the pattern, cleaned, or `''`. */
  function ConferenceName(line: string): string
  {
    match Search(ConferencePattern, line)
    case Some(m) => CleanFieldValue(GroupOr(line, m, 1), TextField)
    case None => ""
  }

  /** The record a line yields (its `id` is set when it is pushed), or `None` when the line
      is shorter than 10 characters or its title is empty. */
  function Draft(line: string): (r: Option<Conference>)
  {
    if |line| < 10 then None
    else
      var title := ConferenceTitle(line);
      if title == "" then None
      else Some(Conference("", title, ConferenceName(line), Location(line), DateText(ParseMonthYear(line)), ""))
  }

  function WithId(c: Conference, id: string): Conference
  {
    c.(id := id)
  }

  /** `extractConferences`: each line turned into a record, the records numbered from
      `next` on. */
  function ExtractConferences(lines: seq<string>, ids: IdSupply, next: nat): seq<Conference>
  {
    Records(lines, Draft, WithId, ids, next)
  }

  /** A line is kept exactly when it has at least 10 characters and a title, and its record
      carries that title, the line's date and an empty description. */
  lemma DraftKeptIff(line: string)
    ensures Draft(line).Some? <==> |line| >= 10 && ConferenceTitle(line) != ""
    ensures Draft(line).Some? ==>
      Draft(line).value.title == ConferenceTitle(line)
      && Draft(line).value.date == DateText(ParseMonthYear(line))
      && Draft(line).value.description == ""
  {
  }

  /** Every conference comes from a line of at least 10 characters, has a title and an empty
      description, and the k-th takes identifier `ids(next + k)`. */
  lemma ConferencesDescribed(lines: seq<string>, ids: IdSupply, next: nat)
    ensures |ExtractConferences(lines, ids, next)| <= |lines|
    ensures forall k :: 0 <= k < |ExtractConferences(lines, ids, next)| ==>
      var c := ExtractConferences(lines, ids, next)[k];
      c.id == ids(next + k) && c.title != "" && c.description == ""
      && exists j :: 0 <= j < |lines| && |lines[j]| >= 10 && c.title == ConferenceTitle(lines[j])
  {
    var r := ExtractConferences(lines, ids, next);
    RecordsFrom(lines, Draft, WithId, ids, next);
    forall k | 0 <= k < |r|
      ensures r[k].id == ids(next + k) && r[k].title != "" && r[k].description == ""
        && exists j :: 0 <= j < |lines| && |lines[j]| >= 10 && r[k].title == ConferenceTitle(lines[j])
    {
      var j :| 0 <= j < |lines| && Draft(lines[j]).Some? && r[k] == WithId(Draft(lines[j]).value, ids(next + k));
      DraftKeptIff(lines[j]);
    }
  }
}
