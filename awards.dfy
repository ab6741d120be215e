/** Awards (`extractAwards`, `parseAward`): a line that starts with a bullet or a year, or
    ends with a year, opens an award; the lines up to the next such line describe it. */
module Awards {
  import opened Text
  import opened Regex
  import opened Storage
  import opened Dates
  import opened Fields
  import opened Lists
  import opened Entries
  import opened Extract
  import opened Accumulate

  /** `/\d{4}$/.test(line)`. */
  predicate EndsWithYear(l: string)
  {
    |l| >= 4 && AllDigits(l[|l| - 4..])
  }

  /** `/^[•\-–]/`, `/^\d{4}/` or `/\d{4}$/`. */
  predicate IsAwardStart(line: string)
  {
    (line != [] && line[0] in "•-\U{2013}") || StartsWithYear(line) || EndsWithYear(line)
  }

  predicate NeverSkipped(line: string)
  {
    false
  }

  /** An award start opens a new award whatever the current one holds. */
  predicate OpensAward(line: string, size: nat)
  {
    IsAwardStart(line)
  }

  /** Every line is read; a start line opens an award with its bullet removed. */
  const AwardRule: Rule := Rule(NeverSkipped, OpensAward, StripBullet)

  /** The lines of each award, in order. */
  function AwardGroups(lines: seq<string>): (r: seq<seq<string>>)
    ensures forall k :: 0 <= k < |r| ==> r[k] != []
  {
    Groups(AwardRule, lines)
  }

  /** `/(?:from|by|,)\s+(.+?)(?:\d{4}|$)/i`: the issuer after `from`, `by` or a comma, up to
      a year or the end. */
  const IssuerPattern: Pattern :=
    Insensitive(Seqs([Alts([Lit("from"), Lit("by"), Chr(',')]), Plus(Space), Group(1, LazyPlus(Dot)),
      Alt(Rep(Digit, 4, 4), InputEnd)]))

  /** `replace(/[,\-–]$/, '')`: one trailing comma or dash removed. */
  function DropTrailingDash(s: string): (r: string)
    ensures |r| <= |s|
  {
    if s != [] && s[|s| - 1] in ",-\U{2013}" then s[..|s| - 1] else s
  }

  /** The title before the placeholder: the first line without its stand-alone years and a
      trailing comma or dash, cleaned. */
  function AwardTitle(first: string): string
  {
    CleanFieldValue(DropTrailingDash(DropYears(first)), TextField)
  }

  /** The issuer: group 1 of the issuer pattern, cleaned, or `''`. */
  function Issuer(fullText: string): string
  {
    match Search(IssuerPattern, fullText)
    case Some(m) => CleanFieldValue(GroupOr(fullText, m, 1), TextField)
    case None => ""
  }

  /** `parseAward` (the `id` is set when the award is pushed). The empty group, which the
      award rule never yields, reads as one empty line. */
  function ParseAward(group: seq<string>): (a: Award)
  {
    var fullText := Join(group, " ");
    var first, rest := if group == [] then "" else group[0], if group == [] then [] else group[1..];
    Award("", OrElse(AwardTitle(first), "Award"), Issuer(fullText),
      DateText(ParseMonthYear(fullText)), NormalizedJoin(rest, " "))
  }

  function WithId(a: Award, id: string): Award
  {
    a.(id := id)
  }

  /** What `extractAwards` returns: one award per group, numbered from `next` on. */
  function AwardsOf(lines: seq<string>, ids: IdSupply, next: nat): seq<Award>
  {
    Parsed(AwardGroups(lines), ParseAward, WithId, ids, next)
  }

  /** `extractAwards`: the accumulator loop under the award rule, every group parsed. */
  method ExtractAwards(lines: seq<string>, ids: IdSupply, next: nat) returns (awards: seq<Award>)
    ensures awards == AwardsOf(lines, ids, next)
  {
    awards := Collect(AwardRule, lines, KeepAll, ParseAward, WithId, ids, next);
    KeptAll(AwardRule, lines);
  }

  /** The awards' lines are all the lines in order, start lines without their bullet. */
  lemma AwardLines(lines: seq<string>)
    ensures |Flatten(AwardGroups(lines))| == |lines|
    ensures forall i :: 0 <= i < |lines| ==>
      Flatten(AwardGroups(lines))[i] == (if IsAwardStart(lines[i]) then StripBullet(lines[i]) else lines[i])
  {
    RetainedAll(AwardRule, lines);
    FlattenMarked(AwardRule, lines, |lines|);
    assert lines[..|lines|] == lines;
  }

  /** Every award after the first begins with a start line, without its bullet; and every
      start line closes the awards before it and begins the next. */
  lemma AwardOpeners(lines: seq<string>)
    ensures forall k :: 1 <= k < |AwardGroups(lines)| ==>
      exists i :: 0 <= i < |lines| && IsAwardStart(lines[i]) && AwardGroups(lines)[k][0] == StripBullet(lines[i])
    ensures forall i :: 0 <= i < |lines| && IsAwardStart(lines[i]) ==>
      |Close(Accumulated(AwardRule, lines, i))| < |AwardGroups(lines)|
      && AwardGroups(lines)[|Close(Accumulated(AwardRule, lines, i))|][0] == StripBullet(lines[i])
  {
    var groups := AwardGroups(lines);
    forall i | 0 <= i < |lines| && IsAwardStart(lines[i])
      ensures |Close(Accumulated(AwardRule, lines, i))| < |groups|
      ensures groups[|Close(Accumulated(AwardRule, lines, i))|][0] == StripBullet(lines[i])
    {
      assert OpenedAt(AwardRule, lines, i);
      OpenerStartsGroup(AwardRule, lines, i);
    }
    GroupsDescribed(AwardRule, lines);
    forall k | 1 <= k < |groups|
      ensures exists i :: 0 <= i < |lines| && IsAwardStart(lines[i]) && groups[k][0] == StripBullet(lines[i])
    {
      var i :| 0 <= i < |lines| && OpenedAt(AwardRule, lines, i) && groups[k][0] == StripBullet(lines[i]);
    }
  }

  /** Every award has a title (the placeholder `Award` when the cleaned first line is empty),
      the date read from its text and the normalised lines after the first as description. */
  lemma AwardDescribed(group: seq<string>)
    requires group != []
    ensures ParseAward(group).title != ""
    ensures AwardTitle(group[0]) == "" ==> ParseAward(group).title == "Award"
    ensures AwardTitle(group[0]) != "" ==> ParseAward(group).title == AwardTitle(group[0])
    ensures ParseAward(group).description == NormalizedJoin(group[1..], " ")
  {
  }

  /** There is one award per group, in order: the k-th is its group parsed, with identifier
      `ids(next + k)`. */
  lemma AwardsNumbered(lines: seq<string>, ids: IdSupply, next: nat)
    ensures |AwardsOf(lines, ids, next)| == |AwardGroups(lines)|
    ensures forall k :: 0 <= k < |AwardGroups(lines)| ==>
      AwardsOf(lines, ids, next)[k] == ParseAward(AwardGroups(lines)[k]).(id := ids(next + k))
  {
    ParsedAt(AwardGroups(lines), ParseAward, WithId, ids, next);
  }
}
