/** Publications (`extractPublications`, `parsePublication`): lines of five or more
    characters are read in order; a line that looks like the start of a reference (a number,
    a bracketed number, `Last, I.`, `First Last and`, a bullet or an asterisk) opens a new
    one once the current one has a line, and a reference whose text is longer than 20
    characters is parsed. */
module Publications {
  import opened Text
  import opened Regex
  import opened Storage
  import opened Dates
  import opened Normalize
  import opened Lists
  import opened Entries
  import opened Extract
  import opened Accumulate
  import opened Authors

  /** The patterns of `isNewEntry`, in the order they are tried. */
  const NewEntryPatterns: seq<Pattern> := [
    // `/^\d+[.\)]\s/`
    Sensitive(Seqs([InputStart, Plus(Digit), Chars(".)"), Space])),
    // `/^\[\d+\]\s/`
    Sensitive(Seqs([InputStart, Chr('['), Plus(Digit), Chr(']'), Space])),
    // `/^[A-Z][a-z]+,\s+[A-Z]\./`
    Sensitive(Seqs([InputStart, UpperCh, Plus(LowerCh), Chr(','), Plus(Space), UpperCh, Chr('.')])),
    // `/^[A-Z][a-z]+\s+[A-Z][a-z]+\s+and\s+/i`
    Insensitive(Seqs([InputStart, UpperCh, Plus(LowerCh), Plus(Space), UpperCh, Plus(LowerCh), Plus(Space),
      Lit("and"), Plus(Space)])),
    // `/^•\s+/`
    Sensitive(Seqs([InputStart, Chr('•'), Plus(Space)])),
    // `/^\*\s+/`
    Sensitive(Seqs([InputStart, Chr('*'), Plus(Space)]))]

  /** `isNewEntry`: one of the patterns matches the line. */
  predicate IsNewEntry(line: string)
  {
    exists k :: 0 <= k < |NewEntryPatterns| && Test(NewEntryPatterns[k], line)
  }

  /** `!line || line.length < 5`: the lines the loop passes over. */
  predicate TooShort(line: string)
  {
    |line| < 5
  }

  /** A new-entry line opens a reference once the current one has a line. */
  predicate OpensPublication(line: string, size: nat)
  {
    IsNewEntry(line) && size > 0
  }

  /** The characters of `[\d\[\].\)*•\s]`. */
  predicate IsNumberingChar(c: char)
  {
    IsDigit(c) || c == '[' || c == ']' || c == '.' || c == ')' || c == '*' || c == '•' || IsSpace(c)
  }

  /** `replace(/^[\d\[\].\)*•\s]+/, '')`: the leading run of numbering characters removed. */
  function StripNumbering(line: string): (r: string)
    ensures |r| <= |line|
  {
    if line != [] && IsNumberingChar(line[0]) then StripNumbering(line[1..]) else line
  }

  /** What is removed is the longest prefix made of numbering characters: the rest is a
      suffix of the line that does not start with one. */
  lemma {:induction false} StripNumberingDescribed(line: string)
    ensures var r := StripNumbering(line);
      r == line[|line| - |r|..]
      && (forall k :: 0 <= k < |line| - |r| ==> IsNumberingChar(line[k]))
      && (r != [] ==> !IsNumberingChar(r[0]))
  {
    if line != [] && IsNumberingChar(line[0]) {
      var r := StripNumbering(line[1..]);
      StripNumberingDescribed(line[1..]);
      assert line[1..][|line| - 1 - |r|..] == line[|line| - |r|..];
      assert forall k :: 1 <= k < |line| - |r| ==> line[k] == line[1..][k - 1];
    }
  }

  const PublicationRule: Rule := Rule(TooShort, OpensPublication, StripNumbering)

  /** `pubText.length > 20`, where the text is the lines joined with spaces. */
  predicate LongEnough(group: seq<string>)
  {
    |Join(group, " ")| > 20
  }

  /** `/https?:\/\/[^\s\]]+|doi[:\s]+10\.[^\s]+/i`. */
  const UrlPattern: Pattern :=
    Insensitive(Alt(
      Seqs([Lit("http"), Opt(Chr('s')), Lit("://"), Plus(Set(SpaceRanges, "]", true))]),
      Seqs([Lit("doi"), Plus(Set(SpaceRanges, ":", false)), Lit("10."), Plus(Regex.NonSpace)])))

  /** The URL or DOI: the first match without its trailing periods, commas and semicolons,
      or `''`. */
  function Url(cleaned: string): string
  {
    match Search(UrlPattern, cleaned)
    case Some(m) => DropTrailing(MatchText(cleaned, m), ".,;")
    case None => ""
  }

  /** `parsePublication` (the `id` is set when the reference is pushed). */
  function ParsePublication(h: Heuristics, text: string): Publication
  {
    var cleaned := NormalizeText(text);
    var authors := h.pubAuthors(cleaned);
    Publication("", OrElse(h.pubTitle(cleaned, authors), Take(cleaned, 100)), authors, AuthorsList(authors),
      h.pubJournal(cleaned), DateText(ParseMonthYear(cleaned)), Url(cleaned), "")
  }

  /** A reference's lines are joined with spaces before they are parsed. */
  function ParseGroup(h: Heuristics, group: seq<string>): Publication
  {
    ParsePublication(h, Join(group, " "))
  }

  function WithId(p: Publication, id: string): Publication
  {
    p.(id := id)
  }

  /** The lines of each reference, in order. */
  function PublicationGroups(lines: seq<string>): seq<seq<string>>
  {
    Groups(PublicationRule, lines)
  }

  /** The references whose text is longer than 20 characters. */
  function KeptReferences(lines: seq<string>): seq<seq<string>>
  {
    KeptGroups(PublicationRule, lines, LongEnough)
  }

  /** What `extractPublications` returns: one publication per kept reference, numbered from
      `next` on. */
  function PublicationsOf(h: Heuristics, lines: seq<string>, ids: IdSupply, next: nat): seq<Publication>
  {
    Parsed(KeptReferences(lines), g => ParseGroup(h, g), WithId, ids, next)
  }

  /** `extractPublications`: the accumulator loop under the publication rule, the references
      longer than 20 characters parsed. */
  method ExtractPublications(h: Heuristics, lines: seq<string>, ids: IdSupply, next: nat)
    returns (publications: seq<Publication>)
    ensures publications == PublicationsOf(h, lines, ids, next)
  {
    if |lines| == 0 {
      return [];
    }
    publications := Collect(PublicationRule, lines, LongEnough, g => ParseGroup(h, g), WithId, ids, next);
  }

  /** The references' lines are exactly the lines of five or more characters, in order,
      each whole or with its numbering removed, and every reference has a line. */
  lemma PublicationLines(lines: seq<string>)
    ensures HeadsOf(PublicationRule, Flatten(PublicationGroups(lines)), Retained(PublicationRule, lines))
    ensures IsSubsequence(Retained(PublicationRule, lines), lines)
    ensures forall k :: 0 <= k < |Retained(PublicationRule, lines)| ==> |Retained(PublicationRule, lines)[k]| >= 5
    ensures forall k :: 0 <= k < |lines| && |lines[k]| >= 5 ==> lines[k] in Retained(PublicationRule, lines)
    ensures forall k :: 0 <= k < |PublicationGroups(lines)| ==> PublicationGroups(lines)[k] != []
  {
    GroupsDescribed(PublicationRule, lines);
    RetainedDescribed(PublicationRule, lines);
  }

  /** A numbered or quoted line of five or more characters that follows a group with lines
      closes it and starts the next group, without its numbering. */
  lemma OpenersStartGroups(lines: seq<string>)
    ensures forall i ::
              (0 <= i < |lines| && |lines[i]| >= 5 && IsNewEntry(lines[i])
              && Accumulated(PublicationRule, lines, i).current != [])
              ==> 1 <= |Close(Accumulated(PublicationRule, lines, i))| < |PublicationGroups(lines)|
                  && PublicationGroups(lines)[|Close(Accumulated(PublicationRule, lines, i))|][0] == StripNumbering(lines[i])
  {
    var groups := PublicationGroups(lines);
    forall i | 0 <= i < |lines| && |lines[i]| >= 5 && IsNewEntry(lines[i]) && Accumulated(PublicationRule, lines, i).current != []
      ensures 1 <= |Close(Accumulated(PublicationRule, lines, i))| < |groups|
      ensures groups[|Close(Accumulated(PublicationRule, lines, i))|][0] == StripNumbering(lines[i])
    {
      assert OpenedAt(PublicationRule, lines, i);
      OpenerStartsGroup(PublicationRule, lines, i);
    }
  }

  /** Every reference after the first starts with a line of five or more characters that
      `isNewEntry` accepts, its numbering removed; and every such line that follows a
      reference with lines closes it and starts the next. */
  lemma PublicationOpeners(lines: seq<string>)
    ensures forall k :: 1 <= k < |PublicationGroups(lines)| ==>
      exists i :: 0 <= i < |lines| && |lines[i]| >= 5 && IsNewEntry(lines[i])
        && PublicationGroups(lines)[k][0] == StripNumbering(lines[i])
  {
    var groups := PublicationGroups(lines);
    GroupsDescribed(PublicationRule, lines);
    forall k | 1 <= k < |groups|
      ensures exists i :: 0 <= i < |lines| && |lines[i]| >= 5 && IsNewEntry(lines[i])
                && groups[k][0] == StripNumbering(lines[i])
    {
      var i :| 0 <= i < |lines| && OpenedAt(PublicationRule, lines, i) && groups[k][0] == StripNumbering(lines[i]);
    }
  }

  /** The references parsed are those longer than 20 characters, in order: each one kept is
      long enough, and each long enough is kept. */
  lemma ReferencesKept(lines: seq<string>)
    ensures IsSubsequence(KeptReferences(lines), PublicationGroups(lines))
    ensures forall k :: 0 <= k < |KeptReferences(lines)| ==> |Join(KeptReferences(lines)[k], " ")| > 20
    ensures forall k :: 0 <= k < |PublicationGroups(lines)| && LongEnough(PublicationGroups(lines)[k]) ==>
      PublicationGroups(lines)[k] in KeptReferences(lines)
  {
    SelectDescribed(PublicationGroups(lines), LongEnough);
  }

  /** The title found, or else the first 100 characters of the normalised text; the author
      list read from the author block; the URL free of trailing punctuation; the date of the
      normalised text; an empty description. */
  lemma PublicationDescribed(h: Heuristics, text: string)
    ensures var p, cleaned := ParsePublication(h, text), NormalizeText(text);
      var authors := h.pubAuthors(cleaned);
      (h.pubTitle(cleaned, authors) != "" ==> p.title == h.pubTitle(cleaned, authors))
      && (h.pubTitle(cleaned, authors) == "" ==> p.title == cleaned[..if |cleaned| < 100 then |cleaned| else 100])
      && p.authors == authors && p.authorsList == AuthorsList(authors)
      && p.date == DateText(ParseMonthYear(cleaned))
      && (p.url == [] || p.url[|p.url| - 1] !in ".,;")
      && p.description == ""
  {
    var cleaned := NormalizeText(text);
    var t := Take(cleaned, 100);
    assert |t| == if |cleaned| < 100 then |cleaned| else 100;
  }

  /** The URL is a prefix of the first URL or DOI match, and `''` when there is none. */
  lemma UrlFromMatch(cleaned: string)
    ensures Search(UrlPattern, cleaned).None? ==> Url(cleaned) == ""
    ensures Search(UrlPattern, cleaned).Some? ==>
      var t := MatchText(cleaned, Search(UrlPattern, cleaned).value);
      Url(cleaned) == t[..|Url(cleaned)|]
      && forall k :: |Url(cleaned)| <= k < |t| ==> t[k] in ".,;"
  {
  }

  /** There is one publication per kept reference, in order: the k-th is its lines joined
      and parsed, with identifier `ids(next + k)`. */
  lemma PublicationsNumbered(h: Heuristics, lines: seq<string>, ids: IdSupply, next: nat)
    ensures |PublicationsOf(h, lines, ids, next)| == |KeptReferences(lines)|
    ensures forall k :: 0 <= k < |KeptReferences(lines)| ==>
      PublicationsOf(h, lines, ids, next)[k] == ParsePublication(h, Join(KeptReferences(lines)[k], " ")).(id := ids(next + k))
  {
    ParsedAt(KeptReferences(lines), g => ParseGroup(h, g), WithId, ids, next);
  }
}
