/** Grants (`extractGrants`): one record per entry whose first line leaves a title. */
module Grants {
  import opened Text
  import opened Regex
  import opened Storage
  import opened Dates
  import opened Fields
  import opened Lists
  import opened Entries
  import opened Extract

  /** `[\d,]`. */
  const DigitOrComma: Re := Set([('0', '9')], ",", false)

  /** `/\$[\d,]+(?:\.\d{2})?|\d+[kK]/`: a dollar amount or a number of thousands. */
  const AmountPattern: Pattern :=
    Sensitive(Alt(
      Seqs([Chr('$'), Plus(DigitOrComma), Opt(Seqs([Chr('.'), Rep(Digit, 2, 2)]))]),
      Seqs([Plus(Digit), Chars("kK")])))

  /** `/(?:from|by|funded by)\s+([^,\n]+)/i`: the funder after its introducing word. */
  const FunderPattern: Pattern :=
    Insensitive(Seqs([Words(["from", "by", "funded by"]), Plus(Space), Group(1, Plus(NotChars(",\n")))]))

  /** `/\$[\d,]+/`: the first dollar figure, removed from the title line. */
  const DollarFigure: Pattern := Sensitive(Seqs([Chr('$'), Plus(DigitOrComma)]))

  /** The title: the first line without its first dollar figure and without everything from
      its first year on, cleaned. */
  function GrantTitle(firstLine: string): string
  {
    CleanFieldValue(CutYearTail(ReplaceFirstMatch(DollarFigure, firstLine, Const(""))), TextField)
  }

  /** The funder: group 1 of the funder pattern, cleaned, or `''`. */
  function Funder(fullText: string): string
  {
    match Search(FunderPattern, fullText)
    case Some(m) => CleanFieldValue(GroupOr(fullText, m, 1), TextField)
    case None => ""
  }

  /** The amount: the text of the first amount match, or `''`. */
  function Amount(fullText: string): string
  {
    match FirstText(AmountPattern, fullText)
    case Some(t) => t
    case None => ""
  }

  /** The record an entry yields (its `id` is set when it is pushed), or `None` when the
      title is empty. The empty entry, which entry grouping never yields, gives `None`. */
  function Draft(entry: seq<string>): (r: Option<Grant>)
  {
    if entry == [] then None
    else
      var fullText := Join(entry, " ");
      var title := GrantTitle(entry[0]);
      if title == "" then None
      else Some(Grant("", title, Funder(fullText), Amount(fullText), ExtractDateRange(fullText), ""))
  }

  function WithId(g: Grant, id: string): Grant
  {
    g.(id := id)
  }

  /** `extractGrants`: the entries of the lines, each turned into a record, the records
      numbered from `next` on. */
  function ExtractGrants(lines: seq<string>, ids: IdSupply, next: nat): seq<Grant>
  {
    Records(EntriesOf(lines), Draft, WithId, ids, next)
  }

  /** A grant is kept exactly when its title is not empty, and then carries that title, the
      dates of its whole text and an empty description. */
  lemma DraftKeptIff(entry: seq<string>)
    requires entry != []
    ensures Draft(entry).Some? <==> GrantTitle(entry[0]) != ""
    ensures Draft(entry).Some? ==>
      Draft(entry).value.title == GrantTitle(entry[0])
      && Draft(entry).value.dates == ExtractDateRange(Join(entry, " "))
      && Draft(entry).value.description == ""
  {
  }

  /** Without an amount or a funder in the text, those fields are empty. */
  lemma NoAmountNoFunder(entry: seq<string>)
    requires Draft(entry).Some?
    ensures Search(AmountPattern, Join(entry, " ")).None? ==> Draft(entry).value.amount == ""
    ensures Search(FunderPattern, Join(entry, " ")).None? ==> Draft(entry).value.funder == ""
  {
  }

  /** Every grant has a title and an empty description, and the k-th takes identifier
      `ids(next + k)`; there is at most one grant per entry. */
  lemma GrantsDescribed(lines: seq<string>, ids: IdSupply, next: nat)
    ensures |ExtractGrants(lines, ids, next)| <= |EntriesOf(lines)|
    ensures forall k :: 0 <= k < |ExtractGrants(lines, ids, next)| ==>
      var g := ExtractGrants(lines, ids, next)[k];
      g.id == ids(next + k) && g.title != "" && g.description == ""
  {
    RecordsFrom(EntriesOf(lines), Draft, WithId, ids, next);
  }
}
