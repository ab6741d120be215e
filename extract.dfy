/** What the entity extractors share: the pattern-heavy detectors, taken as given functions;
    identifiers drawn from a supply; and the small text steps several extractors repeat. */
module Extract {
  import opened Text
  import opened Regex
  import opened Storage
  import opened Dates
  import opened Normalize
  import opened Fields
  import opened Lists

  /** The detectors whose regular expressions are not modelled. Each stands for the named
      function or code block of the parser and returns what it returns. */
  datatype Heuristics = Heuristics(
    // `detectCompany`: a company name found in the text, or `''`.
    detectCompany: string -> string,
    // `detectTitle`: a job title found in the text, or `''`.
    detectTitle: string -> string,
    // `degreePatterns.some(p => p.test(line))`.
    hasDegree: string -> bool,
    // The school search of `parseEducationEntry` (famous names, then school keywords), or `''`.
    school: string -> string,
    // The degree search of `parseEducationEntry`: the cleaned degree and field, `''` if absent.
    degree: string -> (string, string),
    // The `major|concentration|in` field pattern: its group 1, if it matches.
    fieldOnly: string -> Option<string>,
    // The author block of `parsePublication` (already joined with `'; '`), or `''`.
    pubAuthors: string -> string,
    // The title search of `parsePublication`, given the text and the author block.
    pubTitle: (string, string) -> string,
    // The venue search of `parsePublication`, or `''`.
    pubJournal: string -> string)

  /** `ids(n)` is the identifier returned by the n-th call of `crypto.randomUUID`. */
  type IdSupply = nat -> string

  /** The assumption made about `randomUUID`: no identifier repeats. */
  ghost predicate Fresh(ids: IdSupply)
  {
    forall m: nat, n: nat :: m != n ==> ids(m) != ids(n)
  }

  /** The values present in `xs`, in order. */
  function Kept<T>(xs: seq<Option<T>>): (r: seq<T>)
    ensures |r| <= |xs|
  {
    if xs == [] then []
    else Kept(xs[..|xs| - 1]) + (match xs[|xs| - 1] case Some(v) => [v] case None => [])
  }

  /** Every kept value comes from an element of `xs`. */
  lemma {:induction false} KeptFrom<T>(xs: seq<Option<T>>)
    ensures forall k :: 0 <= k < |Kept(xs)| ==> Some(Kept(xs)[k]) in xs
  {
    if xs == [] {
      assert Kept(xs) == [];
    } else {
      var init := xs[..|xs| - 1];
      KeptFrom(init);
      forall k | 0 <= k < |Kept(xs)| ensures Some(Kept(xs)[k]) in xs {
        if k < |Kept(init)| {
          assert Kept(xs)[k] == Kept(init)[k];
          assert Some(Kept(init)[k]) in init;
        } else {
          assert xs[|xs| - 1] == Some(Kept(xs)[k]);
        }
      }
    }
  }

  /** When every element is `Some`, the values are kept whole. */
  lemma {:induction false} KeptAllSome<T>(xs: seq<Option<T>>, vs: seq<T>)
    requires |xs| == |vs|
    requires forall k :: 0 <= k < |xs| ==> xs[k] == Some(vs[k])
    ensures Kept(xs) == vs
  {
    if xs != [] {
      var n := |xs|;
      KeptAllSome(xs[..n - 1], vs[..n - 1]);
      assert vs == vs[..n - 1] + [vs[n - 1]];
    }
  }

  /** The values `f` yields for the elements of `xs`, in order. */
  function KeptMap<X, T>(xs: seq<X>, f: X -> Option<T>): (r: seq<T>)
    ensures |r| <= |xs|
  {
    Kept(seq(|xs|, k requires 0 <= k < |xs| => f(xs[k])))
  }

  lemma KeptMapSnoc<X, T>(xs: seq<X>, x: X, f: X -> Option<T>)
    ensures KeptMap(xs + [x], f) == KeptMap(xs, f) + (match f(x) case Some(v) => [v] case None => [])
  {
    var ys := seq(|xs| + 1, k requires 0 <= k < |xs| + 1 => f((xs + [x])[k]));
    assert ys[..|xs|] == seq(|xs|, k requires 0 <= k < |xs| => f(xs[k]));
  }

  /** Every value kept is what `f` yields for some element. */
  lemma KeptMapFrom<X, T>(xs: seq<X>, f: X -> Option<T>)
    ensures forall k :: 0 <= k < |KeptMap(xs, f)| ==> exists j :: 0 <= j < |xs| && f(xs[j]) == Some(KeptMap(xs, f)[k])
  {
    var ys := seq(|xs|, k requires 0 <= k < |xs| => f(xs[k]));
    KeptFrom(ys);
    forall k | 0 <= k < |KeptMap(xs, f)|
      ensures exists j :: 0 <= j < |xs| && f(xs[j]) == Some(KeptMap(xs, f)[k])
    {
      var j :| 0 <= j < |ys| && ys[j] == Some(Kept(ys)[k]);
      assert f(xs[j]) == Some(KeptMap(xs, f)[k]);
    }
  }

  /** When `f` yields a value for every element, those values are kept whole. */
  lemma KeptMapAll<X, T>(xs: seq<X>, f: X -> Option<T>, vs: seq<T>)
    requires |xs| == |vs|
    requires forall k :: 0 <= k < |xs| ==> f(xs[k]) == Some(vs[k])
    ensures KeptMap(xs, f) == vs
  {
    KeptAllSome(seq(|xs|, k requires 0 <= k < |xs| => f(xs[k])), vs);
  }

  /** Records given identifiers in the order they are pushed: the k-th takes `ids(next + k)`. */
  function Numbered<T>(drafts: seq<T>, withId: (T, string) -> T, ids: IdSupply, next: nat): (r: seq<T>)
    ensures |r| == |drafts|
  {
    seq(|drafts|, k requires 0 <= k < |drafts| => withId(drafts[k], ids(next + k)))
  }

  /** Each element parsed into a record, the records numbered from `next` on. */
  function Parsed<X, T>(xs: seq<X>, parse: X -> T, withId: (T, string) -> T, ids: IdSupply, next: nat): (r: seq<T>)
    ensures |r| == |xs|
  {
    if xs == [] then []
    else Parsed(xs[..|xs| - 1], parse, withId, ids, next) + [withId(parse(xs[|xs| - 1]), ids(next + |xs| - 1))]
  }

  lemma ParsedSnoc<X, T>(xs: seq<X>, x: X, parse: X -> T, withId: (T, string) -> T, ids: IdSupply, next: nat)
    ensures Parsed(xs + [x], parse, withId, ids, next)
      == Parsed(xs, parse, withId, ids, next) + [withId(parse(x), ids(next + |xs|))]
  {
    assert (xs + [x])[..|xs|] == xs;
  }

  /** The k-th record is the k-th element parsed, with identifier `ids(next + k)`. */
  lemma {:induction false} ParsedAt<X, T>(xs: seq<X>, parse: X -> T, withId: (T, string) -> T, ids: IdSupply, next: nat)
    ensures forall k :: 0 <= k < |xs| ==> Parsed(xs, parse, withId, ids, next)[k] == withId(parse(xs[k]), ids(next + k))
  {
    if xs != [] {
      var init := xs[..|xs| - 1];
      ParsedAt(init, parse, withId, ids, next);
      assert xs == init + [xs[|xs| - 1]];
      ParsedSnoc(init, xs[|xs| - 1], parse, withId, ids, next);
    }
  }

  /** The records drawn from `xs` in order: each element's draft, where there is one,
      numbered from `next` on. */
  function Records<X, T>(xs: seq<X>, draft: X -> Option<T>, withId: (T, string) -> T, ids: IdSupply, next: nat): (r: seq<T>)
    ensures |r| <= |xs|
  {
    Numbered(Kept(seq(|xs|, k requires 0 <= k < |xs| => draft(xs[k]))), withId, ids, next)
  }

  /** The k-th record is the draft of some element, given identifier `ids(next + k)`. */
  lemma RecordsFrom<X, T>(xs: seq<X>, draft: X -> Option<T>, withId: (T, string) -> T, ids: IdSupply, next: nat)
    ensures forall k :: 0 <= k < |Records(xs, draft, withId, ids, next)| ==>
      exists j :: 0 <= j < |xs| && draft(xs[j]).Some?
        && Records(xs, draft, withId, ids, next)[k] == withId(draft(xs[j]).value, ids(next + k))
  {
    var drafts := seq(|xs|, k requires 0 <= k < |xs| => draft(xs[k]));
    KeptFrom(drafts);
    var r := Records(xs, draft, withId, ids, next);
    forall k | 0 <= k < |r|
      ensures exists j :: 0 <= j < |xs| && draft(xs[j]).Some? && r[k] == withId(draft(xs[j]).value, ids(next + k))
    {
      var j :| 0 <= j < |drafts| && drafts[j] == Some(Kept(drafts)[k]);
      assert draft(xs[j]).Some? && r[k] == withId(draft(xs[j]).value, ids(next + k));
    }
  }

  /** `/\d{4}\s*[-–—]\s*\d{4}|present|current/gi`: a year span or an open-end word. */
  const DateSpanOrOpen: Pattern :=
    Insensitive(Alts([
      Seqs([Rep(Digit, 4, 4), Star(Space), Chars("-\U{2013}\U{2014}"), Star(Space), Rep(Digit, 4, 4)]),
      Lit("present"), Lit("current")]))

  /** The first line of an entry with its year spans and `present`/`current` removed, trimmed. */
  function OpeningLine(line: string): (r: string)
    ensures r != [] ==> !IsSpace(r[0]) && !IsSpace(r[|r| - 1])
  {
    Trim(ReplaceAll(DateSpanOrOpen, line, Const("")))
  }

  /** `/([A-Z][a-z]+(?:\s+[A-Z][a-z]+)*),\s*([A-Z]{2})\b/`: "City, ST". */
  const LocationPattern: Pattern :=
    Sensitive(Seqs([
      Group(1, Seqs([UpperCh, Plus(LowerCh), Star(Seqs([Plus(Space), UpperCh, Plus(LowerCh)]))])),
      Chr(','), Star(Space), Group(2, Rep(UpperCh, 2, 2)), B]))

  /** The first "City, ST" of the text, or `''`. */
  function Location(text: string): string
  {
    match FirstText(LocationPattern, text)
    case Some(t) => t
    case None => ""
  }

  /** `/\d{4}.*$/`: from the first year to the end of the line. */
  const YearToEnd: Pattern := Sensitive(Seqs([Rep(Digit, 4, 4), Star(Dot), InputEnd]))

  /** `replace(/\d{4}.*$/, '')`. */
  function CutYearTail(s: string): (r: string)
    ensures Search(YearToEnd, s).None? ==> r == s
  {
    ReplaceFirstMatch(YearToEnd, s, Const(""))
  }

  /** `replace(/\b\d{4}\b/g, '')`: every stand-alone four-digit number removed. */
  function DropYears(s: string): string
  {
    ReplaceAll(Sensitive(Seqs([B, Rep(Digit, 4, 4), B])), s, Const(""))
  }

  /** `/^\d{4}/.test(l)`. */
  predicate StartsWithYear(l: string)
  {
    |l| >= 4 && AllDigits(l[..4])
  }

  /** `replace(/^[•\-–]\s*\/, '')`. */
  function StripBullet(l: string): (r: string)
    ensures |r| <= |l|
    ensures l == [] || l[0] !in "•-\U{2013}" ==> r == l
  {
    DropMarker(l, "•-\U{2013}")
  }

  /** Each line normalised, joined with `sep`. */
  function NormalizedJoin(lines: seq<string>, sep: string): string
  {
    Join(seq(|lines|, k requires 0 <= k < |lines| => NormalizeText(lines[k])), sep)
  }

  /** A bullet list: each line without its bullet, normalised, the items joined by
      `'\n• '` and the whole prefixed by `'• '` unless it is empty. */
  function Bulleted(lines: seq<string>): (r: string)
    ensures lines == [] ==> r == ""
    ensures r == "" || StartsWith(r, "• ")
  {
    var text := NormalizedJoin(seq(|lines|, k requires 0 <= k < |lines| => StripBullet(lines[k])), "\n• ");
    if text != "" then "• " + text else ""
  }

  /** `my.month ? `${my.month} ${my.year}` : my.year`. */
  function DateText(my: MonthYear): string
  {
    if my.month != "" then my.month + " " + my.year else my.year
  }

  /** A date read from text is empty, `Present`, an accepted year, or a month name followed
      by a space and an accepted year (or nothing). */
  lemma DateTextOfText(str: string)
    ensures var d := DateText(ParseMonthYear(str));
      d == "" || d == "Present" || IsBoundedYear(d)
      || exists m :: m in MONTHS && (d == m + " " || (exists y :: IsBoundedYear(y) && d == m + " " + y))
  {
    var my := ParseMonthYear(str);
    if my.month != "" {
      assert my.month in MONTHS;
      if my.year == "" {
        assert DateText(my) == my.month + " ";
      } else {
        assert IsBoundedYear(my.year) && DateText(my) == my.month + " " + my.year;
      }
    }
  }
}
