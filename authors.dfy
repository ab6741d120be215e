/** Splitting an author block into names (`parseAuthorsToList`): the block is cleaned, cut
    into one piece per author by the first strategy that applies (semicolons, `and`/`&`,
    `Last, Initials` matches, commas), and each piece is read as `Last, First` or
    `First ... Last`. */
module Authors {
  import opened Text
  import opened Regex
  import opened Storage
  import opened Lists
  import opened Extract

  // ---------------------------------------------------------------- cleaning

  /** `/\s*\(\d{4}\)\s*\/g`: a year in parentheses with the white space around it. */
  const YearInParens: Pattern := Sensitive(Seqs([Star(Space), Chr('('), Rep(Digit, 4, 4), Chr(')'), Star(Space)]))

  /** `/\s*;\s*$/`: a last semicolon with white space around it. */
  const TrailingSemicolon: Pattern := Sensitive(Seqs([Star(Space), Chr(';'), Star(Space), InputEnd]))

  /** `/\s+/g`. */
  const SpaceRun: Pattern := Sensitive(Plus(Space))

  /** `/\s*-\s*\/g`: a hyphen with white space around it. */
  const SpacedHyphen: Pattern := Sensitive(Seqs([Star(Space), Chr('-'), Star(Space)]))

  /** The cleaning chain: years in parentheses removed, a leading bullet removed, a trailing
      semicolon removed, white space collapsed to single spaces, trimmed, and the spaces
      around hyphens removed. */
  function CleanAuthors(s: string): string
  {
    var noYears := ReplaceAll(YearInParens, s, Const(""));
    var noBullet := DropMarker(noYears, "•-\U{2013}");
    var noSemicolon := ReplaceFirstMatch(TrailingSemicolon, noBullet, Const(""));
    var collapsed := Trim(ReplaceAll(SpaceRun, noSemicolon, Const(" ")));
    ReplaceAll(SpacedHyphen, collapsed, Const("-"))
  }

  // ---------------------------------------------------------------- pieces

  /** `s` without its leading white space. */
  function TrimStart(s: string): (r: string)
    ensures r != [] ==> !IsSpace(r[0])
  {
    s[SkipSpace(s, 0)..]
  }

  /** `s` without its trailing white space. */
  function TrimEnd(s: string): (r: string)
    ensures r != [] ==> !IsSpace(r[|r| - 1])
  {
    s[..SkipSpaceBack(s, 0, |s|)]
  }

  /** `split(/\s*;\s*\/)`: the text between semicolons, where the white space next to each
      semicolon goes with it. The first piece keeps its leading and the last its trailing
      white space, which no separator reaches. */
  function SemicolonPieces(s: string): (r: seq<string>)
    ensures |r| == |SplitOn(s, ';')|
  {
    var segments := SplitOn(s, ';');
    seq(|segments|, k requires 0 <= k < |segments| => Piece(segments, k))
  }

  /** Segment `k` with the white space next to its semicolons removed. */
  function Piece(segments: seq<string>, k: nat): string
    requires k < |segments|
  {
    var seg := if k < |segments| - 1 then TrimEnd(segments[k]) else segments[k];
    if k > 0 then TrimStart(seg) else seg
  }

  /** `/\band\b|\s&\s/`. */
  const AndOrAmpersand: Pattern := Sensitive(Alt(Seqs([B, Lit("and"), B]), Seqs([Space, Chr('&'), Space])))

  /** `/\s+and\s+|\s*&\s*\/`. */
  const AndSplitter: Pattern := Sensitive(Alt(Seqs([Plus(Space), Lit("and"), Plus(Space)]), Seqs([Star(Space), Chr('&'), Star(Space)])))

  /** `[A-Z]\.?\s*`. */
  const Initial: Re := Seqs([UpperCh, Opt(Chr('.')), Star(Space)])

  /** `/([^,;]+)\s*,\s*([A-Z]\.?\s*(?:[A-Z]\.?\s*)*|[A-Z][a-z]+)/g`: a last name and its
      initials or first name. */
  const AuthorPattern: Pattern :=
    Sensitive(Seqs([Group(1, Plus(NotChars(",;"))), Star(Space), Chr(','), Star(Space),
      Group(2, Alt(Seqs([Initial, Star(Initial)]), Seqs([UpperCh, Plus(LowerCh)])))]))

  /** `/\s*,\s*\/`. */
  const CommaSplitter: Pattern := Sensitive(Seqs([Star(Space), Chr(','), Star(Space)]))

  /** `filter(s => s.length > 1)`. */
  predicate LongerThanOne(s: string)
  {
    |s| > 1
  }

  /** `` `${match[1].trim()}, ${match[2].trim()}` ``. */
  function PairOf(s: string, m: Match): string
  {
    Trim(GroupOr(s, m, 1)) + ", " + Trim(GroupOr(s, m, 2))
  }

  function PairsOf(s: string, ms: seq<Match>): (r: seq<string>)
    ensures |r| == |ms|
    ensures forall k :: 0 <= k < |ms| ==> r[k] == PairOf(s, ms[k])
  {
    seq(|ms|, k requires 0 <= k < |ms| => PairOf(s, ms[k]))
  }

  /** Every match of the author pattern, as `Last, Initials`. */
  function AuthorPairs(s: string): seq<string>
  {
    PairsOf(s, AllMatches(AuthorPattern, s))
  }

  /** Consecutive parts paired up: `` `${parts[j]}, ${parts[j + 1]}` `` for even `j`. */
  function CommaPairs(parts: seq<string>): (r: seq<string>)
    ensures |r| == |parts| / 2
  {
    if |parts| < 2 then [] else [parts[0] + ", " + parts[1]] + CommaPairs(parts[2..])
  }

  /** The comma fallback: the comma-separated parts longer than one character, paired up
      when there are an even number (at least two) of them. */
  function CommaFallback(s: string): seq<string>
  {
    var parts := Select(Split(CommaSplitter, s), LongerThanOne);
    if |parts| >= 2 && |parts| % 2 == 0 then CommaPairs(parts) else parts
  }

  /** `rawAuthors`: the pieces of the cleaned block by the first strategy that applies. */
  function RawAuthors(cleaned: string): seq<string>
  {
    if Contains(cleaned, ";") then Select(SemicolonPieces(cleaned), LongerThanOne)
    else if Test(AndOrAmpersand, cleaned) then Select(Split(AndSplitter, cleaned), LongerThanOne)
    else
      var pairs := AuthorPairs(cleaned);
      if pairs != [] then pairs else CommaFallback(cleaned)
  }

  // ---------------------------------------------------------------- one author

  /** `raw.trim().replace(/[.,]+$/, '').trim()`. */
  function Tidy(raw: string): string
  {
    Trim(DropTrailing(Trim(raw), ".,"))
  }

  /** The end of the run of ASCII letters that starts at `i`. */
  function LettersFrom(s: string, i: nat): (j: nat)
    requires i <= |s|
    ensures i <= j <= |s|
    ensures forall k :: i <= k < j ==> IsLetter(s[k])
    ensures j < |s| ==> !IsLetter(s[j])
    decreases |s| - i
  {
    if i == |s| || !IsLetter(s[i]) then i else LettersFrom(s, i + 1)
  }

  predicate NoLineTerminator(s: string)
  {
    forall k :: 0 <= k < |s| ==> !IsLineTerminator(s[k])
  }

  /** `/^([A-Za-z]+(?:-[A-Za-z]+)?)\s*,\s*(.+)$/`: the last name (letters, with at most one
      inner hyphen) and the rest after the comma. The letter runs cannot end early, and the
      white space after the comma gives back its last character only when nothing else is
      left for `.+`; `.` stops at line terminators, which therefore make the match fail. */
  function CommaMatch(r: string): Option<(string, string)>
  {
    var a := LettersFrom(r, 0);
    if a == 0 then None
    else
      var b := if a + 1 < |r| && r[a] == '-' && LettersFrom(r, a + 1) > a + 1 then LettersFrom(r, a + 1) else a;
      var c := SkipSpace(r, b);
      if c == |r| || r[c] != ',' then None
      else
        var d := SkipSpace(r, c + 1);
        if d < |r| then
          if NoLineTerminator(r[d..]) then Some((r[..b], r[d..])) else None
        else if c + 1 < |r| && !IsLineTerminator(r[|r| - 1]) then Some((r[..b], r[|r| - 1..]))
        else None
  }

  /** `/\s+/`: the words of a name. */
  const NameGaps: Pattern := Sensitive(Plus(Space))

  /** `charAt(0).toUpperCase() + slice(1)`. */
  function Capitalise(s: string): (r: string)
    ensures |r| == |s|
    ensures s != [] ==> r[0] == Upper(s[0]) && r[1..] == s[1..]
  {
    if s == [] then [] else [Upper(s[0])] + s[1..]
  }

  /** One piece read as an author: `Last, First` when the comma form matches, otherwise the
      last word is the last name and the words before it the first name; `None` for a piece
      shorter than 2 after tidying or one that leaves both names empty. */
  function AuthorOf(raw: string): Option<Author>
  {
    var r := Tidy(raw);
    if |r| < 2 then None
    else
      var (first, last) :=
        match CommaMatch(r)
        case Some((l, f)) => (Trim(DropTrailing(f, ".,")), l)
        case None =>
          var parts := Split(NameGaps, r);
          if |parts| >= 2 then (Join(parts[..|parts| - 1], " "), parts[|parts| - 1]) else ("", r);
      var lastName := Capitalise(last);
      if lastName != "" || first != "" then Some(Author(first, lastName)) else None
  }

  /** The authors the pieces yield, in order. */
  function AuthorsOf(raws: seq<string>): (r: seq<Author>)
    ensures |r| <= |raws|
  {
    KeptMap(raws, AuthorOf)
  }

  /** What `parseAuthorsToList` returns. */
  function AuthorsList(s: string): seq<Author>
  {
    if |s| < 2 then [] else AuthorsOf(RawAuthors(CleanAuthors(s)))
  }

  // ---------------------------------------------------------------- properties

  /** A last name: one or more ASCII letters. */
  predicate IsLastName(l: string)
  {
    l != [] && forall k :: 0 <= k < |l| ==> IsLetter(l[k])
  }

  /** A first name the comma form keeps whole: not empty, no white space at either end, no
      trailing period or comma, no line terminator and no semicolon. */
  predicate IsFirstName(f: string)
  {
    f != [] && !IsSpace(f[0]) && !IsSpace(f[|f| - 1]) && f[|f| - 1] !in ".,"
    && NoLineTerminator(f) && ';' !in f
  }

  /** The comma form splits `Last, First` at the comma. */
  lemma CommaMatchSplits(l: string, f: string)
    requires IsLastName(l) && IsFirstName(f)
    ensures CommaMatch(l + ", " + f) == Some((l, f))
  {
    var r := l + ", " + f;
    assert r[|l|] == ',' && r[|l| + 1] == ' ' && r[|l| + 2] == f[0];
    assert LettersFrom(r, 0) == |l|;
    assert SkipSpace(r, |l|) == |l|;
    assert SkipSpace(r, |l| + 1) == |l| + 2;
    assert r[..|l|] == l && r[|l| + 2..] == f;
  }

  /** A first name as written after the comma: a first name the comma form keeps whole,
      possibly followed by periods and commas (`J.`), which reading drops. */
  predicate IsGivenName(f: string)
  {
    IsFirstName(DropTrailing(f, ".,"))
  }

  /** A given name has text at both ends and no semicolon. */
  lemma GivenNameShape(f: string)
    requires IsGivenName(f)
    ensures f != [] && !IsSpace(f[0]) && !IsSpace(f[|f| - 1]) && ';' !in f
  {
    var g := DropTrailing(f, ".,");
    assert f[0] == g[0];
    assert forall k :: 0 <= k < |f| ==> f[k] != ';' by {
      forall k | 0 <= k < |f| ensures f[k] != ';' {
        if k < |g| {
          assert f[k] == g[k];
        }
      }
    }
  }

  /** A `Last, First` piece is read as that author: the last name capitalised, the first
      name without its trailing periods and commas. */
  lemma CommaAuthor(l: string, f: string)
    requires IsLastName(l) && IsGivenName(f)
    ensures AuthorOf(l + ", " + f) == Some(Author(DropTrailing(f, ".,"), Capitalise(l)))
  {
    var g := DropTrailing(f, ".,");
    var r := l + ", " + f;
    GivenNameShape(f);
    assert r[0] == l[0] && r[|r| - 1] == f[|f| - 1];
    TrimUnchanged(r);
    DropTrailingConcat(l + ", ", f, ".,");
    var t := l + ", " + g;
    assert t[0] == l[0] && t[|t| - 1] == g[|g| - 1];
    TrimUnchanged(t);
    assert Tidy(r) == t;
    CommaMatchSplits(l, g);
    TrimUnchanged(g);
    assert DropTrailing(g, ".,") == g;
  }

  /** `Last, First; Last, First; ...`: the semicolon pieces of the joined text are the items
      themselves. */
  lemma {:induction false} SemicolonSplit(items: seq<string>)
    requires items != []
    requires forall k :: 0 <= k < |items| ==> ';' !in items[k]
    ensures var segments := SplitOn(Join(items, "; "), ';');
      |segments| == |items| && segments[0] == items[0]
      && forall k :: 1 <= k < |items| ==> segments[k] == " " + items[k]
  {
    if |items| == 1 {
      assert SplitOn(items[0], ';') == [items[0]] by {
        SplitOnNone(items[0], ';');
      }
    } else {
      var rest := Join(items[1..], "; ");
      SemicolonSplit(items[1..]);
      var tail := SplitOn(rest, ';');
      assert Join(items, "; ") == items[0] + [';'] + (" " + rest);
      SplitOnFirst(items[0], " " + rest, ';');
      assert (" " + rest)[1..] == rest;
      assert SplitOn(" " + rest, ';') == [" " + tail[0]] + tail[1..];
    }
  }

  /** A white space is dropped from the front of a piece that starts with another
      character, and a piece that ends with one keeps its end. */
  lemma TrimSpaced(x: string)
    requires x != [] && !IsSpace(x[0]) && !IsSpace(x[|x| - 1])
    ensures TrimStart(" " + x) == x && TrimStart(x) == x
    ensures TrimEnd(x) == x && TrimEnd(" " + x) == " " + x
  {
    var y := " " + x;
    assert IsSpace(y[0]) && y[1] == x[0] && y[|y| - 1] == x[|x| - 1];
    assert SkipSpace(y, 0) == 1;
    assert y[1..] == x;
  }

  /** A piece with text at both ends and no semicolon. */
  predicate IsSemicolonItem(item: string)
  {
    item != [] && !IsSpace(item[0]) && !IsSpace(item[|item| - 1]) && ';' !in item
  }

  /** The semicolon pieces of items joined with `; ` are the items. */
  lemma SemicolonPiecesJoined(items: seq<string>)
    requires items != []
    requires forall k :: 0 <= k < |items| ==> IsSemicolonItem(items[k])
    ensures SemicolonPieces(Join(items, "; ")) == items
  {
    var joined := Join(items, "; ");
    var segments := SplitOn(joined, ';');
    SemicolonSplit(items);
    forall k | 0 <= k < |items|
      ensures SemicolonPieces(joined)[k] == items[k]
    {
      PieceSpaced(segments, items[k], k);
    }
  }

  /** A segment that is an item, after a space unless it is the first, gives back the item. */
  lemma PieceSpaced(segments: seq<string>, item: string, k: nat)
    requires k < |segments| && IsSemicolonItem(item)
    requires segments[k] == if k == 0 then item else " " + item
    ensures Piece(segments, k) == item
  {
    TrimSpaced(item);
  }

  /** Two or more items with no semicolon of their own, joined with `; `, are split back by
      the semicolon strategy (pieces of one character or less dropped). */
  lemma SemicolonRaws(items: seq<string>)
    requires |items| >= 2
    requires forall k :: 0 <= k < |items| ==> IsSemicolonItem(items[k]) && |items[k]| > 1
    ensures RawAuthors(Join(items, "; ")) == items
  {
    var joined := Join(items, "; ");
    assert OccursAt(joined, ";", |items[0]|) by {
      assert joined == items[0] + ";" + (" " + Join(items[1..], "; "));
    }
    OccursContains(joined, ";", |items[0]|);
    SemicolonPiecesJoined(items);
    SelectAll(items, LongerThanOne);
  }

  /** `Last, First` for each pair of names. */
  function CommaItems(lasts: seq<string>, firsts: seq<string>): (r: seq<string>)
    requires |lasts| == |firsts|
    ensures |r| == |lasts|
    ensures forall k :: 0 <= k < |r| ==> r[k] == lasts[k] + ", " + firsts[k]
  {
    seq(|lasts|, k requires 0 <= k < |lasts| => lasts[k] + ", " + firsts[k])
  }

  /** The author each `Last, First` pair names. */
  function NamedAuthors(lasts: seq<string>, firsts: seq<string>): (r: seq<Author>)
    requires |lasts| == |firsts|
    ensures |r| == |lasts|
    ensures forall k :: 0 <= k < |r| ==> r[k] == Author(DropTrailing(firsts[k], ".,"), Capitalise(lasts[k]))
  {
    seq(|lasts|, k requires 0 <= k < |lasts| => Author(DropTrailing(firsts[k], ".,"), Capitalise(lasts[k])))
  }

  /** A `Last, First` item has text at both ends and no semicolon. */
  lemma CommaItemShape(l: string, f: string)
    requires IsLastName(l) && IsGivenName(f)
    ensures IsSemicolonItem(l + ", " + f) && |l + ", " + f| > 1
  {
    var item := l + ", " + f;
    GivenNameShape(f);
    assert item[0] == l[0] && item[|item| - 1] == f[|f| - 1];
    assert ';' !in l;
  }

  /** Each `Last, First` item is a semicolon item that reads as its author. */
  lemma CommaItemsRead(lasts: seq<string>, firsts: seq<string>)
    requires |lasts| == |firsts|
    requires forall k :: 0 <= k < |lasts| ==> IsLastName(lasts[k]) && IsGivenName(firsts[k])
    ensures forall k :: 0 <= k < |lasts| ==>
      IsSemicolonItem(CommaItems(lasts, firsts)[k]) && |CommaItems(lasts, firsts)[k]| > 1
    ensures forall k :: 0 <= k < |lasts| ==>
      AuthorOf(CommaItems(lasts, firsts)[k]) == Some(NamedAuthors(lasts, firsts)[k])
  {
    forall k | 0 <= k < |lasts|
      ensures IsSemicolonItem(CommaItems(lasts, firsts)[k]) && |CommaItems(lasts, firsts)[k]| > 1
      ensures AuthorOf(CommaItems(lasts, firsts)[k]) == Some(NamedAuthors(lasts, firsts)[k])
    {
      CommaItemShape(lasts[k], firsts[k]);
      CommaAuthor(lasts[k], firsts[k]);
    }
  }

  /** Pieces joined as `Last, First; Last, First; ...` (two or more of them) are read back
      by the semicolon strategy one author per item, in order. */
  lemma SemicolonRawAuthors(lasts: seq<string>, firsts: seq<string>)
    requires |lasts| == |firsts| >= 2
    requires forall k :: 0 <= k < |lasts| ==> IsLastName(lasts[k]) && IsGivenName(firsts[k])
    ensures AuthorsOf(RawAuthors(Join(CommaItems(lasts, firsts), "; "))) == NamedAuthors(lasts, firsts)
  {
    CommaItemsRead(lasts, firsts);
    SemicolonRaws(CommaItems(lasts, firsts));
    KeptMapAll(CommaItems(lasts, firsts), AuthorOf, NamedAuthors(lasts, firsts));
  }

  // ---------------------------------------------------------------- blocks the cleaning keeps

  /** No parenthesis and no hyphen, every white space a plain space, no two of them
      together and none at the end. */
  ghost predicate Settled(s: string)
  {
    (forall k :: 0 <= k < |s| ==> s[k] != '(' && s[k] != '-' && (IsSpace(s[k]) ==> s[k] == ' '))
    && (s != [] ==> !IsSpace(s[|s| - 1]))
    && forall i, j :: 0 <= i < j < |s| && j == i + 1 ==> !(IsSpace(s[i]) && IsSpace(s[j]))
  }

  /** A block the cleaning chain leaves as it is: settled, starting with text that is not a
      bullet or a dash, and not ending in a semicolon. */
  ghost predicate CleanBlock(s: string)
  {
    s != [] && !IsSpace(s[0]) && s[0] != '•' && s[0] != '\U{2013}' && s[|s| - 1] != ';' && Settled(s)
  }

  /** Without a parenthesis there is no year in parentheses to remove. */
  lemma YearsKept(s: string)
    requires forall k :: 0 <= k < |s| ==> s[k] != '('
    ensures ReplaceAll(YearInParens, s, Const("")) == s
  {
    var rest := Seqs([Rep(Digit, 4, 4), Chr(')'), Star(Space)]);
    SeqsCons(Star(Space), [Chr('('), Rep(Digit, 4, 4), Chr(')'), Star(Space)]);
    SeqsCons(Chr('('), [Rep(Digit, 4, 4), Chr(')'), Star(Space)]);
    forall i | 0 <= i <= |s| ensures MatchAt(YearInParens, s, i).None? {
      AbsentCharNoMatch('(', rest, s, i);
    }
    ReplaceAllNoMatch(YearInParens, s, Const(""));
  }

  /** A block ending in text other than a semicolon has no trailing semicolon to remove. */
  lemma SemicolonKept(s: string)
    requires s != [] && s[|s| - 1] != ';' && !IsSpace(s[|s| - 1])
    ensures ReplaceFirstMatch(TrailingSemicolon, s, Const("")) == s
  {
    SeqsCons(Star(Space), [Chr(';'), Star(Space), InputEnd]);
    SeqsCons(Chr(';'), [Star(Space), InputEnd]);
    SeqsCons(Star(Space), [InputEnd]);
    forall i | 0 <= i <= |s| ensures MatchAt(TrailingSemicolon, s, i).None? {
      TrailingCharNoMatch(';', s, i);
    }
    ExecNoMatch(TrailingSemicolon, s, 0);
  }

  /** Single spaces between words collapse to themselves. */
  lemma SpacesKept(s: string)
    requires Settled(s)
    ensures ReplaceAll(SpaceRun, s, Const(" ")) == s
  {
    forall j | 0 <= j <= |s|
      ensures MatchAt(SpaceRun, s, j) == if j < |s| && IsSpace(s[j]) then Some(Match(j, j + 1, map[])) else None
    {
      if j < |s| && IsSpace(s[j]) {
        PlusSpaceSingle(s, j);
      } else {
        PlusSpaceNone(s, j);
      }
    }
    forall j | 0 <= j < |s| && IsSpace(s[j]) ensures s[j..j + 1] == " " {
      assert s[j] == ' ';
    }
    ReplaceAllSame(SpaceRun, s, Const(" "));
  }

  /** Without a hyphen there is no spaced hyphen to close up. */
  lemma HyphensKept(s: string)
    requires forall k :: 0 <= k < |s| ==> s[k] != '-'
    ensures ReplaceAll(SpacedHyphen, s, Const("-")) == s
  {
    SeqsCons(Star(Space), [Chr('-'), Star(Space)]);
    SeqsCons(Chr('-'), [Star(Space)]);
    forall i | 0 <= i <= |s| ensures MatchAt(SpacedHyphen, s, i).None? {
      AbsentCharNoMatch('-', Star(Space), s, i);
    }
    ReplaceAllNoMatch(SpacedHyphen, s, Const("-"));
  }

  /** The cleaning chain leaves a clean block as it is. */
  lemma CleanAuthorsKeeps(s: string)
    requires CleanBlock(s)
    ensures CleanAuthors(s) == s
  {
    YearsKept(s);
    assert s[0] != '-';
    assert s[0] !in "•-\U{2013}";
    assert !IsSpace(s[|s| - 1]);
    SemicolonKept(s);
    SpacesKept(s);
    TrimUnchanged(s);
    HyphensKept(s);
  }

  /** Two settled texts glued with a mark and a space, the second starting with text, are
      settled. */
  lemma SettledGlue(a: string, c: char, b: string)
    requires Settled(a) && Settled(b) && b != [] && !IsSpace(b[0])
    requires !IsSpace(c) && c != '(' && c != '-'
    ensures Settled(a + [c, ' '] + b)
  {
    var t := a + [c, ' '] + b;
    var n := |a|;
    forall k | 0 <= k < |t|
      ensures t[k] != '(' && t[k] != '-' && (IsSpace(t[k]) ==> t[k] == ' ')
    {
      if k < n {
        assert t[k] == a[k];
      } else if k >= n + 2 {
        assert t[k] == b[k - n - 2];
      }
    }
    assert t[|t| - 1] == b[|b| - 1];
    forall i, j | 0 <= i < j < |t| && j == i + 1
      ensures !(IsSpace(t[i]) && IsSpace(t[j]))
    {
      if j < n {
        assert t[i] == a[i] && t[j] == a[j];
      } else if j == n {
        assert t[j] == c;
      } else if j == n + 1 {
        assert t[i] == c;
      } else if j == n + 2 {
        assert t[j] == b[0];
      } else {
        assert t[i] == b[i - n - 2] && t[j] == b[j - n - 2];
      }
    }
  }

  /** A first name as written that the cleaning keeps: a given name, settled. */
  ghost predicate IsPlainGivenName(f: string)
  {
    IsGivenName(f) && Settled(f)
  }

  /** A `Last, First` item with a plain given name is settled and starts with a letter. */
  lemma CommaItemSettled(l: string, f: string)
    requires IsLastName(l) && IsPlainGivenName(f)
    ensures Settled(l + ", " + f) && IsLetter((l + ", " + f)[0])
  {
    GivenNameShape(f);
    assert Settled(l) by {
      assert forall k :: 0 <= k < |l| ==> IsLetter(l[k]);
    }
    assert ", " == [',', ' '];
    SettledGlue(l, ',', f);
  }

  /** Settled items that start with text, joined with `; `, are settled, and the join starts
      and ends where its first and last items do. */
  lemma {:induction false} JoinSettled(items: seq<string>)
    requires items != [] && SettledItems(items)
    ensures var t := Join(items, "; ");
      Settled(t) && t != [] && t[0] == items[0][0] && t[|t| - 1] == items[|items| - 1][|items[|items| - 1]| - 1]
  {
    if |items| > 1 {
      var rest := Join(items[1..], "; ");
      assert SettledItems(items[1..]) by {
        assert forall k :: 0 <= k < |items| - 1 ==> items[1..][k] == items[k + 1];
      }
      JoinSettled(items[1..]);
      assert items[1..][|items| - 2] == items[|items| - 1];
      assert "; " == [';', ' '];
      assert Join(items, "; ") == items[0] + [';', ' '] + rest;
      SettledGlue(items[0], ';', rest);
    }
  }

  /** Settled, non-empty, starting with text: what `JoinSettled` asks of each item. */
  ghost predicate SettledItems(items: seq<string>)
  {
    forall k :: 0 <= k < |items| ==> items[k] != [] && Settled(items[k]) && !IsSpace(items[k][0])
  }

  /** Each `Last, First` item with a plain given name is settled and starts with text. */
  lemma CommaItemsSettled(lasts: seq<string>, firsts: seq<string>)
    requires |lasts| == |firsts|
    requires forall k :: 0 <= k < |lasts| ==> IsLastName(lasts[k]) && IsPlainGivenName(firsts[k])
    ensures SettledItems(CommaItems(lasts, firsts))
  {
    var items := CommaItems(lasts, firsts);
    forall k | 0 <= k < |items|
      ensures items[k] != [] && Settled(items[k]) && !IsSpace(items[k][0])
    {
      CommaItemSettled(lasts[k], firsts[k]);
    }
  }

  /** Settled items joined with `; `, the first starting with a letter and the last not
      ending in a semicolon, form a block the cleaning keeps. */
  lemma JoinBlock(items: seq<string>)
    requires items != [] && SettledItems(items) && IsLetter(items[0][0])
    requires items[|items| - 1][|items[|items| - 1]| - 1] != ';'
    ensures CleanBlock(Join(items, "; "))
  {
    JoinSettled(items);
  }

  /** Authors joined as `Last, First; Last, First; ...` form a block the cleaning keeps. */
  lemma CommaBlock(lasts: seq<string>, firsts: seq<string>)
    requires |lasts| == |firsts| >= 1
    requires forall k :: 0 <= k < |lasts| ==> IsLastName(lasts[k]) && IsPlainGivenName(firsts[k])
    ensures CleanBlock(Join(CommaItems(lasts, firsts), "; "))
  {
    var items := CommaItems(lasts, firsts);
    CommaItemsSettled(lasts, firsts);
    var f := firsts[|firsts| - 1];
    var item := items[|items| - 1];
    GivenNameShape(f);
    assert item[|item| - 1] == f[|f| - 1];
    CommaItemSettled(lasts[0], firsts[0]);
    JoinBlock(items);
  }

  /** Authors written `Last, First; Last, First; ...` (two or more of them) are read back one
      per item, in order: the cleaning keeps the block, and the semicolon strategy splits it. */
  lemma SemicolonAuthors(lasts: seq<string>, firsts: seq<string>)
    requires |lasts| == |firsts| >= 2
    requires forall k :: 0 <= k < |lasts| ==> IsLastName(lasts[k]) && IsPlainGivenName(firsts[k])
    ensures AuthorsList(Join(CommaItems(lasts, firsts), "; ")) == NamedAuthors(lasts, firsts)
  {
    var s := Join(CommaItems(lasts, firsts), "; ");
    CommaBlock(lasts, firsts);
    CleanAuthorsKeeps(s);
    assert |s| >= 2 by {
      CommaItemShape(lasts[0], firsts[0]);
      assert s == CommaItems(lasts, firsts)[0] + "; " + Join(CommaItems(lasts, firsts)[1..], "; ");
    }
    SemicolonRawAuthors(lasts, firsts);
  }

  /** A piece read as an author gives a first or a last name. */
  lemma AuthorNamed(raw: string)
    ensures AuthorOf(raw).Some? ==> AuthorOf(raw).value.firstName != "" || AuthorOf(raw).value.lastName != ""
  {
  }

  /** Every author read from the pieces comes from one of them and has a first or a last
      name. */
  lemma AuthorsNamed(raws: seq<string>)
    ensures forall k :: 0 <= k < |AuthorsOf(raws)| ==>
      (AuthorsOf(raws)[k].firstName != "" || AuthorsOf(raws)[k].lastName != "")
      && exists j :: 0 <= j < |raws| && AuthorOf(raws[j]) == Some(AuthorsOf(raws)[k])
  {
    KeptMapFrom(raws, AuthorOf);
    forall k | 0 <= k < |AuthorsOf(raws)|
      ensures AuthorsOf(raws)[k].firstName != "" || AuthorsOf(raws)[k].lastName != ""
    {
      var j :| 0 <= j < |raws| && AuthorOf(raws[j]) == Some(AuthorsOf(raws)[k]);
      AuthorNamed(raws[j]);
    }
  }

  /** When every piece yields an author, the authors are those, one per piece. */
  lemma AuthorsOfAll(raws: seq<string>, authors: seq<Author>)
    requires |raws| == |authors|
    requires forall k :: 0 <= k < |raws| ==> AuthorOf(raws[k]) == Some(authors[k])
    ensures AuthorsOf(raws) == authors
  {
    KeptMapAll(raws, AuthorOf, authors);
  }

  // ---------------------------------------------------------------- the loops

  /** The `authorPattern.exec` loop: successive calls of `exec` on the `g`-flag pattern
      return the matches `AllMatches` lists, one after the other, and each is pushed as
      `Last, Initials`. (The pattern cannot match the empty string, so the step past an empty
      match that `AllMatches` takes never arises.) */
  method ExecPairs(p: Pattern, s: string) returns (pairs: seq<string>)
    ensures pairs == PairsOf(s, AllMatches(p, s))
  {
    var matches := AllMatches(p, s);
    pairs := [];
    for k := 0 to |matches|
      invariant pairs == PairsOf(s, matches[..k])
    {
      assert matches[..k + 1] == matches[..k] + [matches[k]];
      pairs := pairs + [PairOf(s, matches[k])];
    }
    assert matches[..|matches|] == matches;
  }

  /** The even-count comma loop: `parts[j]` and `parts[j + 1]` joined for `j = 0, 2, ...`. */
  method PairUp(parts: seq<string>) returns (pairs: seq<string>)
    requires |parts| % 2 == 0
    ensures pairs == CommaPairs(parts)
  {
    pairs := [];
    var j := 0;
    while j < |parts|
      invariant 0 <= j <= |parts| && j % 2 == 0
      invariant pairs + CommaPairs(parts[j..]) == CommaPairs(parts)
    {
      assert j + 2 <= |parts|;
      assert parts[j..][2..] == parts[j + 2..];
      pairs := pairs + [parts[j] + ", " + parts[j + 1]];
      j := j + 2;
    }
  }

  /** The choice of strategy in `parseAuthorsToList`. */
  method SplitAuthors(cleaned: string) returns (raws: seq<string>)
    ensures raws == RawAuthors(cleaned)
  {
    if Contains(cleaned, ";") {
      raws := Select(SemicolonPieces(cleaned), LongerThanOne);
    } else if Test(AndOrAmpersand, cleaned) {
      raws := Select(Split(AndSplitter, cleaned), LongerThanOne);
    } else {
      var matches := ExecPairs(AuthorPattern, cleaned);
      if |matches| > 0 {
        raws := matches;
      } else {
        var parts := Select(Split(CommaSplitter, cleaned), LongerThanOne);
        if |parts| >= 2 && |parts| % 2 == 0 {
          raws := PairUp(parts);
        } else {
          raws := parts;
        }
      }
    }
  }

  /** The push loop: each piece read as an author, the ones that yield one kept in order. */
  method ReadAuthors(raws: seq<string>) returns (authors: seq<Author>)
    ensures authors == AuthorsOf(raws)
  {
    authors := [];
    for k := 0 to |raws|
      invariant authors == AuthorsOf(raws[..k])
    {
      assert raws[..k + 1] == raws[..k] + [raws[k]];
      KeptMapSnoc(raws[..k], raws[k], AuthorOf);
      match AuthorOf(raws[k]) {
        case Some(a) => authors := authors + [a];
        case None =>
      }
    }
    assert raws[..|raws|] == raws;
  }

  /** `parseAuthorsToList`. */
  method ParseAuthorsToList(s: string) returns (authors: seq<Author>)
    ensures authors == AuthorsList(s)
  {
    if |s| < 2 {
      return [];
    }
    var raws := SplitAuthors(CleanAuthors(s));
    authors := ReadAuthors(raws);
  }
}
