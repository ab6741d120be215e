/** Turning the positioned text fragments of a PDF page into lines: fragments on the same
    row are joined with single spaces, rows are read from the top of the page (largest row
    key first), and rows that are blank once trimmed are dropped. Row keys are the rounded
    vertical positions, taken here as given integers. */
module LineReconstruction {
  import opened Text

  datatype Fragment = Fragment(row: int, text: string)

  predicate HasRow(frags: seq<Fragment>, y: int)
  {
    exists i :: 0 <= i < |frags| && frags[i].row == y
  }

  /** The texts of the fragments on row `y`, in the order they were emitted. */
  function RowTexts(frags: seq<Fragment>, y: int): (r: seq<string>)
    ensures |r| <= |frags|
    ensures !HasRow(frags, y) ==> r == []
  {
    if frags == [] then []
    else
      var init := frags[..|frags| - 1];
      var last := frags[|frags| - 1];
      RowTexts(init, y) + (if last.row == y then [last.text] else [])
  }

  predicate Distinct(ys: seq<int>)
  {
    forall i, j :: 0 <= i < j < |ys| ==> ys[i] != ys[j]
  }

  /** The rows in the order they first appear (the insertion order of the row map). */
  function RowsInOrder(frags: seq<Fragment>): (r: seq<int>)
    ensures Distinct(r)
    ensures forall y :: y in r <==> HasRow(frags, y)
  {
    if frags == [] then []
    else
      var init := frags[..|frags| - 1];
      var last := frags[|frags| - 1];
      var before := RowsInOrder(init);
      assert forall y :: HasRow(frags, y) <==> HasRow(init, y) || y == last.row by {
        forall y | HasRow(frags, y) ensures HasRow(init, y) || y == last.row {
          var i :| 0 <= i < |frags| && frags[i].row == y;
          if i < |frags| - 1 { assert init[i] == frags[i]; }
        }
        forall y | HasRow(init, y) ensures HasRow(frags, y) {
          var i :| 0 <= i < |init| && init[i].row == y;
          assert frags[i] == init[i];
        }
      }
      if last.row in before then before else before + [last.row]
  }

  /** The row map the page loop builds: every row present maps to its texts. */
  method GroupRows(frags: seq<Fragment>) returns (lineMap: map<int, seq<string>>, keys: seq<int>)
    ensures keys == RowsInOrder(frags)
    ensures forall y :: y in lineMap <==> HasRow(frags, y)
    ensures forall y | y in lineMap :: lineMap[y] == RowTexts(frags, y)
  {
    lineMap, keys := map[], [];
    var i := 0;
    while i < |frags|
      invariant 0 <= i <= |frags|
      invariant keys == RowsInOrder(frags[..i])
      invariant forall y :: y in lineMap <==> HasRow(frags[..i], y)
      invariant forall y | y in lineMap :: lineMap[y] == RowTexts(frags[..i], y)
    {
      var f := frags[i];
      assert frags[..i + 1][..i] == frags[..i];
      if f.row !in lineMap {
        lineMap := lineMap[f.row := []];
        keys := keys + [f.row];
      }
      lineMap := lineMap[f.row := lineMap[f.row] + [f.text]];
      i := i + 1;
    }
    assert frags[..i] == frags;
  }

  predicate StrictlyDescending(ys: seq<int>)
  {
    forall i, j :: 0 <= i < j < |ys| ==> ys[i] > ys[j]
  }

  /** Inserting `x` into a strictly descending sequence. */
  function InsertDescending(x: int, ys: seq<int>): (r: seq<int>)
    requires StrictlyDescending(ys) && x !in ys
    ensures StrictlyDescending(r)
    ensures |r| == |ys| + 1
    ensures forall z :: z in r <==> z == x || z in ys
  {
    if ys == [] || x > ys[0] then [x] + ys
    else
      var rest := InsertDescending(x, ys[1..]);
      assert forall z | z in rest :: ys[0] > z by {
        forall z | z in rest ensures ys[0] > z {
          if z != x {
            var k :| 1 <= k < |ys| && ys[k] == z;
          }
        }
      }
      var r := [ys[0]] + rest;
      assert forall j :: 0 < j < |r| ==> r[j] == rest[j - 1] && rest[j - 1] in rest;
      r
  }

  /** `keys.sort((a, b) => b - a)` for distinct keys. */
  function SortDescending(ys: seq<int>): (r: seq<int>)
    requires Distinct(ys)
    ensures StrictlyDescending(r)
    ensures |r| == |ys|
    ensures forall z :: z in r <==> z in ys
  {
    if ys == [] then []
    else
      assert forall k :: 0 <= k < |ys| - 1 ==> ys[k] != ys[|ys| - 1];
      InsertDescending(ys[|ys| - 1], SortDescending(ys[..|ys| - 1]))
  }

  /** The line a row produces: its texts joined with single spaces, then trimmed. */
  function LineOf(frags: seq<Fragment>, y: int): string
  {
    Trim(Join(RowTexts(frags, y), " "))
  }

  predicate DescendingRows(rows: seq<(int, string)>)
  {
    forall i, j :: 0 <= i < j < |rows| ==> rows[i].0 > rows[j].0
  }

  /** Each row with its line, top of the page first. */
  function RowLines(frags: seq<Fragment>, ys: seq<int>): (r: seq<(int, string)>)
    ensures |r| == |ys|
    ensures forall k :: 0 <= k < |ys| ==> r[k].0 == ys[k] && r[k].1 == LineOf(frags, ys[k])
  {
    seq(|ys|, k requires 0 <= k < |ys| => (ys[k], LineOf(frags, ys[k])))
  }

  /** The rows whose line is not blank, in order (`filter(line => line)`). */
  function NonBlank(rows: seq<(int, string)>): (r: seq<(int, string)>)
    ensures forall p :: p in r <==> p in rows && p.1 != ""
  {
    if rows == [] then []
    else
      var rest := NonBlank(rows[1..]);
      assert forall p | p in rest :: p in rows[1..];
      if rows[0].1 != "" then [rows[0]] + rest else rest
  }

  /** Dropping blank rows keeps every row below a bound that all the rows are below. */
  lemma NonBlankBelow(rows: seq<(int, string)>, x: int)
    requires forall k :: 0 <= k < |rows| ==> rows[k].0 < x
    ensures forall k :: 0 <= k < |NonBlank(rows)| ==> NonBlank(rows)[k].0 < x
  {
    var r := NonBlank(rows);
    forall k | 0 <= k < |r| ensures r[k].0 < x {
      assert r[k] in r;
      var j :| 0 <= j < |rows| && rows[j] == r[k];
    }
  }

  /** A row above every row of a descending list heads a descending list. */
  lemma ConsDescending(x: (int, string), rest: seq<(int, string)>)
    requires DescendingRows(rest)
    requires forall k :: 0 <= k < |rest| ==> rest[k].0 < x.0
    ensures DescendingRows([x] + rest)
  {
    var r := [x] + rest;
    forall i, j | 0 <= i < j < |r| ensures r[i].0 > r[j].0 {
      assert r[j] == rest[j - 1];
      if i > 0 { assert r[i] == rest[i - 1]; }
    }
  }

  /** Dropping blank rows keeps the rows in descending order. */
  lemma {:induction false} NonBlankDescending(rows: seq<(int, string)>)
    requires DescendingRows(rows)
    ensures DescendingRows(NonBlank(rows))
  {
    if rows != [] {
      var tail := rows[1..];
      assert DescendingRows(tail);
      NonBlankDescending(tail);
      if rows[0].1 != "" {
        NonBlankBelow(tail, rows[0].0);
        ConsDescending(rows[0], NonBlank(tail));
      }
    }
  }

  /** The rows a page shows with their lines, in display order. */
  function PageRows(frags: seq<Fragment>): seq<(int, string)>
  {
    NonBlank(RowLines(frags, SortDescending(RowsInOrder(frags))))
  }

  /** The lines of a page. */
  function PageLines(frags: seq<Fragment>): (r: seq<string>)
  {
    var rows := PageRows(frags);
    seq(|rows|, k requires 0 <= k < |rows| => rows[k].1)
  }

  /** The text a page contributes: its lines joined with newlines, plus a final newline. */
  function PageText(frags: seq<Fragment>): string
  {
    Join(PageLines(frags), "\n") + "\n"
  }

  /** `parsePDF`'s text, from the fragments of each page in page order. */
  function DocumentText(pages: seq<seq<Fragment>>): string
  {
    if pages == [] then "" else DocumentText(pages[..|pages| - 1]) + PageText(pages[|pages| - 1])
  }

  /** One page of `parsePDF`: build the row map, sort its keys from the top of the page,
      join and trim each row, drop the blank ones. */
  method ReadPage(frags: seq<Fragment>) returns (lines: seq<string>)
    ensures lines == PageLines(frags)
  {
    var lineMap, keys := GroupRows(frags);
    var ys := SortDescending(keys);
    assert forall k | 0 <= k < |ys| :: ys[k] in lineMap && lineMap[ys[k]] == RowTexts(frags, ys[k]) by {
      forall k | 0 <= k < |ys| ensures ys[k] in lineMap && lineMap[ys[k]] == RowTexts(frags, ys[k]) {
        assert ys[k] in ys && ys[k] in keys;
      }
    }
    var rows := seq(|ys|, k requires 0 <= k < |ys| => (ys[k], Trim(Join(lineMap[ys[k]], " "))));
    assert rows == RowLines(frags, ys) by {
      forall k | 0 <= k < |ys| ensures rows[k] == RowLines(frags, ys)[k] {
        assert rows[k] == (ys[k], LineOf(frags, ys[k]));
      }
    }
    var kept := NonBlank(rows);
    assert kept == PageRows(frags);
    lines := seq(|kept|, k requires 0 <= k < |kept| => kept[k].1);
  }

  /** The text of the first `i + 1` pages extends that of the first `i`. */
  lemma DocumentTextStep(pages: seq<seq<Fragment>>, i: nat)
    requires i < |pages|
    ensures DocumentText(pages[..i + 1]) == DocumentText(pages[..i]) + PageText(pages[i])
  {
    assert pages[..i + 1][..i] == pages[..i];
  }

  /** `parsePDF`'s page loop: each page's lines followed by a newline, in page order. */
  method ReadDocument(pages: seq<seq<Fragment>>) returns (fullText: string)
    ensures fullText == DocumentText(pages)
  {
    fullText := "";
    for i := 0 to |pages|
      invariant fullText == DocumentText(pages[..i])
    {
      var lines := ReadPage(pages[i]);
      DocumentTextStep(pages, i);
      fullText := fullText + (Join(lines, "\n") + "\n");
    }
    assert pages[..|pages|] == pages;
  }

  /** The rows paired with their lines are exactly the rows listed, each with its line, in
      the order listed. */
  lemma RowLinesMembers(frags: seq<Fragment>, ys: seq<int>)
    ensures forall y, line :: (y, line) in RowLines(frags, ys) <==> y in ys && line == LineOf(frags, y)
    ensures StrictlyDescending(ys) ==> DescendingRows(RowLines(frags, ys))
  {
    var rows := RowLines(frags, ys);
    forall y, line ensures (y, line) in rows <==> y in ys && line == LineOf(frags, y) {
      if (y, line) in rows {
        var k :| 0 <= k < |rows| && rows[k] == (y, line);
        assert ys[k] in ys;
      }
      if y in ys && line == LineOf(frags, y) {
        var k :| 0 <= k < |ys| && ys[k] == y;
        assert rows[k] == (y, line);
      }
    }
  }

  /** The page's lines come from distinct rows, highest row first; a row shows exactly
      when it has a fragment and its joined, trimmed text is not blank, and what it shows
      is that text. */
  lemma PageRowsDescribed(frags: seq<Fragment>)
    ensures DescendingRows(PageRows(frags))
    ensures forall y, line :: (y, line) in PageRows(frags) <==>
      HasRow(frags, y) && line == LineOf(frags, y) && line != ""
    ensures |PageLines(frags)| == |PageRows(frags)|
    ensures forall k :: 0 <= k < |PageRows(frags)| ==> PageLines(frags)[k] == PageRows(frags)[k].1
  {
    var ys := SortDescending(RowsInOrder(frags));
    RowLinesMembers(frags, ys);
    NonBlankDescending(RowLines(frags, ys));
  }

  /** A fragment's text goes to its own row and to no other: the texts of row `y` are those
      of the fragments whose row is `y`, in emission order. */
  lemma {:induction false} RowTextsSelect(frags: seq<Fragment>, y: int, f: Fragment)
    ensures RowTexts(frags + [f], y) == RowTexts(frags, y) + (if f.row == y then [f.text] else [])
  {
    assert (frags + [f])[..|frags|] == frags;
  }

  /** Appending a fragment on another row leaves a row's line unchanged. */
  lemma OtherRowUnchanged(frags: seq<Fragment>, y: int, f: Fragment)
    requires f.row != y
    ensures LineOf(frags + [f], y) == LineOf(frags, y)
  {
    RowTextsSelect(frags, y, f);
    assert RowTexts(frags + [f], y) == RowTexts(frags, y);
  }

  /** A row with no fragment has a blank line. */
  lemma NoRowBlank(frags: seq<Fragment>, y: int)
    ensures !HasRow(frags, y) ==> LineOf(frags, y) == ""
  {
    assert Join([], " ") == "";
  }

  /** A descending list of rows whose every element is `p` is `[p]`. */
  lemma OnlyRow(rows: seq<(int, string)>, p: (int, string))
    requires DescendingRows(rows) && p in rows
    requires forall q | q in rows :: q == p
    ensures rows == [p]
  {
    var last := |rows| - 1;
    assert rows[0] in rows && rows[last] in rows;
  }

  /** A page whose fragments all share one row, with some visible text, is one line. */
  lemma SingleRowOneLine(frags: seq<Fragment>, y: int)
    requires forall i :: 0 <= i < |frags| ==> frags[i].row == y
    requires LineOf(frags, y) != ""
    ensures PageLines(frags) == [LineOf(frags, y)]
  {
    var line := LineOf(frags, y);
    NoRowBlank(frags, y);
    PageRowsDescribed(frags);
    var rows := PageRows(frags);
    assert (y, line) in rows;
    forall p | p in rows ensures p == (y, line) {
      var i :| 0 <= i < |frags| && frags[i].row == p.0;
    }
    OnlyRow(rows, (y, line));
  }
}
