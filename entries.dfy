/** Grouping the lines of a section into entries (`groupIntoEntries`). */
module Entries {
  import opened Text

  /** `\d{4}\s*[-–—to]` tried at position `i`: four digits, optional white space, then one
      of the five characters `-`, `–`, `—`, `t`, `o` (a character class, so a year followed
      by a word starting with `t` or `o` counts too). */
  predicate DateAt(s: string, i: nat)
  {
    i + 4 <= |s| && AllDigits(s[i..i + 4])
    && var j := SkipSpace(s, i + 4);
       j < |s| && s[j] in "-–—to"
  }

  /** `/\d{4}\s*[-–—to]/.test(line)`. */
  predicate HasDate(line: string)
  {
    exists i :: 0 <= i < |line| && DateAt(line, i)
  }

  const TITLE_PREFIXES: seq<string> := [
    "senior", "junior", "lead", "principal", "staff", "associate", "intern", "manager",
    "director", "engineer", "developer", "analyst", "professor", "instructor", "president", "chair"]

  /** `^word\b` without regard to case. */
  predicate StartsWithWord(line: string, word: string)
  {
    StartsWith(ToLower(line), word) && (|line| == |word| || !IsWordChar(line[|word|]))
  }

  /** The line opens with one of the title words. */
  predicate IsTitle(line: string)
  {
    exists k :: 0 <= k < |TITLE_PREFIXES| && StartsWithWord(line, TITLE_PREFIXES[k])
  }

  /** Line `i` may open a new entry: it carries a year and a separator, follows an empty line
      (the line before the first counts as empty), or starts with a title word. */
  predicate Opens(lines: seq<string>, i: nat)
    requires i < |lines|
  {
    HasDate(lines[i]) || (i == 0 || lines[i - 1] == "") || IsTitle(lines[i])
  }

  /** The loop's state: the finished entries and the one being filled. */
  datatype Grouping = Grouping(done: seq<seq<string>>, current: seq<string>)

  /** The state after the first `n` lines. */
  function GroupPrefix(lines: seq<string>, n: nat): Grouping
    requires n <= |lines|
  {
    if n == 0 then Grouping([], [])
    else
      var g, i := GroupPrefix(lines, n - 1), n - 1;
      if lines[i] == "" then g
      else if Opens(lines, i) && g.current != [] then Grouping(g.done + [g.current], [lines[i]])
      else Grouping(g.done, g.current + [lines[i]])
  }

  /** The entries a state stands for: the finished ones and the current one if it has lines. */
  function Close(g: Grouping): seq<seq<string>>
  {
    g.done + (if g.current != [] then [g.current] else [])
  }

  function EntriesOf(lines: seq<string>): seq<seq<string>>
  {
    Close(GroupPrefix(lines, |lines|))
  }

  /** `groupIntoEntries`. */
  method GroupIntoEntries(lines: seq<string>) returns (entries: seq<seq<string>>)
    ensures entries == EntriesOf(lines)
  {
    entries := [];
    var currentEntry: seq<string> := [];
    for i := 0 to |lines|
      invariant Grouping(entries, currentEntry) == GroupPrefix(lines, i)
    {
      var line := lines[i];
      var prevLine := if i > 0 then lines[i - 1] else "";
      if line != "" {
        var hasDate := HasDate(line);
        var isNewParagraph := prevLine == "" && |line| > 0;
        var isTitle := IsTitle(line);
        if (hasDate || isNewParagraph || isTitle) && |currentEntry| > 0 {
          entries := entries + [currentEntry];
          currentEntry := [line];
        } else {
          currentEntry := currentEntry + [line];
        }
      }
    }
    if |currentEntry| > 0 {
      entries := entries + [currentEntry];
    }
  }

  /** The lines of all entries, one entry after another. */
  function Flatten(xss: seq<seq<string>>): (r: seq<string>)
  {
    if xss == [] then [] else Flatten(xss[..|xss| - 1]) + xss[|xss| - 1]
  }

  lemma FlattenSnoc(xss: seq<seq<string>>, xs: seq<string>)
    ensures Flatten(xss + [xs]) == Flatten(xss) + xs
  {
    assert (xss + [xs])[..|xss|] == xss;
  }

  /** The lines that are not empty, in order. */
  function NonEmptyLines(lines: seq<string>): (r: seq<string>)
    ensures forall k :: 0 <= k < |r| ==> r[k] != ""
  {
    if lines == [] then []
    else
      var last := lines[|lines| - 1];
      NonEmptyLines(lines[..|lines| - 1]) + (if last != "" then [last] else [])
  }

  /** What the loop keeps about its state after `n` lines. */
  predicate Grouped(lines: seq<string>, n: nat, g: Grouping)
    requires n <= |lines|
  {
    (g.current == [] ==> g.done == [])
    && (forall k :: 0 <= k < |g.done| ==> g.done[k] != [])
    && Flatten(Close(g)) == NonEmptyLines(lines[..n])
    && forall k :: 1 <= k < |Close(g)| ==>
         exists i :: 0 <= i < n && Opens(lines, i) && lines[i] == Close(g)[k][0]
  }

  lemma {:induction false} GroupPrefixGrouped(lines: seq<string>, n: nat)
    requires n <= |lines|
    ensures Grouped(lines, n, GroupPrefix(lines, n))
  {
    if n > 0 {
      var i := n - 1;
      var g := GroupPrefix(lines, i);
      GroupPrefixGrouped(lines, i);
      assert lines[..n] == lines[..i] + [lines[i]];
      if lines[i] != "" {
        if Opens(lines, i) && g.current != [] {
          StepOpen(lines, n, g);
        } else {
          StepExtend(lines, n, g);
        }
      }
    }
  }

  lemma NonEmptySnoc(lines: seq<string>, n: nat)
    requires 0 < n <= |lines|
    ensures NonEmptyLines(lines[..n])
      == NonEmptyLines(lines[..n - 1]) + (if lines[n - 1] != "" then [lines[n - 1]] else [])
  {
    assert lines[..n][..n - 1] == lines[..n - 1];
  }

  /** A line that opens an entry closes the current one and starts the next. */
  lemma StepOpen(lines: seq<string>, n: nat, g: Grouping)
    requires 0 < n <= |lines| && lines[n - 1] != ""
    requires Grouped(lines, n - 1, g) && g.current != [] && Opens(lines, n - 1)
    ensures Grouped(lines, n, Grouping(g.done + [g.current], [lines[n - 1]]))
  {
    var line := lines[n - 1];
    var h := Grouping(g.done + [g.current], [line]);
    assert Close(g) == g.done + [g.current];
    assert Close(h) == Close(g) + [[line]];
    FlattenSnoc(Close(g), [line]);
    NonEmptySnoc(lines, n);
    forall k | 1 <= k < |Close(h)|
      ensures exists i :: 0 <= i < n && Opens(lines, i) && lines[i] == Close(h)[k][0]
    {
      if k < |Close(g)| {
        assert Close(h)[k] == Close(g)[k];
        var i :| 0 <= i < n - 1 && Opens(lines, i) && lines[i] == Close(g)[k][0];
      } else {
        assert Close(h)[k] == [line];
        assert Opens(lines, n - 1) && lines[n - 1] == Close(h)[k][0];
      }
    }
  }

  /** Any other non-empty line joins the current entry. */
  lemma StepExtend(lines: seq<string>, n: nat, g: Grouping)
    requires 0 < n <= |lines| && lines[n - 1] != ""
    requires Grouped(lines, n - 1, g)
    ensures Grouped(lines, n, Grouping(g.done, g.current + [lines[n - 1]]))
  {
    var line := lines[n - 1];
    var h := Grouping(g.done, g.current + [line]);
    assert Close(h) == g.done + [g.current + [line]];
    FlattenSnoc(g.done, g.current + [line]);
    if g.current != [] {
      assert Close(g) == g.done + [g.current];
      FlattenSnoc(g.done, g.current);
    } else {
      assert Close(g) == g.done;
    }
    NonEmptySnoc(lines, n);
    forall k | 1 <= k < |Close(h)|
      ensures exists i :: 0 <= i < n && Opens(lines, i) && lines[i] == Close(h)[k][0]
    {
      assert Close(h)[k][0] == Close(g)[k][0];
      var i :| 0 <= i < n - 1 && Opens(lines, i) && lines[i] == Close(g)[k][0];
    }
  }

  /** Every entry has a line, the entries taken together are the non-empty lines in order,
      every entry after the first starts with a line that may open one, and every non-empty
      line that may open one starts the entry that follows those before it. */
  lemma EntriesDescribed(lines: seq<string>)
    ensures forall k :: 0 <= k < |EntriesOf(lines)| ==> EntriesOf(lines)[k] != []
    ensures Flatten(EntriesOf(lines)) == NonEmptyLines(lines)
    ensures forall k :: 1 <= k < |EntriesOf(lines)| ==>
      exists i :: 0 <= i < |lines| && Opens(lines, i) && lines[i] == EntriesOf(lines)[k][0]
    ensures forall i :: 0 <= i < |lines| && lines[i] != "" && Opens(lines, i) ==>
      |Close(GroupPrefix(lines, i))| < |EntriesOf(lines)|
      && EntriesOf(lines)[|Close(GroupPrefix(lines, i))|][0] == lines[i]
  {
    GroupPrefixGrouped(lines, |lines|);
    assert lines[..|lines|] == lines;
    forall i | 0 <= i < |lines| && lines[i] != "" && Opens(lines, i)
      ensures |Close(GroupPrefix(lines, i))| < |EntriesOf(lines)|
      ensures EntriesOf(lines)[|Close(GroupPrefix(lines, i))|][0] == lines[i]
    {
      OpenerStartsEntry(lines, i);
    }
  }

  /** State `c` comes after state `a`: the entries `a` had finished come first in `c`, and
      the entry `a` was filling has only grown, into a finished entry or the current one. */
  predicate Extends(a: Grouping, c: Grouping)
  {
    |a.done| <= |c.done| && c.done[..|a.done|] == a.done
    && (a.current != [] ==>
          if |a.done| < |c.done| then |a.current| <= |c.done[|a.done|]| && c.done[|a.done|][..|a.current|] == a.current
          else |a.current| <= |c.current| && c.current[..|a.current|] == a.current)
  }

  lemma ExtendsRefl(a: Grouping)
    ensures Extends(a, a)
  {
    assert a.done[..|a.done|] == a.done && a.current[..|a.current|] == a.current;
  }

  /** Closing the current entry and starting a new one keeps what came before. */
  lemma ExtendsOpen(a: Grouping, c: Grouping, x: string)
    requires Extends(a, c)
    ensures Extends(a, Grouping(Close(c), [x]))
  {
    var n := |a.done|;
    assert Close(c)[..|c.done|] == c.done;
    assert Close(c)[..n] == c.done[..n];
    if n < |c.done| {
      assert Close(c)[n] == c.done[n];
    } else if a.current != [] {
      assert Close(c) == c.done + [c.current];
      assert Close(c)[n] == c.current;
    }
  }

  /** Adding a line to the current entry keeps what came before. */
  lemma ExtendsJoin(a: Grouping, c: Grouping, x: string)
    requires Extends(a, c)
    ensures Extends(a, Grouping(c.done, c.current + [x]))
  {
    if a.current != [] && |a.done| == |c.done| {
      assert (c.current + [x])[..|a.current|] == c.current[..|a.current|];
    }
  }

  /** A state that follows the start of an entry with `x` after the entries `d` stands for
      the entries `d`, then an entry starting with `x`. */
  lemma ExtendsStarts(d: seq<seq<string>>, x: string, c: Grouping)
    requires Extends(Grouping(d, [x]), c)
    ensures |d| < |Close(c)| && Close(c)[..|d|] == d && Close(c)[|d|][0] == x
  {
    if |d| < |c.done| {
      assert Close(c)[|d|] == c.done[|d|];
      assert c.done[|d|][..1] == [x];
    } else {
      assert c.current[..1] == [x];
      assert Close(c) == c.done + [c.current];
    }
    assert Close(c)[..|c.done|] == c.done;
  }

  /** Later states follow earlier ones. */
  lemma {:induction false} GroupPrefixExtends(lines: seq<string>, n: nat, m: nat)
    requires n <= m <= |lines|
    ensures Extends(GroupPrefix(lines, n), GroupPrefix(lines, m))
    decreases m - n
  {
    if m == n {
      ExtendsRefl(GroupPrefix(lines, n));
    } else {
      GroupPrefixExtends(lines, n, m - 1);
      var g, i := GroupPrefix(lines, m - 1), m - 1;
      if lines[i] != "" {
        if Opens(lines, i) && g.current != [] {
          ExtendsOpen(GroupPrefix(lines, n), g, lines[i]);
          assert Close(g) == g.done + [g.current];
        } else {
          ExtendsJoin(GroupPrefix(lines, n), g, lines[i]);
        }
      }
    }
  }

  /** A non-empty line that may open an entry closes the entries before it as they stand
      and starts the next one. */
  lemma OpenerStartsEntry(lines: seq<string>, i: nat)
    requires i < |lines| && lines[i] != "" && Opens(lines, i)
    ensures var before := Close(GroupPrefix(lines, i));
      |before| < |EntriesOf(lines)| && EntriesOf(lines)[..|before|] == before
      && EntriesOf(lines)[|before|] != [] && EntriesOf(lines)[|before|][0] == lines[i]
  {
    var g := GroupPrefix(lines, i);
    GroupPrefixGrouped(lines, i);
    assert GroupPrefix(lines, i + 1) == Grouping(Close(g), [lines[i]]);
    GroupPrefixExtends(lines, i + 1, |lines|);
    ExtendsStarts(Close(g), lines[i], GroupPrefix(lines, |lines|));
  }

  /** A line that does not open an entry never starts one (after the first). */
  lemma JoinsCurrent(lines: seq<string>, n: nat)
    requires 0 < n <= |lines| && lines[n - 1] != "" && !Opens(lines, n - 1)
    ensures GroupPrefix(lines, n).current == GroupPrefix(lines, n - 1).current + [lines[n - 1]]
    ensures GroupPrefix(lines, n).done == GroupPrefix(lines, n - 1).done
  {
  }

  /** The separator is a character class: a year followed by a word beginning with `t` or
      `o` reads as a date. */
  lemma YearThenLetter(line: string, i: nat)
    requires i + 5 <= |line| && AllDigits(line[i..i + 4]) && line[i + 4] in "to"
    ensures HasDate(line)
  {
    assert SkipSpace(line, i + 4) == i + 4;
    assert DateAt(line, i);
  }
}
