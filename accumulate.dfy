/** The accumulator loop that three extractors share (`extractEducation`,
    `extractPublications`, `extractAwards`): lines are read in order, some are skipped, a line
    that opens a record closes the one being filled (if it has lines) and starts the next
    with the line's head, and any other line joins the record being filled. */
module Accumulate {
  import opened Lists
  import opened Entries
  import opened Extract

  /** What an extractor decides about a line: whether it is skipped, whether it opens a
      record given how many lines the current one holds, and what of it starts the record. */
  datatype Rule = Rule(skip: string -> bool, opens: (string, nat) -> bool, head: string -> string)

  /** The state after the first `n` lines. */
  function Accumulated(rule: Rule, lines: seq<string>, n: nat): (g: Grouping)
    requires n <= |lines|
    ensures g.current == [] ==> g.done == []
    ensures forall k :: 0 <= k < |g.done| ==> g.done[k] != []
  {
    if n == 0 then Grouping([], [])
    else
      var g, line := Accumulated(rule, lines, n - 1), lines[n - 1];
      if rule.skip(line) then g
      else if rule.opens(line, |g.current|) then
        Grouping(g.done + (if g.current != [] then [g.current] else []), [rule.head(line)])
      else Grouping(g.done, g.current + [line])
  }

  /** The groups of lines the loop hands on, the last one included. */
  function Groups(rule: Rule, lines: seq<string>): (r: seq<seq<string>>)
    ensures forall k :: 0 <= k < |r| ==> r[k] != []
  {
    Close(Accumulated(rule, lines, |lines|))
  }

  /** The lines the rule does not skip, in order. */
  function Retained(rule: Rule, lines: seq<string>): seq<string>
  {
    Select(lines, (l: string) => !rule.skip(l))
  }

  /** The retained lines are the lines not skipped, in order. */
  lemma RetainedDescribed(rule: Rule, lines: seq<string>)
    ensures IsSubsequence(Retained(rule, lines), lines)
    ensures forall k :: 0 <= k < |Retained(rule, lines)| ==> !rule.skip(Retained(rule, lines)[k])
    ensures forall k :: 0 <= k < |lines| && !rule.skip(lines[k]) ==> lines[k] in Retained(rule, lines)
  {
    SelectDescribed(lines, (l: string) => !rule.skip(l));
  }

  lemma RetainedSnoc(rule: Rule, lines: seq<string>, n: nat)
    requires 0 < n <= |lines|
    ensures Retained(rule, lines[..n])
      == Retained(rule, lines[..n - 1]) + (if rule.skip(lines[n - 1]) then [] else [lines[n - 1]])
  {
    assert lines[..n][..n - 1] == lines[..n - 1];
  }

  /** `xs` is `ys` with some elements replaced by their head. */
  predicate HeadsOf(rule: Rule, xs: seq<string>, ys: seq<string>)
  {
    |xs| == |ys| && forall i :: 0 <= i < |xs| ==> xs[i] == ys[i] || xs[i] == rule.head(ys[i])
  }

  lemma HeadsOfSnoc(rule: Rule, xs: seq<string>, ys: seq<string>, x: string, y: string)
    requires HeadsOf(rule, xs, ys) && (x == y || x == rule.head(y))
    ensures HeadsOf(rule, xs + [x], ys + [y])
  {
  }

  /** Line `i` opened a record: it was not skipped and the rule said so given the state it
      found. */
  predicate OpenedAt(rule: Rule, lines: seq<string>, i: nat)
    requires i < |lines|
  {
    !rule.skip(lines[i]) && rule.opens(lines[i], |Accumulated(rule, lines, i).current|)
  }

  /** What the loop keeps about its state after `n` lines: the lines of the groups are the
      retained lines in order, each either whole or cut to its head, and every group after
      the first starts with the head of a line that opened it. */
  predicate Accounts(rule: Rule, lines: seq<string>, n: nat, g: Grouping)
    requires n <= |lines|
  {
    (forall k :: 0 <= k < |Close(g)| ==> Close(g)[k] != [])
    && HeadsOf(rule, Flatten(Close(g)), Retained(rule, lines[..n]))
    && OpenersOf(rule, lines, n, Close(g))
  }

  /** Every group after the first starts with the head of a line before `n` that opened it. */
  predicate OpenersOf(rule: Rule, lines: seq<string>, n: nat, groups: seq<seq<string>>)
    requires n <= |lines|
  {
    forall k :: 1 <= k < |groups| ==>
      groups[k] != [] && exists i :: 0 <= i < n && OpenedAt(rule, lines, i) && groups[k][0] == rule.head(lines[i])
  }

  /** A group opened by line `n - 1` keeps the openers accounted for. */
  lemma OpenersOpen(rule: Rule, lines: seq<string>, n: nat, groups: seq<seq<string>>)
    requires 0 < n <= |lines| && OpenersOf(rule, lines, n - 1, groups) && OpenedAt(rule, lines, n - 1)
    ensures OpenersOf(rule, lines, n, groups + [[rule.head(lines[n - 1])]])
  {
    var h := groups + [[rule.head(lines[n - 1])]];
    forall k | 1 <= k < |h|
      ensures h[k] != [] && exists i :: 0 <= i < n && OpenedAt(rule, lines, i) && h[k][0] == rule.head(lines[i])
    {
      if k < |groups| {
        assert h[k] == groups[k];
        var i :| 0 <= i < n - 1 && OpenedAt(rule, lines, i) && groups[k][0] == rule.head(lines[i]);
      } else {
        assert h[k][0] == rule.head(lines[n - 1]);
      }
    }
  }

  lemma {:induction false} AccumulatedAccounts(rule: Rule, lines: seq<string>, n: nat)
    requires n <= |lines|
    ensures Accounts(rule, lines, n, Accumulated(rule, lines, n))
  {
    if n > 0 {
      var i := n - 1;
      var g := Accumulated(rule, lines, i);
      AccumulatedAccounts(rule, lines, i);
      RetainedSnoc(rule, lines, n);
      if !rule.skip(lines[i]) {
        if rule.opens(lines[i], |g.current|) {
          StepOpen(rule, lines, n, g);
        } else {
          StepJoin(rule, lines, n, g);
        }
      }
    } else {
      assert Retained(rule, lines[..0]) == [];
    }
  }

  /** An opening line closes the current group (if it has lines) and starts the next. */
  lemma StepOpen(rule: Rule, lines: seq<string>, n: nat, g: Grouping)
    requires 0 < n <= |lines| && g == Accumulated(rule, lines, n - 1)
    requires Accounts(rule, lines, n - 1, g) && OpenedAt(rule, lines, n - 1)
    requires Retained(rule, lines[..n]) == Retained(rule, lines[..n - 1]) + [lines[n - 1]]
    ensures Accounts(rule, lines, n, Grouping(g.done + (if g.current != [] then [g.current] else []), [rule.head(lines[n - 1])]))
  {
    var line, first := lines[n - 1], rule.head(lines[n - 1]);
    var h := Grouping(g.done + (if g.current != [] then [g.current] else []), [first]);
    var cg, ch := Close(g), Close(h);
    assert ch == cg + [[first]];
    FlattenSnoc(cg, [first]);
    HeadsOfSnoc(rule, Flatten(cg), Retained(rule, lines[..n - 1]), first, line);
    assert HeadsOf(rule, Flatten(ch), Retained(rule, lines[..n]));
    assert forall k :: 0 <= k < |ch| ==> ch[k] != [] by {
      forall k | 0 <= k < |ch| ensures ch[k] != [] {
        if k < |cg| {
          assert ch[k] == cg[k];
        }
      }
    }
    OpenersOpen(rule, lines, n, cg);
  }

  /** Any other retained line joins the current group. */
  lemma StepJoin(rule: Rule, lines: seq<string>, n: nat, g: Grouping)
    requires 0 < n <= |lines| && g == Accumulated(rule, lines, n - 1)
    requires Accounts(rule, lines, n - 1, g)
    requires Retained(rule, lines[..n]) == Retained(rule, lines[..n - 1]) + [lines[n - 1]]
    ensures Accounts(rule, lines, n, Grouping(g.done, g.current + [lines[n - 1]]))
  {
    var line := lines[n - 1];
    var h := Grouping(g.done, g.current + [line]);
    assert Flatten(Close(h)) == Flatten(Close(g)) + [line] by {
      assert Close(h) == g.done + [g.current + [line]];
      FlattenSnoc(g.done, g.current + [line]);
      if g.current != [] {
        assert Close(g) == g.done + [g.current];
        FlattenSnoc(g.done, g.current);
      } else {
        assert Close(g) == g.done;
      }
    }
    assert HeadsOf(rule, Flatten(Close(h)), Retained(rule, lines[..n])) by {
      HeadsOfSnoc(rule, Flatten(Close(g)), Retained(rule, lines[..n - 1]), line, line);
    }
    assert forall k :: 0 <= k < |Close(h)| ==> Close(h)[k] != [] by {
      assert Close(h) == g.done + [g.current + [line]];
    }
    OpenersJoin(rule, lines, n, g, line);
  }

  /** A line joining the current group keeps the openers accounted for. */
  lemma OpenersJoin(rule: Rule, lines: seq<string>, n: nat, g: Grouping, line: string)
    requires 0 < n <= |lines| && OpenersOf(rule, lines, n - 1, Close(g)) && (g.current == [] ==> g.done == [])
    ensures OpenersOf(rule, lines, n, Close(Grouping(g.done, g.current + [line])))
  {
    var cg, ch := Close(g), Close(Grouping(g.done, g.current + [line]));
    assert ch == g.done + [g.current + [line]];
    forall k | 1 <= k < |ch|
      ensures ch[k] != [] && exists i :: 0 <= i < n && OpenedAt(rule, lines, i) && ch[k][0] == rule.head(lines[i])
    {
      assert cg == g.done + [g.current];
      assert ch[k][0] == cg[k][0];
      var i :| 0 <= i < n - 1 && OpenedAt(rule, lines, i) && cg[k][0] == rule.head(lines[i]);
    }
  }

  /** The lines line `i` adds to the groups: none when it is skipped, its head when it opens
      a group, and the line itself when it joins one. */
  function Emitted(rule: Rule, lines: seq<string>, i: nat): seq<string>
    requires i < |lines|
  {
    if rule.skip(lines[i]) then []
    else if rule.opens(lines[i], |Accumulated(rule, lines, i).current|) then [rule.head(lines[i])]
    else [lines[i]]
  }

  lemma FlattenStep(rule: Rule, lines: seq<string>, n: nat)
    requires 0 < n <= |lines|
    ensures Flatten(Close(Accumulated(rule, lines, n)))
      == Flatten(Close(Accumulated(rule, lines, n - 1))) + Emitted(rule, lines, n - 1)
  {
    var g, line := Accumulated(rule, lines, n - 1), lines[n - 1];
    if !rule.skip(line) {
      if rule.opens(line, |g.current|) {
        var h := Accumulated(rule, lines, n);
        assert Close(h) == Close(g) + [[rule.head(line)]];
        FlattenSnoc(Close(g), [rule.head(line)]);
      } else {
        var h := Accumulated(rule, lines, n);
        assert Close(h) == g.done + [g.current + [line]];
        FlattenSnoc(g.done, g.current + [line]);
        if g.current != [] {
          assert Close(g) == g.done + [g.current];
          FlattenSnoc(g.done, g.current);
        } else {
          assert Close(g) == g.done;
        }
      }
    }
  }

  /** The retained lines of a rule whose opening test looks only at the line, each cut to
      its head when it opens a group. */
  function Marked(rule: Rule, ys: seq<string>): (r: seq<string>)
    ensures |r| == |ys|
  {
    seq(|ys|, i requires 0 <= i < |ys| => if rule.opens(ys[i], 0) then rule.head(ys[i]) else ys[i])
  }

  lemma MarkedSnoc(rule: Rule, ys: seq<string>, y: string)
    ensures Marked(rule, ys + [y]) == Marked(rule, ys) + [if rule.opens(y, 0) then rule.head(y) else y]
  {
  }

  /** For such a rule, the groups' lines are exactly the retained lines with every opening
      line cut to its head. */
  lemma {:induction false} FlattenMarked(rule: Rule, lines: seq<string>, n: nat)
    requires n <= |lines|
    requires forall l: string, m: nat :: rule.opens(l, m) == rule.opens(l, 0)
    ensures Flatten(Close(Accumulated(rule, lines, n))) == Marked(rule, Retained(rule, lines[..n]))
  {
    if n > 0 {
      FlattenMarked(rule, lines, n - 1);
      FlattenStep(rule, lines, n);
      RetainedSnoc(rule, lines, n);
      var line := lines[n - 1];
      var before := Retained(rule, lines[..n - 1]);
      if !rule.skip(line) {
        MarkedSnoc(rule, before, line);
        assert rule.opens(line, |Accumulated(rule, lines, n - 1).current|) == rule.opens(line, 0);
      }
    } else {
      assert Retained(rule, lines[..0]) == [];
    }
  }

  /** With no line skipped, every line is retained. */
  lemma {:induction false} RetainedAll(rule: Rule, lines: seq<string>)
    requires forall l :: !rule.skip(l)
    ensures Retained(rule, lines) == lines
  {
    if lines != [] {
      RetainedAll(rule, lines[..|lines| - 1]);
      assert lines == lines[..|lines| - 1] + [lines[|lines| - 1]];
    } else {
      assert Retained(rule, lines) == [];
    }
  }

  /** Every group has a line; the groups' lines are the retained lines in order, each either
      whole or cut to its head; and every group after the first starts with the head of a
      line that opened it. */
  lemma GroupsDescribed(rule: Rule, lines: seq<string>)
    ensures forall k :: 0 <= k < |Groups(rule, lines)| ==> Groups(rule, lines)[k] != []
    ensures HeadsOf(rule, Flatten(Groups(rule, lines)), Retained(rule, lines))
    ensures forall k :: 1 <= k < |Groups(rule, lines)| ==>
      exists i :: 0 <= i < |lines| && OpenedAt(rule, lines, i) && Groups(rule, lines)[k][0] == rule.head(lines[i])
  {
    AccumulatedAccounts(rule, lines, |lines|);
    assert lines[..|lines|] == lines;
  }

  /** The converse: every line that opened a group starts the group that follows those
      before it. */
  lemma OpenersStartGroups(rule: Rule, lines: seq<string>)
    ensures forall i :: 0 <= i < |lines| && OpenedAt(rule, lines, i) ==>
      |Close(Accumulated(rule, lines, i))| < |Groups(rule, lines)|
      && Groups(rule, lines)[|Close(Accumulated(rule, lines, i))|][0] == rule.head(lines[i])
  {
    forall i | 0 <= i < |lines| && OpenedAt(rule, lines, i)
      ensures |Close(Accumulated(rule, lines, i))| < |Groups(rule, lines)|
      ensures Groups(rule, lines)[|Close(Accumulated(rule, lines, i))|][0] == rule.head(lines[i])
    {
      OpenerStartsGroup(rule, lines, i);
    }
  }

  /** Later states follow earlier ones. */
  lemma {:induction false} AccumulatedExtends(rule: Rule, lines: seq<string>, n: nat, m: nat)
    requires n <= m <= |lines|
    ensures Extends(Accumulated(rule, lines, n), Accumulated(rule, lines, m))
    decreases m - n
  {
    if m == n {
      ExtendsRefl(Accumulated(rule, lines, n));
    } else {
      AccumulatedExtends(rule, lines, n, m - 1);
      var g, line := Accumulated(rule, lines, m - 1), lines[m - 1];
      if !rule.skip(line) {
        if rule.opens(line, |g.current|) {
          ExtendsOpen(Accumulated(rule, lines, n), g, rule.head(line));
        } else {
          ExtendsJoin(Accumulated(rule, lines, n), g, line);
        }
      }
    }
  }

  /** A line that opens a record closes the groups before it as they stand and starts the
      next group with its head. */
  lemma OpenerStartsGroup(rule: Rule, lines: seq<string>, i: nat)
    requires i < |lines| && OpenedAt(rule, lines, i)
    ensures var before := Close(Accumulated(rule, lines, i));
      |before| < |Groups(rule, lines)| && Groups(rule, lines)[..|before|] == before
      && Groups(rule, lines)[|before|][0] == rule.head(lines[i])
  {
    var g := Accumulated(rule, lines, i);
    assert Accumulated(rule, lines, i + 1) == Grouping(Close(g), [rule.head(lines[i])]);
    AccumulatedExtends(rule, lines, i + 1, |lines|);
    ExtendsStarts(Close(g), rule.head(lines[i]), Accumulated(rule, lines, |lines|));
  }

  /** When the head of a line is the line itself, the groups' lines are exactly the
      retained lines. */
  lemma GroupsKeepLines(rule: Rule, lines: seq<string>)
    requires forall l :: rule.head(l) == l
    ensures Flatten(Groups(rule, lines)) == Retained(rule, lines)
  {
    GroupsDescribed(rule, lines);
  }

  /** The elements `filter` keeps share every property all the elements have. */
  lemma SelectInherits<T>(xs: seq<T>, keep: T -> bool, p: T -> bool)
    requires forall k :: 0 <= k < |xs| ==> p(xs[k])
    ensures forall k :: 0 <= k < |Select(xs, keep)| ==> p(Select(xs, keep)[k])
  {
    SelectDescribed(xs, keep);
    SubsequenceMembers(Select(xs, keep), xs);
  }

  /** The groups `keep` accepts, in order. */
  function KeptGroups(rule: Rule, lines: seq<string>, keep: seq<string> -> bool): (r: seq<seq<string>>)
    ensures forall k :: 0 <= k < |r| ==> r[k] != []
  {
    SelectInherits(Groups(rule, lines), keep, g => g != []);
    Select(Groups(rule, lines), keep)
  }

  /** The loops of `extractEducation` and `extractAwards` drop no group. */
  predicate KeepAll(group: seq<string>)
  {
    true
  }

  lemma KeptAll(rule: Rule, lines: seq<string>)
    ensures KeptGroups(rule, lines, KeepAll) == Groups(rule, lines)
  {
    SelectAll(Groups(rule, lines), KeepAll);
  }

  /** Closing group `c`: when `keep` accepts it, its record joins the end with the next
      identifier, and otherwise the records stay as they were. */
  lemma PushStep<T>(done: seq<seq<string>>, c: seq<string>, keep: seq<string> -> bool, parse: seq<string> -> T,
                    withId: (T, string) -> T, ids: IdSupply, next: nat)
    ensures Parsed(Select(done + [c], keep), parse, withId, ids, next)
      == Parsed(Select(done, keep), parse, withId, ids, next)
         + (if keep(c) then [withId(parse(c), ids(next + |Select(done, keep)|))] else [])
  {
    SelectSnoc(done, c, keep);
    if keep(c) {
      ParsedSnoc(Select(done, keep), c, parse, withId, ids, next);
    } else {
      assert Select(done + [c], keep) == Select(done, keep);
    }
  }

  /** What becomes of a finished group: whether it is kept, how it is parsed and how the
      parsed record takes its identifier. */
  datatype Sink<!T> = Sink(keep: seq<string> -> bool, parse: seq<string> -> T, withId: (T, string) -> T,
                          ids: IdSupply, next: nat)

  /** The records after finished group `c` is handed on. */
  function Pushed<T>(sink: Sink<T>, records: seq<T>, c: seq<string>): seq<T>
  {
    if c != [] && sink.keep(c) then records + [sink.withId(sink.parse(c), sink.ids(sink.next + |records|))]
    else records
  }

  /** The loop's own state after the first `n` lines: the group being filled and the
      records pushed so far. */
  function Fed<T>(rule: Rule, sink: Sink<T>, lines: seq<string>, n: nat): (seq<string>, seq<T>)
    requires n <= |lines|
  {
    if n == 0 then ([], [])
    else
      var (current, records) := Fed(rule, sink, lines, n - 1);
      var line := lines[n - 1];
      if rule.skip(line) then (current, records)
      else if rule.opens(line, |current|) then ([rule.head(line)], Pushed(sink, records, current))
      else (current + [line], records)
  }

  /** Handing on finished group `c` extends the records of the kept groups before it by
      its own, parsed and numbered when it is kept. */
  lemma PushedAgrees<T>(sink: Sink<T>, records: seq<T>, done: seq<seq<string>>, c: seq<string>)
    requires records == Parsed(Select(done, sink.keep), sink.parse, sink.withId, sink.ids, sink.next)
    requires c != []
    ensures Pushed(sink, records, c)
      == Parsed(Select(done + [c], sink.keep), sink.parse, sink.withId, sink.ids, sink.next)
  {
    PushStep(done, c, sink.keep, sink.parse, sink.withId, sink.ids, sink.next);
  }

  /** The records pushed so far are the kept finished groups, parsed and numbered. */
  lemma {:induction false} FedAgrees<T>(rule: Rule, sink: Sink<T>, lines: seq<string>, n: nat)
    requires n <= |lines|
    ensures Fed(rule, sink, lines, n).0 == Accumulated(rule, lines, n).current
    ensures Fed(rule, sink, lines, n).1
      == Parsed(Select(Accumulated(rule, lines, n).done, sink.keep), sink.parse, sink.withId, sink.ids, sink.next)
  {
    if n > 0 {
      FedAgrees(rule, sink, lines, n - 1);
      var g, line := Accumulated(rule, lines, n - 1), lines[n - 1];
      var records := Fed(rule, sink, lines, n - 1).1;
      if !rule.skip(line) && rule.opens(line, |g.current|) && g.current != [] {
        PushedAgrees(sink, records, g.done, g.current);
        assert Accumulated(rule, lines, n).done == g.done + [g.current];
      } else {
        assert Accumulated(rule, lines, n).done == g.done;
        assert Fed(rule, sink, lines, n).1 == records;
      }
    } else {
      assert Select(Accumulated(rule, lines, 0).done, sink.keep) == [];
    }
  }

  /** Once every line is read, handing on the last group leaves the records of all the kept
      groups. */
  lemma FedFinished<T>(rule: Rule, sink: Sink<T>, lines: seq<string>)
    ensures var (current, records) := Fed(rule, sink, lines, |lines|);
      Pushed(sink, records, current)
        == Parsed(KeptGroups(rule, lines, sink.keep), sink.parse, sink.withId, sink.ids, sink.next)
  {
    FedAgrees(rule, sink, lines, |lines|);
    var g := Accumulated(rule, lines, |lines|);
    if g.current != [] {
      PushedAgrees(sink, Fed(rule, sink, lines, |lines|).1, g.done, g.current);
    }
  }

  /** The accumulator loop: lines are read in order under `rule`, and every finished group
      that `keep` accepts is parsed and pushed with the next identifier. */
  method Collect<T>(rule: Rule, lines: seq<string>, keep: seq<string> -> bool, parse: seq<string> -> T,
                    withId: (T, string) -> T, ids: IdSupply, next: nat) returns (records: seq<T>)
    ensures records == Parsed(KeptGroups(rule, lines, keep), parse, withId, ids, next)
  {
    ghost var sink := Sink(keep, parse, withId, ids, next);
    records := [];
    var current: seq<string> := [];
    for i := 0 to |lines|
      invariant (current, records) == Fed(rule, sink, lines, i)
    {
      var line := lines[i];
      if !rule.skip(line) {
        if rule.opens(line, |current|) {
          if |current| > 0 && keep(current) {
            records := records + [withId(parse(current), ids(next + |records|))];
          }
          current := [rule.head(line)];
        } else {
          current := current + [line];
        }
      }
    }
    FedFinished(rule, sink, lines);
    if |current| > 0 && keep(current) {
      records := records + [withId(parse(current), ids(next + |records|))];
    }
  }
}
