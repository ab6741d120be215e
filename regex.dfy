/** JavaScript regular expressions, as far as this program uses them: bracket classes, `.`,
    concatenation, alternation, greedy and lazy quantifiers, capturing groups, `\b`, `\B`,
    `^`, `$` and lookahead, with the `i` flag. The meaning follows the backtracking matcher
    of the ECMAScript standard (section 22.2.2): `Ends` lists every way a pattern can match
    at a position, in the order the backtracking matcher tries them, so the first entry is
    the match JavaScript reports. `Exec`, `Test`, `AllMatches` (with its texts,
    `MatchAllTexts`), `ReplaceAll` and `Split` are the library operations built on it. */
module Regex {
  import opened Text

  /** A bracket expression: inclusive code-point ranges, possibly negated (`[^...]`). */
  datatype CharSet = CharSet(ranges: seq<(char, char)>, negated: bool)

  datatype Re =
    | Class(chars: CharSet)
    | Dot
    | Literal(text: string)
    | Empty
    | Cat(first: Re, second: Re)
    | Alt(left: Re, right: Re)
    | Repeat(body: Re, min: nat, max: nat, bounded: bool, greedy: bool)
    | Group(index: nat, body: Re)
    | WordBoundary(positive: bool)
    | InputStart
    | InputEnd
    | Lookahead(body: Re, positive: bool)

  /** A regular expression literal with its `i` flag. */
  datatype Pattern = Pattern(re: Re, ignoreCase: bool)

  /** Capture start and end positions by group number. */
  type Captures = map<nat, (nat, nat)>

  datatype State = State(pos: nat, caps: Captures)

  /** A successful match: where it starts and ends, and what its groups captured. */
  datatype Match = Match(start: nat, end: nat, caps: Captures)

  function Size(r: Re): nat
  {
    match r
    case Cat(a, b) => 1 + Size(a) + Size(b)
    case Alt(a, b) => 1 + Size(a) + Size(b)
    case Repeat(b, mn, mx, bd, _) => 1 + Size(b) + mn + (if bd then mx else 0)
    case Group(_, b) => 1 + Size(b)
    case Lookahead(b, _) => 1 + Size(b)
    case _ => 1
  }

  /** The group numbers that occur in `r`. */
  function GroupsIn(r: Re): set<nat>
  {
    match r
    case Cat(a, b) => GroupsIn(a) + GroupsIn(b)
    case Alt(a, b) => GroupsIn(a) + GroupsIn(b)
    case Repeat(b, _, _, _, _) => GroupsIn(b)
    case Group(n, b) => {n} + GroupsIn(b)
    case Lookahead(b, _) => GroupsIn(b)
    case _ => {}
  }

  predicate InRanges(ranges: seq<(char, char)>, c: char)
  {
    exists k :: 0 <= k < |ranges| && ranges[k].0 <= c <= ranges[k].1
  }

  /** Whether character `c` belongs to the class; under the `i` flag a character also
      matches when its other-case form is in the class. */
  predicate ClassMatches(cs: CharSet, ignoreCase: bool, c: char)
  {
    var found := InRanges(cs.ranges, c)
      || (ignoreCase && (InRanges(cs.ranges, Lower(c)) || InRanges(cs.ranges, Upper(c))));
    found != cs.negated
  }

  /** Two runs of characters match: equal, or under the `i` flag equal once upper-cased. */
  predicate SameText(a: string, b: string, ignoreCase: bool)
  {
    if ignoreCase then ToUpper(a) == ToUpper(b) else a == b
  }

  /** `\b` holds between a word character and a non-word character (or an end). */
  predicate IsBoundary(s: string, i: nat)
    requires i <= |s|
  {
    var before := i > 0 && IsWordChar(s[i - 1]);
    var after := i < |s| && IsWordChar(s[i]);
    before != after
  }

  /** The states of `xs` that moved past position `p` (an iteration of a quantifier that
      may stop matching must not match the empty string). */
  function Advanced(xs: seq<State>, p: nat): (r: seq<State>)
    ensures forall x | x in r :: x in xs && x.pos > p
  {
    if xs == [] then []
    else if xs[0].pos > p then [xs[0]] + Advanced(xs[1..], p)
    else Advanced(xs[1..], p)
  }

  /** Every state in which `r` can finish when it starts in state `st`, in the order of
      the backtracking matcher (a preferred alternative and a greedy quantifier's longer
      iteration come first). */
  function Ends(r: Re, ic: bool, s: string, st: State): (es: seq<State>)
    requires st.pos <= |s|
    decreases |s| - st.pos, Size(r), 1
    ensures forall x | x in es :: st.pos <= x.pos <= |s|
  {
    match r
    case Class(cs) =>
      if st.pos < |s| && ClassMatches(cs, ic, s[st.pos]) then [State(st.pos + 1, st.caps)] else []
    case Dot =>
      if st.pos < |s| && !IsLineTerminator(s[st.pos]) then [State(st.pos + 1, st.caps)] else []
    case Literal(t) =>
      if st.pos + |t| <= |s| && SameText(s[st.pos..st.pos + |t|], t, ic) then [State(st.pos + |t|, st.caps)] else []
    case Empty => [st]
    case Cat(a, b) => ThenEnds(b, ic, s, Ends(a, ic, s, st), st.pos)
    case Alt(a, b) => Ends(a, ic, s, st) + Ends(b, ic, s, st)
    case Repeat(body, mn, mx, bd, greedy) =>
      if bd && mx == 0 then [st]
      else
        var once := Ends(body, ic, s, State(st.pos, st.caps - GroupsIn(body)));
        var rest := Repeat(body, if mn == 0 then 0 else mn - 1, if bd then mx - 1 else mx, bd, greedy);
        if mn > 0 then ThenEnds(rest, ic, s, once, st.pos)
        else
          var iters := Advanced(once, st.pos);
          var more := if iters == [] then [] else (assert iters[0] in iters; ThenEnds(rest, ic, s, iters, st.pos + 1));
          if greedy then more + [st] else [st] + more
    case Group(n, body) => Captured(n, st.pos, Ends(body, ic, s, st))
    case WordBoundary(positive) => if IsBoundary(s, st.pos) == positive then [st] else []
    case InputStart => if st.pos == 0 then [st] else []
    case InputEnd => if st.pos == |s| then [st] else []
    case Lookahead(body, positive) =>
      var xs := Ends(body, ic, s, st);
      if positive then (if xs != [] then [State(st.pos, xs[0].caps)] else [])
      else (if xs == [] then [st] else [])
  }

  /** Continuing every state of `xs`, in order, with `r`. */
  function ThenEnds(r: Re, ic: bool, s: string, xs: seq<State>, lo: nat): (es: seq<State>)
    requires lo <= |s|
    requires forall x | x in xs :: lo <= x.pos <= |s|
    decreases |s| - lo, Size(r), |xs| + 2
    ensures forall x | x in es :: lo <= x.pos <= |s|
  {
    if xs == [] then [] else Ends(r, ic, s, xs[0]) + ThenEnds(r, ic, s, xs[1..], lo)
  }

  /** Recording group `n` as running from `start` to where each state ended. */
  function Captured(n: nat, start: nat, xs: seq<State>): (es: seq<State>)
    ensures |es| == |xs|
    ensures forall k :: 0 <= k < |xs| ==> es[k].pos == xs[k].pos
  {
    if xs == [] then [] else [State(xs[0].pos, xs[0].caps[n := (start, xs[0].pos)])] + Captured(n, start, xs[1..])
  }

  predicate ValidMatch(m: Match, s: string)
  {
    m.start <= m.end <= |s|
  }

  /** The match JavaScript reports when the pattern is tried exactly at position `i`. */
  function MatchAt(p: Pattern, s: string, i: nat): (r: Option<Match>)
    requires i <= |s|
    ensures r.Some? ==> r.value.start == i && ValidMatch(r.value, s)
  {
    var es := Ends(p.re, p.ignoreCase, s, State(i, map[]));
    if es == [] then None else Some(Match(i, es[0].pos, es[0].caps))
  }

  /** `exec` from `lastIndex` = `from`: the leftmost position at or after `from` where the
      pattern matches. */
  function Exec(p: Pattern, s: string, from: nat): (r: Option<Match>)
    decreases |s| + 1 - from
    ensures r.Some? ==> from <= r.value.start <= |s| && MatchAt(p, s, r.value.start) == r
    ensures r.Some? ==> ValidMatch(r.value, s)
  {
    if from > |s| then None
    else
      var m := MatchAt(p, s, from);
      if m.Some? then m else Exec(p, s, from + 1)
  }

  /** The match `exec` reports is the leftmost one: the pattern matches at no earlier
      position, and when there is no match it matches nowhere from `from` on. */
  lemma {:induction false} ExecLeftmost(p: Pattern, s: string, from: nat)
    decreases |s| + 1 - from
    ensures Exec(p, s, from).Some? ==>
      forall j :: from <= j < Exec(p, s, from).value.start ==> MatchAt(p, s, j).None?
    ensures Exec(p, s, from).None? ==> forall j :: from <= j <= |s| ==> MatchAt(p, s, j).None?
  {
    if from <= |s| && MatchAt(p, s, from).None? {
      ExecLeftmost(p, s, from + 1);
    }
  }

  /** `s.match(p)` without the `g` flag. */
  function Search(p: Pattern, s: string): (r: Option<Match>)
    ensures r.Some? ==> ValidMatch(r.value, s)
  {
    Exec(p, s, 0)
  }

  /** `p.test(s)`. */
  predicate Test(p: Pattern, s: string)
  {
    Search(p, s).Some?
  }

  lemma TestIff(p: Pattern, s: string)
    ensures Test(p, s) <==> exists i :: 0 <= i <= |s| && MatchAt(p, s, i).Some?
  {
    ExecLeftmost(p, s, 0);
    if Test(p, s) {
      assert MatchAt(p, s, Search(p, s).value.start).Some?;
    }
  }

  /** `s.substring(i, j)` for valid bounds, and `''` otherwise. */
  function Slice(s: string, i: nat, j: nat): (r: string)
    ensures i <= j <= |s| ==> r == s[i..j]
  {
    if i <= j <= |s| then s[i..j] else ""
  }

  /** `match[0]`. */
  function MatchText(s: string, m: Match): string
  {
    Slice(s, m.start, m.end)
  }

  /** `match[n]`: `None` when group `n` did not take part in the match. */
  function GroupText(s: string, m: Match, n: nat): Option<string>
  {
    if n in m.caps then Some(Slice(s, m.caps[n].0, m.caps[n].1)) else None
  }

  /** `match[n] || ''`. */
  function GroupOr(s: string, m: Match, n: nat): string
  {
    match GroupText(s, m, n)
    case Some(t) => t
    case None => ""
  }

  /** `s.match(p)` text, or `None`. */
  function FirstText(p: Pattern, s: string): Option<string>
  {
    match Search(p, s)
    case Some(m) => Some(MatchText(s, m))
    case None => None
  }

  /** The matches a `g`-flag pattern finds from `lastIndex` = `from` on: after an empty
      match the search resumes one position further. */
  function AllFrom(p: Pattern, s: string, from: nat): (ms: seq<Match>)
    decreases |s| + 1 - from
    ensures forall m | m in ms :: ValidMatch(m, s) && from <= m.start
  {
    match Exec(p, s, from)
    case None => []
    case Some(m) => [m] + AllFrom(p, s, if m.end == m.start then m.end + 1 else m.end)
  }

  function AllMatches(p: Pattern, s: string): seq<Match>
  {
    AllFrom(p, s, 0)
  }

  function Texts(s: string, ms: seq<Match>): (r: seq<string>)
    ensures |r| == |ms|
    ensures forall k :: 0 <= k < |ms| ==> r[k] == MatchText(s, ms[k])
  {
    if ms == [] then [] else [MatchText(s, ms[0])] + Texts(s, ms[1..])
  }

  /** `s.match(p)` for a `g`-flag pattern: every match text (JavaScript gives `null` for
      none, which every caller here turns into `[]`). */
  function MatchAllTexts(p: Pattern, s: string): seq<string>
  {
    Texts(s, AllMatches(p, s))
  }

  function Assemble(s: string, ms: seq<Match>, next: nat, f: Match -> string): string
  {
    if ms == [] then Slice(s, next, |s|)
    else if next <= ms[0].start <= |s| then
      s[next..ms[0].start] + f(ms[0]) + Assemble(s, ms[1..], ms[0].end, f)
    else Assemble(s, ms[1..], next, f)
  }

  /** `s.replace(p, f)` for a `g`-flag pattern: every match replaced by `f` of it. */
  function ReplaceAll(p: Pattern, s: string, f: Match -> string): string
  {
    Assemble(s, AllMatches(p, s), 0, f)
  }

  /** `s.replace(p, f)` without the `g` flag: only the first match is replaced. */
  function ReplaceFirstMatch(p: Pattern, s: string, f: Match -> string): (r: string)
    ensures Search(p, s).None? ==> r == s
  {
    match Search(p, s)
    case None => s
    case Some(m) => s[..m.start] + f(m) + s[m.end..]
  }

  /** Replacement by a fixed string (the replacement has no `$` references). */
  function Const(t: string): Match -> string
  {
    (m: Match) => t
  }

  function SplitFrom(p: Pattern, s: string, last: nat, q: nat): (r: seq<string>)
    requires last <= q <= |s|
    decreases |s| - q, q - last
    ensures |r| >= 1
  {
    if q >= |s| then [s[last..]]
    else
      match MatchAt(p, s, q)
      case None => SplitFrom(p, s, last, q + 1)
      case Some(m) =>
        if m.end == last then SplitFrom(p, s, last, q + 1)
        else [s[last..q]] + SplitFrom(p, s, m.end, m.end)
  }

  /** `s.split(p)` (the `@@split` algorithm of the ECMAScript standard, section 22.2.6.14)
      for a pattern without capturing groups, which is how every split here is written (a
      pattern with groups would also splice its captures into the result). */
  function Split(p: Pattern, s: string): (r: seq<string>)
  {
    if s == [] then (if MatchAt(p, s, 0).Some? then [] else [s])
    else SplitFrom(p, s, 0, 0)
  }

  lemma {:induction false} SplitFromNoMatch(p: Pattern, s: string, last: nat, q: nat)
    requires last <= q <= |s|
    requires forall j :: q <= j < |s| ==> MatchAt(p, s, j).None?
    decreases |s| - q
    ensures SplitFrom(p, s, last, q) == [s[last..]]
  {
    if q < |s| {
      SplitFromNoMatch(p, s, last, q + 1);
    }
  }

  /** A pattern that matches nowhere leaves the string whole. */
  lemma SplitNoMatch(p: Pattern, s: string)
    requires forall j :: 0 <= j <= |s| ==> MatchAt(p, s, j).None?
    ensures Split(p, s) == [s]
  {
    if s != [] {
      SplitFromNoMatch(p, s, 0, 0);
    }
  }

  /** `exec` finds nothing when the pattern matches nowhere from `from` on. */
  lemma {:induction false} ExecNoMatch(p: Pattern, s: string, from: nat)
    requires forall j :: from <= j <= |s| ==> MatchAt(p, s, j).None?
    decreases |s| + 1 - from
    ensures Exec(p, s, from).None?
  {
    if from <= |s| {
      ExecNoMatch(p, s, from + 1);
    }
  }

  /** A global replacement of a pattern that matches nowhere leaves the string whole. */
  lemma ReplaceAllNoMatch(p: Pattern, s: string, f: Match -> string)
    requires forall j :: 0 <= j <= |s| ==> MatchAt(p, s, j).None?
    ensures ReplaceAll(p, s, f) == s
  {
    ExecNoMatch(p, s, 0);
  }

  /** A suffix is the slices it is cut into. */
  lemma SliceSplit(s: string, i: nat, j: nat, k: nat)
    requires i <= j <= k <= |s|
    ensures s[i..] == s[i..j] + s[j..k] + s[k..]
  {
  }

  /** Matches in order, none overlapping the one before it, the first at or after `next`. */
  predicate Chained(s: string, ms: seq<Match>, next: nat)
  {
    forall k :: 0 <= k < |ms| ==> Before(ms, next, k) <= ms[k].start <= ms[k].end <= |s|
  }

  /** Where the match `ms[k]` may start at the earliest: past the one before it. */
  function Before(ms: seq<Match>, next: nat, k: nat): nat
    requires k < |ms|
  {
    if k == 0 then next else ms[k - 1].end
  }

  /** Every match of `ms` is what the pattern reports at its start. */
  predicate Reported(p: Pattern, s: string, ms: seq<Match>)
  {
    forall k :: 0 <= k < |ms| ==> ms[k].start <= |s| && MatchAt(p, s, ms[k].start) == Some(ms[k])
  }

  /** A match that ends where a chain may begin heads a longer chain. */
  lemma ChainedCons(s: string, m: Match, rest: seq<Match>, next: nat)
    requires next <= m.start <= m.end <= |s| && Chained(s, rest, m.end)
    ensures Chained(s, [m] + rest, next)
  {
    var ms := [m] + rest;
    forall k | 0 <= k < |ms| ensures Before(ms, next, k) <= ms[k].start <= ms[k].end <= |s| {
      if k > 0 {
        assert ms[k] == rest[k - 1];
        assert Before(rest, m.end, k - 1) <= rest[k - 1].start;
      }
    }
  }

  /** Where a global search goes on after the match `m`: one past an empty match. */
  function AfterMatch(m: Match): nat
  {
    if m.end == m.start then m.end + 1 else m.end
  }

  /** A global search from `from` lists nothing, or a match starting at or after `from`
      followed by the search from past it. */
  lemma AllFromShape(p: Pattern, s: string, from: nat)
    ensures var ms := AllFrom(p, s, from);
      ms == [] || (from <= ms[0].start && ValidMatch(ms[0], s) && MatchAt(p, s, ms[0].start) == Some(ms[0])
                   && ms[1..] == AllFrom(p, s, AfterMatch(ms[0])))
  {
    match Exec(p, s, from)
    case None =>
    case Some(m) =>
      assert AllFrom(p, s, from) == [m] + AllFrom(p, s, AfterMatch(m));
  }

  /** The matches a global search lists are in order. */
  lemma {:induction false} AllFromChained(p: Pattern, s: string, from: nat, next: nat)
    requires next <= from
    decreases |s| + 1 - from
    ensures Chained(s, AllFrom(p, s, from), next)
  {
    AllFromShape(p, s, from);
    var ms := AllFrom(p, s, from);
    if ms != [] {
      AllFromChained(p, s, AfterMatch(ms[0]), ms[0].end);
      ChainedCons(s, ms[0], ms[1..], next);
      assert ms == [ms[0]] + ms[1..];
    }
  }

  /** Each match a global search lists is what the pattern reports at its start. */
  lemma {:induction false} AllFromReported(p: Pattern, s: string, from: nat)
    decreases |s| + 1 - from
    ensures Reported(p, s, AllFrom(p, s, from))
  {
    AllFromShape(p, s, from);
    var ms := AllFrom(p, s, from);
    if ms != [] {
      AllFromReported(p, s, AfterMatch(ms[0]));
      assert forall k :: 1 <= k < |ms| ==> ms[k] == ms[1..][k - 1];
    }
  }

  /** Putting back the text of every match of a chain rebuilds the string from `next`. */
  lemma {:induction false} AssembleKept(s: string, ms: seq<Match>, next: nat, f: Match -> string)
    requires next <= |s| && Chained(s, ms, next)
    requires forall k :: 0 <= k < |ms| ==> f(ms[k]) == MatchText(s, ms[k])
    ensures Assemble(s, ms, next, f) == s[next..]
  {
    if ms != [] {
      assert f(ms[0]) == s[ms[0].start..ms[0].end];
      assert Chained(s, ms[1..], ms[0].end) by {
        forall k | 0 <= k < |ms| - 1
          ensures Before(ms[1..], ms[0].end, k) <= ms[1..][k].start <= ms[1..][k].end <= |s|
        {
          assert ms[1..][k] == ms[k + 1];
          assert Before(ms, next, k + 1) <= ms[k + 1].start;
        }
      }
      AssembleKept(s, ms[1..], ms[0].end, f);
      assert Before(ms, next, 0) <= ms[0].start;
      SliceSplit(s, next, ms[0].start, ms[0].end);
    }
  }

  /** A global replacement that gives every match back its own text leaves the string
      whole. */
  lemma ReplaceAllSame(p: Pattern, s: string, f: Match -> string)
    requires forall j :: 0 <= j <= |s| && MatchAt(p, s, j).Some? ==>
      f(MatchAt(p, s, j).value) == MatchText(s, MatchAt(p, s, j).value)
    ensures ReplaceAll(p, s, f) == s
  {
    var ms := AllMatches(p, s);
    AllFromChained(p, s, 0, 0);
    AllFromReported(p, s, 0);
    forall k | 0 <= k < |ms| ensures f(ms[k]) == MatchText(s, ms[k]) {
      assert MatchAt(p, s, ms[k].start) == Some(ms[k]);
    }
    AssembleKept(s, ms, 0, f);
  }

  /** Continuing states with an expression that fails from each of them fails. */
  lemma {:induction false} ThenEndsNone(r: Re, ic: bool, s: string, xs: seq<State>, lo: nat)
    requires lo <= |s|
    requires forall x | x in xs :: lo <= x.pos <= |s|
    requires forall x | x in xs :: Ends(r, ic, s, x) == []
    decreases |xs|
    ensures ThenEnds(r, ic, s, xs, lo) == []
  {
    if xs != [] {
      assert xs[0] in xs;
      ThenEndsNone(r, ic, s, xs[1..], lo);
    }
  }

  /** One step of `Star(Class(cs))`: take a character of the class and go on, or stop. */
  lemma StarClassStep(cs: CharSet, ic: bool, s: string, st: State)
    requires st.pos <= |s|
    ensures st.pos < |s| && ClassMatches(cs, ic, s[st.pos]) ==>
      Ends(Star(Class(cs)), ic, s, st) == Ends(Star(Class(cs)), ic, s, State(st.pos + 1, st.caps - GroupsIn(Class(cs)))) + [st]
    ensures !(st.pos < |s| && ClassMatches(cs, ic, s[st.pos])) ==> Ends(Star(Class(cs)), ic, s, st) == [st]
  {
    var star := Star(Class(cs));
    var nx := State(st.pos + 1, st.caps - GroupsIn(Class(cs)));
    if st.pos < |s| && ClassMatches(cs, ic, s[st.pos]) {
      assert Ends(Class(cs), ic, s, State(st.pos, st.caps - GroupsIn(Class(cs)))) == [nx];
      assert Advanced([nx], st.pos) == [nx];
      assert ThenEnds(star, ic, s, [nx], st.pos + 1) == Ends(star, ic, s, nx) + ThenEnds(star, ic, s, [], st.pos + 1);
    }
  }

  /** Every character of `s[i..j]` is in the class. */
  predicate Spans(cs: CharSet, ic: bool, s: string, i: nat, j: nat)
    requires i <= j <= |s|
  {
    forall q :: i <= q < j ==> ClassMatches(cs, ic, s[q])
  }

  /** An end of `Star(Class(cs))` is where it starts, or an end of it one class character
      further on. */
  lemma StarClassEnd(cs: CharSet, ic: bool, s: string, st: State, e: State)
    requires st.pos <= |s|
    requires e in Ends(Star(Class(cs)), ic, s, st)
    ensures e == st || (st.pos < |s| && ClassMatches(cs, ic, s[st.pos]) &&
      e in Ends(Star(Class(cs)), ic, s, State(st.pos + 1, st.caps - GroupsIn(Class(cs)))))
  {
    StarClassStep(cs, ic, s, st);
  }

  /** A class character in front of a run of the class gives a longer run. */
  lemma SpansCons(cs: CharSet, ic: bool, s: string, i: nat, j: nat)
    requires i < j <= |s| && ClassMatches(cs, ic, s[i]) && Spans(cs, ic, s, i + 1, j)
    ensures Spans(cs, ic, s, i, j)
  {
  }

  /** `Star(Class(cs))` only runs over characters of the class. */
  lemma {:induction false} StarClassSpan(cs: CharSet, ic: bool, s: string, st: State, e: State)
    requires st.pos <= |s|
    requires e in Ends(Star(Class(cs)), ic, s, st)
    decreases |s| - st.pos
    ensures st.pos <= e.pos <= |s| && Spans(cs, ic, s, st.pos, e.pos)
  {
    StarClassEnd(cs, ic, s, st, e);
    if e != st {
      var nx := State(st.pos + 1, st.caps - GroupsIn(Class(cs)));
      StarClassSpan(cs, ic, s, nx, e);
      SpansCons(cs, ic, s, st.pos, e.pos);
    }
  }

  /** The characters of `\s` are white space. */
  lemma SpaceClassIsSpace(c: char)
    requires ClassMatches(CharSet(SpaceRanges, false), false, c)
    ensures IsSpace(c)
  {
    var k :| 0 <= k < |SpaceRanges| && SpaceRanges[k].0 <= c <= SpaceRanges[k].1;
  }

  /** `\s*c...` matches nowhere in a string without the character `c`. */
  lemma AbsentCharNoMatch(c: char, rest: Re, s: string, i: nat)
    requires i <= |s| && forall k :: 0 <= k < |s| ==> s[k] != c
    ensures MatchAt(Sensitive(Cat(Star(Space), Cat(Chr(c), rest))), s, i).None?
  {
    var xs := Ends(Star(Space), false, s, State(i, map[]));
    forall x | x in xs
      ensures Ends(Cat(Chr(c), rest), false, s, x) == []
    {
      ChrEnds(c, s, x);
    }
    ThenEndsNone(Cat(Chr(c), rest), false, s, xs, i);
  }

  /** A character that is not white space is outside `\s`. */
  lemma NonSpaceOutsideClass(c: char)
    requires !IsSpace(c)
    ensures !ClassMatches(CharSet(SpaceRanges, false), false, c)
  {
  }

  /** `\s*$` fails from a position before the end when the last character is not white
      space. */
  lemma SpaceThenEndNone(s: string, y: State)
    requires y.pos < |s| && !IsSpace(s[|s| - 1])
    ensures Ends(Cat(Star(Space), InputEnd), false, s, y) == []
  {
    var zs := Ends(Star(Space), false, s, y);
    NonSpaceOutsideClass(s[|s| - 1]);
    forall z | z in zs
      ensures Ends(InputEnd, false, s, z) == []
    {
      StarClassSpan(CharSet(SpaceRanges, false), false, s, y, z);
    }
    ThenEndsNone(InputEnd, false, s, zs, y.pos);
  }

  /** The class of one character matches that character and no other. */
  lemma ChrEnds(c: char, s: string, x: State)
    requires x.pos <= |s|
    ensures Ends(Chr(c), false, s, x) == if x.pos < |s| && s[x.pos] == c then [State(x.pos + 1, x.caps)] else []
  {
    var cs := CharSet([(c, c)], false);
    assert Chr(c) == Class(cs);
    if x.pos < |s| {
      if s[x.pos] == c {
        assert cs.ranges[0].0 <= s[x.pos] <= cs.ranges[0].1;
      }
      assert ClassMatches(cs, false, s[x.pos]) == (s[x.pos] == c);
    }
  }

  /** `c\s*$` fails from every state when the last character is neither `c` nor white
      space. */
  lemma CharThenEndNone(c: char, s: string, x: State)
    requires x.pos <= |s| && s != [] && s[|s| - 1] != c && !IsSpace(s[|s| - 1])
    ensures Ends(Cat(Chr(c), Cat(Star(Space), InputEnd)), false, s, x) == []
  {
    var tail := Cat(Star(Space), InputEnd);
    ChrEnds(c, s, x);
    var ys := Ends(Chr(c), false, s, x);
    assert Ends(Cat(Chr(c), tail), false, s, x) == ThenEnds(tail, false, s, ys, x.pos);
    if ys != [] {
      SpaceThenEndNone(s, ys[0]);
      assert ThenEnds(tail, false, s, ys, x.pos) == Ends(tail, false, s, ys[0]) + ThenEnds(tail, false, s, [], x.pos);
    }
  }

  /** `\s*c\s*$` matches nowhere in a string whose last character is neither `c` nor white
      space. */
  lemma TrailingCharNoMatch(c: char, s: string, i: nat)
    requires i <= |s| && s != [] && s[|s| - 1] != c && !IsSpace(s[|s| - 1])
    ensures MatchAt(Sensitive(Cat(Star(Space), Cat(Chr(c), Cat(Star(Space), InputEnd)))), s, i).None?
  {
    var xs := Ends(Star(Space), false, s, State(i, map[]));
    forall x | x in xs
      ensures Ends(Cat(Chr(c), Cat(Star(Space), InputEnd)), false, s, x) == []
    {
      CharThenEndNone(c, s, x);
    }
    ThenEndsNone(Cat(Chr(c), Cat(Star(Space), InputEnd)), false, s, xs, i);
  }

  /** White space is in `\s`. */
  lemma SpaceInClass(c: char)
    requires IsSpace(c)
    ensures ClassMatches(CharSet(SpaceRanges, false), false, c)
  {
    var k := if c == ' ' then 0 else if '\t' <= c <= '\r' then 1 else if c == '\U{00A0}' then 2
      else if c == '\U{1680}' then 3 else if c <= '\U{200A}' then 4 else if c <= '\U{2029}' then 5
      else if c == '\U{202F}' then 6 else if c == '\U{205F}' then 7 else if c == '\U{3000}' then 8 else 9;
    assert SpaceRanges[k].0 <= c <= SpaceRanges[k].1;
  }

  /** `\s+` at a lone space followed by other text matches just that space. */
  lemma PlusSpaceSingle(s: string, j: nat)
    requires j + 1 < |s| && IsSpace(s[j]) && !IsSpace(s[j + 1])
    ensures MatchAt(Sensitive(Plus(Space)), s, j) == Some(Match(j, j + 1, map[]))
  {
    var cs := CharSet(SpaceRanges, false);
    SpaceInClass(s[j]);
    NonSpaceOutsideClass(s[j + 1]);
    var y := State(j + 1, map[]);
    assert Ends(Space, false, s, State(j, map[])) == [y];
    StarClassStep(cs, false, s, y);
    assert Ends(Star(Space), false, s, y) == [y];
    assert ThenEnds(Star(Space), false, s, [y], j) == [y] + ThenEnds(Star(Space), false, s, [], j);
    assert Ends(Plus(Space), false, s, State(j, map[])) == [y];
  }

  /** `\s+` matches nowhere at a character that is not white space. */
  lemma PlusSpaceNone(s: string, j: nat)
    requires j <= |s| && (j < |s| ==> !IsSpace(s[j]))
    ensures MatchAt(Sensitive(Plus(Space)), s, j).None?
  {
    if j < |s| {
      NonSpaceOutsideClass(s[j]);
    }
    assert Ends(Space, false, s, State(j, map[])) == [];
    assert Ends(Plus(Space), false, s, State(j, map[])) == ThenEnds(Star(Space), false, s, [], j);
  }

  // ---------------------------------------------------------------------------
  // Building blocks for writing patterns

  function Chars(cs: string): Re
  {
    Class(CharSet(seq(|cs|, k requires 0 <= k < |cs| => (cs[k], cs[k])), false))
  }

  function NotChars(cs: string): Re
  {
    Class(CharSet(seq(|cs|, k requires 0 <= k < |cs| => (cs[k], cs[k])), true))
  }

  function Chr(c: char): Re { Chars([c]) }

  /** A literal string. */
  function Lit(t: string): Re { Literal(t) }

  function Seqs(rs: seq<Re>): Re
  {
    if rs == [] then Empty else if |rs| == 1 then rs[0] else Cat(rs[0], Seqs(rs[1..]))
  }

  /** A sequence of two or more expressions is the first followed by the rest. */
  lemma SeqsCons(r: Re, rs: seq<Re>)
    requires rs != []
    ensures Seqs([r] + rs) == Cat(r, Seqs(rs))
  {
    assert ([r] + rs)[1..] == rs;
  }

  function Alts(rs: seq<Re>): Re
  {
    if rs == [] then Empty else if |rs| == 1 then rs[0] else Alt(rs[0], Alts(rs[1..]))
  }

  /** Alternatives made of literal words. */
  function Words(ws: seq<string>): Re
  {
    if ws == [] then Empty else if |ws| == 1 then Lit(ws[0]) else Alt(Lit(ws[0]), Words(ws[1..]))
  }

  function Star(r: Re): Re { Repeat(r, 0, 0, false, true) }
  function Plus(r: Re): Re { Repeat(r, 1, 0, false, true) }
  function Opt(r: Re): Re { Repeat(r, 0, 1, true, true) }
  function LazyPlus(r: Re): Re { Repeat(r, 1, 0, false, false) }
  function Rep(r: Re, mn: nat, mx: nat): Re { Repeat(r, mn, mx, true, true) }
  function AtLeast(r: Re, mn: nat): Re { Repeat(r, mn, 0, false, true) }

  const Digit: Re := Class(CharSet([('0', '9')], false))
  const NonDigit: Re := Class(CharSet([('0', '9')], true))
  const WordCh: Re := Class(CharSet([('a', 'z'), ('A', 'Z'), ('0', '9'), ('_', '_')], false))
  const UpperCh: Re := Class(CharSet([('A', 'Z')], false))
  const LowerCh: Re := Class(CharSet([('a', 'z')], false))
  const LetterCh: Re := Class(CharSet([('A', 'Z'), ('a', 'z')], false))

  /** The code points of `\s`. */
  const SpaceRanges: seq<(char, char)> :=
    [(' ', ' '), ('\t', '\r'), ('\U{00A0}', '\U{00A0}'), ('\U{1680}', '\U{1680}'),
     ('\U{2000}', '\U{200A}'), ('\U{2028}', '\U{2029}'), ('\U{202F}', '\U{202F}'),
     ('\U{205F}', '\U{205F}'), ('\U{3000}', '\U{3000}'), ('\U{FEFF}', '\U{FEFF}')]

  const Space: Re := Class(CharSet(SpaceRanges, false))
  const NonSpace: Re := Class(CharSet(SpaceRanges, true))
  const B: Re := WordBoundary(true)

  /** A character set from explicit ranges plus single characters. */
  function Set(ranges: seq<(char, char)>, singles: string, negated: bool): Re
  {
    Class(CharSet(ranges + seq(|singles|, k requires 0 <= k < |singles| => (singles[k], singles[k])), negated))
  }

  function Sensitive(r: Re): Pattern { Pattern(r, false) }
  function Insensitive(r: Re): Pattern { Pattern(r, true) }
}
