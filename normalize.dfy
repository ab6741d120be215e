/** `normalizeText`: the clean-up applied to the whole extracted text, as five global
    replacements run one after the other:
      1. a single letter, white space, and two or more lower-case letters are joined when the
         joined word is a prefix of one of the common words;
      2. two or three letters, white space, and three or more lower-case letters are joined when
         the joined word is one of the common words;
      3. runs of two or more white-space characters become one space;
      4. white space before `. , ; : ! ?` is removed;
      5. the white space after an isolated capital letter followed by four lower-case letters is
         removed.
    Each pattern is matched here by a hand-written scanner that follows the regular
    expression's leftmost, greedy reading. */
module Normalize {
  import opened Text

  const COMMON_WORDS: seq<string> := [
    "professional", "experience", "education", "university", "bachelor", "master",
    "development", "management", "engineering", "technology", "computer", "science",
    "business", "administration", "associate", "certificate", "leadership", "volunteer",
    "organization", "achievement", "accomplishment", "publication", "presentation",
    "conference", "responsible", "communication", "collaboration", "implementation",
    "international", "department", "foundation", "scholarship", "fellowship", "research",
    "analysis", "analytical", "strategic", "operations", "performance", "excellent",
    "expertise", "proficiency", "environment", "application", "architecture", "software"]

  /** The punctuation that step 4 pulls back onto the preceding word. */
  predicate IsClausePunct(c: char)
  {
    c == '.' || c == ',' || c == ';' || c == ':' || c == '!' || c == '?'
  }

  // ---------------------------------------------------------------------------
  // Deleting white space
  // ---------------------------------------------------------------------------

  /** `r` is `s` with some of its white-space characters deleted and nothing else changed. */
  predicate SpaceDeletion(s: string, r: string)
    decreases |s|
  {
    if s == [] then r == []
    else
      (r != [] && r[0] == s[0] && SpaceDeletion(s[1..], r[1..]))
      || (IsSpace(s[0]) && SpaceDeletion(s[1..], r))
  }

  /** The characters of `s` other than white space, in order. */
  function NonSpace(s: string): (r: string)
    ensures forall k :: 0 <= k < |r| ==> !IsSpace(r[k])
  {
    if s == [] then [] else (if IsSpace(s[0]) then [] else [s[0]]) + NonSpace(s[1..])
  }

  /** No white-space character of `s` is directly followed by a character `next` accepts. */
  predicate NoSpaceBefore(s: string, next: char -> bool)
  {
    forall i :: 0 <= i < |s| - 1 ==> !(IsSpace(s[i]) && next(s[i + 1]))
  }

  lemma {:induction false} NonSpaceConcat(a: string, b: string)
    ensures NonSpace(a + b) == NonSpace(a) + NonSpace(b)
  {
    if a != [] {
      assert (a + b)[0] == a[0] && (a + b)[1..] == a[1..] + b;
      NonSpaceConcat(a[1..], b);
    } else {
      assert a + b == b;
    }
  }

  lemma {:induction false} NonSpaceOfSpaces(s: string)
    requires AllSpace(s)
    ensures NonSpace(s) == []
  {
    if s != [] {
      NonSpaceOfSpaces(s[1..]);
    }
  }

  lemma {:induction false} DeletionRefl(s: string)
    ensures SpaceDeletion(s, s)
  {
    if s != [] {
      DeletionRefl(s[1..]);
    }
  }

  lemma {:induction false} DeleteAllSpaces(s: string)
    requires AllSpace(s)
    ensures SpaceDeletion(s, [])
  {
    if s != [] {
      DeleteAllSpaces(s[1..]);
    }
  }

  lemma {:induction false} DeletionConcat(a: string, b: string, c: string, d: string)
    requires SpaceDeletion(a, b) && SpaceDeletion(c, d)
    ensures SpaceDeletion(a + c, b + d)
    decreases |a|
  {
    if a == [] {
      assert a + c == c && b + d == d;
    } else {
      assert (a + c)[0] == a[0] && (a + c)[1..] == a[1..] + c;
      if b != [] && b[0] == a[0] && SpaceDeletion(a[1..], b[1..]) {
        DeletionConcat(a[1..], b[1..], c, d);
        assert (b + d)[0] == b[0] && (b + d)[1..] == b[1..] + d;
      } else {
        DeletionConcat(a[1..], b, c, d);
      }
    }
  }

  /** Deleting white space from a gap in the middle. */
  lemma DeleteGap(x: string, gap: string, y: string)
    requires AllSpace(gap)
    ensures SpaceDeletion(x + gap + y, x + y)
  {
    DeletionRefl(x);
    DeletionRefl(y);
    DeleteAllSpaces(gap);
    DeletionConcat(gap, [], y, y);
    assert [] + y == y;
    DeletionConcat(x, x, gap + y, y);
    assert x + gap + y == x + (gap + y);
  }

  lemma {:induction false} DeletionKeepsNonSpace(s: string, r: string)
    requires SpaceDeletion(s, r)
    ensures NonSpace(r) == NonSpace(s)
    decreases |s|
  {
    if s != [] {
      if r != [] && r[0] == s[0] && SpaceDeletion(s[1..], r[1..]) {
        DeletionKeepsNonSpace(s[1..], r[1..]);
      } else {
        DeletionKeepsNonSpace(s[1..], r);
      }
    }
  }

  /** The first character left after a deletion is preceded in `s` by white space only. */
  lemma {:induction false} DeletionFirst(s: string, r: string)
    requires SpaceDeletion(s, r) && r != []
    ensures exists j :: 0 <= j < |s| && s[j] == r[0] && AllSpace(s[..j])
    decreases |s|
  {
    if r[0] == s[0] && SpaceDeletion(s[1..], r[1..]) {
      assert s[..0] == [];
    } else {
      DeletionFirst(s[1..], r);
      var j :| 0 <= j < |s[1..]| && s[1..][j] == r[0] && AllSpace(s[1..][..j]);
      assert s[..j + 1] == [s[0]] + s[1..][..j];
    }
  }

  /** Deleting white space never puts white space directly before a character that did not
      have it before. */
  lemma {:induction false} DeletionKeepsNoSpaceBefore(s: string, r: string, next: char -> bool)
    requires SpaceDeletion(s, r) && NoSpaceBefore(s, next)
    ensures NoSpaceBefore(r, next)
    decreases |s|
  {
    if s != [] {
      assert NoSpaceBefore(s[1..], next) by {
        forall i | 0 <= i < |s[1..]| - 1 ensures !(IsSpace(s[1..][i]) && next(s[1..][i + 1])) {
          assert s[1..][i] == s[i + 1] && s[1..][i + 1] == s[i + 2];
        }
      }
      if r != [] && r[0] == s[0] && SpaceDeletion(s[1..], r[1..]) {
        DeletionKeepsNoSpaceBefore(s[1..], r[1..], next);
        if |r| > 1 && IsSpace(r[0]) {
          DeletionFirst(s[1..], r[1..]);
          var j :| 0 <= j < |s[1..]| && s[1..][j] == r[1] && AllSpace(s[1..][..j]);
          if j == 0 {
            assert s[1] == r[1];
          } else {
            assert s[j] == s[1..][j - 1] && IsSpace(s[j]) && s[j + 1] == r[1];
          }
        }
        forall i | 0 <= i < |r| - 1 ensures !(IsSpace(r[i]) && next(r[i + 1])) {
          if i > 0 {
            assert r[i] == r[1..][i - 1] && r[i + 1] == r[1..][i];
          }
        }
      } else {
        DeletionKeepsNoSpaceBefore(s[1..], r, next);
      }
    }
  }

  // ---------------------------------------------------------------------------
  // Scanning
  // ---------------------------------------------------------------------------

  /** The end of the run of characters accepted by `p` that starts at `j`. */
  function RunEnd(s: string, j: nat, p: char -> bool): (e: nat)
    requires j <= |s|
    ensures j <= e <= |s|
    ensures forall q :: j <= q < e ==> p(s[q])
    ensures e < |s| ==> !p(s[e])
    decreases |s| - j
  {
    if j == |s| || !p(s[j]) then j else RunEnd(s, j + 1, p)
  }

  /** `\b` before the word character at `i`. */
  predicate WordStart(s: string, i: nat)
    requires i <= |s|
  {
    i == 0 || !IsWordChar(s[i - 1])
  }

  /** `\b` after the word character at `k - 1`. */
  predicate WordStop(s: string, k: nat)
    requires k <= |s|
  {
    k == |s| || !IsWordChar(s[k])
  }

  /** A match of a global replacement: where it ends and what replaces it. */
  datatype Hit = Hit(end: nat, piece: string)

  /** A match at `p` is non-empty, inside `s`, and is replaced by deleting white space. */
  predicate Fits(s: string, p: nat, h: Option<Hit>)
  {
    h.Some? ==> p < h.value.end <= |s| && SpaceDeletion(s[p..h.value.end], h.value.piece)
  }

  /** A global replacement from position `i` on: a match at `i` is replaced and the scan
      resumes at its end; otherwise the character is kept and the scan moves on by one. */
  function ReplaceScan(s: string, i: nat, at: nat -> Option<Hit>): (r: string)
    requires i <= |s|
    requires forall p :: i <= p < |s| ==> Fits(s, p, at(p))
    ensures SpaceDeletion(s[i..], r)
    decreases |s| - i
  {
    if i == |s| then ""
    else
      assert Fits(s, i, at(i));
      match at(i)
      case Some(h) =>
        var rest := ReplaceScan(s, h.end, at);
        assert s[i..] == s[i..h.end] + s[h.end..];
        DeletionConcat(s[i..h.end], h.piece, s[h.end..], rest);
        h.piece + rest
      case None =>
        var rest := ReplaceScan(s, i + 1, at);
        assert s[i..][0] == s[i] && s[i..][1..] == s[i + 1..];
        [s[i]] + rest
  }

  // ---------------------------------------------------------------------------
  // Steps 1 and 2: words split by the extraction
  // ---------------------------------------------------------------------------

  /** Step 1's test: the joined, lower-cased word equals or begins one of the common words. */
  predicate BeginsCommonWord(joined: string)
  {
    exists k :: 0 <= k < |COMMON_WORDS| && (COMMON_WORDS[k] == joined || StartsWith(COMMON_WORDS[k], joined))
  }

  /** Step 2's test: the joined, lower-cased word is one of the common words. */
  predicate IsCommonWord(joined: string)
  {
    exists k :: 0 <= k < |COMMON_WORDS| && COMMON_WORDS[k] == joined
  }

  /** `\b([A-Za-z])\s+([a-z]{2,})\b` at `p`: the end of the gap and the end of the match. */
  function SplitLetterAt(s: string, p: nat): (m: Option<(nat, nat)>)
    ensures m.Some? ==> p + 1 < m.value.0 < m.value.1 <= |s|
    ensures m.Some? ==> AllSpace(s[p + 1..m.value.0]) && IsSpace(s[p + 1])
  {
    if p < |s| && IsLetter(s[p]) && WordStart(s, p) then
      var j := RunEnd(s, p + 1, IsSpace);
      var k := RunEnd(s, j, IsLower);
      if j > p + 1 && k >= j + 2 && WordStop(s, k) then Some((j, k)) else None
    else None
  }

  /** Step 1 at `p`: a split letter is joined to the word after it exactly when the joined
      word, lower-cased, begins a common word; otherwise the match is put back as it was. */
  function Step1At(s: string, p: nat): (h: Option<Hit>)
    ensures Fits(s, p, h)
    ensures match SplitLetterAt(s, p)
      case None => h.None?
      case Some((j, k)) =>
        h.Some? && h.value.end == k
        && (if BeginsCommonWord(ToLower([s[p]] + s[j..k])) then h.value.piece == [s[p]] + s[j..k]
            else h.value.piece == s[p..k])
  {
    match SplitLetterAt(s, p)
    case None => None
    case Some((j, k)) =>
      var first := s[p..p + 1];
      var rest := s[j..k];
      assert s[p..k] == first + s[p + 1..j] + rest;
      DeleteGap(first, s[p + 1..j], rest);
      DeletionRefl(s[p..k]);
      Some(Hit(k, if BeginsCommonWord(ToLower(first + rest)) then first + rest else s[p..k]))
  }

  /** `\b([A-Za-z]{2,3})\s+([a-z]{3,})\b` at `p`: the end of the letters, of the gap and of
      the match. The letters cannot be longer than three, since none of them can be given
      back to the white space that must follow. */
  function SplitPairAt(s: string, p: nat): (m: Option<(nat, nat, nat)>)
    ensures m.Some? ==> p < m.value.0 < m.value.1 < m.value.2 <= |s|
    ensures m.Some? ==> AllSpace(s[m.value.0..m.value.1]) && IsSpace(s[m.value.0])
  {
    if p < |s| && IsLetter(s[p]) && WordStart(s, p) then
      var l := RunEnd(s, p, IsLetter);
      if 2 <= l - p <= 3 then
        var j := RunEnd(s, l, IsSpace);
        var k := RunEnd(s, j, IsLower);
        if j > l && k >= j + 3 && WordStop(s, k) then Some((l, j, k)) else None
      else None
    else None
  }

  /** Step 2 at `p`: two or three split letters are joined to the word after them exactly
      when the joined word, lower-cased, is a common word; otherwise the match is put back
      as it was. */
  function Step2At(s: string, p: nat): (h: Option<Hit>)
    ensures Fits(s, p, h)
    ensures match SplitPairAt(s, p)
      case None => h.None?
      case Some((l, j, k)) =>
        h.Some? && h.value.end == k
        && (if IsCommonWord(ToLower(s[p..l] + s[j..k])) then h.value.piece == s[p..l] + s[j..k]
            else h.value.piece == s[p..k])
  {
    match SplitPairAt(s, p)
    case None => None
    case Some((l, j, k)) =>
      var first := s[p..l];
      var rest := s[j..k];
      assert s[p..k] == first + s[l..j] + rest;
      DeleteGap(first, s[l..j], rest);
      DeletionRefl(s[p..k]);
      Some(Hit(k, if IsCommonWord(ToLower(first + rest)) then first + rest else s[p..k]))
  }

  // ---------------------------------------------------------------------------
  // Step 3: `\s{2,}` becomes one space
  // ---------------------------------------------------------------------------

  function CollapseFrom(s: string, i: nat): (r: string)
    requires i <= |s|
    ensures NonSpace(r) == NonSpace(s[i..])
    ensures NoSpaceBefore(r, IsSpace)
    ensures i < |s| ==> r != [] && (IsSpace(r[0]) <==> IsSpace(s[i]))
    ensures i == |s| ==> r == []
    decreases |s| - i
  {
    if i == |s| then ""
    else if IsSpace(s[i]) && i + 1 < |s| && IsSpace(s[i + 1]) then
      var e := RunEnd(s, i, IsSpace);
      var rest := CollapseFrom(s, e);
      assert s[i..] == s[i..e] + s[e..];
      NonSpaceConcat(s[i..e], s[e..]);
      NonSpaceOfSpaces(s[i..e]);
      var r := " " + rest;
      assert r[1..] == rest;
      r
    else
      var rest := CollapseFrom(s, i + 1);
      assert s[i..] == [s[i]] + s[i + 1..];
      NonSpaceConcat([s[i]], s[i + 1..]);
      var r := [s[i]] + rest;
      assert r[1..] == rest;
      r
  }

  // ---------------------------------------------------------------------------
  // Step 4: `\s+([.,;:!?])` becomes the punctuation
  // ---------------------------------------------------------------------------

  /** A run of white space starting at `i` that ends just before a clause punctuation mark. */
  predicate SpaceBeforePunct(s: string, i: nat)
    requires i <= |s|
  {
    i < |s| && IsSpace(s[i]) && RunEnd(s, i, IsSpace) < |s| && IsClausePunct(s[RunEnd(s, i, IsSpace)])
  }

  /** Prefixing a character keeps `NoSpaceBefore` when the pair it forms is allowed. */
  lemma ConsNoSpaceBefore(c: char, rest: string, next: char -> bool)
    requires NoSpaceBefore(rest, next)
    requires rest != [] && IsSpace(c) ==> !next(rest[0])
    ensures NoSpaceBefore([c] + rest, next)
  {
    var r := [c] + rest;
    forall i | 0 <= i < |r| - 1 ensures !(IsSpace(r[i]) && next(r[i + 1])) {
      if i > 0 {
        assert r[i] == rest[i - 1] && r[i + 1] == rest[i];
      }
    }
  }

  /** Keeping the character at `i` in front of a deletion of what follows it. */
  lemma KeepFirst(s: string, i: nat, rest: string)
    requires i < |s| && SpaceDeletion(s[i + 1..], rest)
    ensures SpaceDeletion(s[i..], [s[i]] + rest)
  {
    var r := [s[i]] + rest;
    assert s[i..][0] == s[i] && s[i..][1..] == s[i + 1..];
    assert r[0] == s[i] && r[1..] == rest;
  }

  /** Dropping the white space `s[i..e]` and keeping `s[e]` in front of a deletion of what
      follows it. */
  lemma DropRunKeep(s: string, i: nat, e: nat, rest: string)
    requires i <= e < |s| && AllSpace(s[i..e]) && SpaceDeletion(s[e + 1..], rest)
    ensures SpaceDeletion(s[i..], [s[e]] + rest)
  {
    KeepFirst(s, e, rest);
    DeleteAllSpaces(s[i..e]);
    assert s[i..] == s[i..e] + s[e..];
    DeletionConcat(s[i..e], [], s[e..], [s[e]] + rest);
    assert [] + ([s[e]] + rest) == [s[e]] + rest;
  }

  /** A white-space run that starts one character later ends at the same place. */
  lemma RunEndStep(s: string, i: nat)
    requires i < |s|
    ensures IsSpace(s[i]) ==> RunEnd(s, i, IsSpace) == RunEnd(s, i + 1, IsSpace)
  {
  }

  /** `text.replace(/\s+([.,;:!?])/g, '$1')` from position `i`. */
  function PullPunctFrom(s: string, i: nat): (r: string)
    requires i <= |s|
    ensures SpaceDeletion(s[i..], r)
    ensures NoSpaceBefore(r, IsClausePunct)
    ensures i < |s| ==> r != [] && r[0] == (if SpaceBeforePunct(s, i) then s[RunEnd(s, i, IsSpace)] else s[i])
    decreases |s| - i
  {
    if i == |s| then ""
    else if SpaceBeforePunct(s, i) then
      var e := RunEnd(s, i, IsSpace);
      var rest := PullPunctFrom(s, e + 1);
      DropRunKeep(s, i, e, rest);
      ConsNoSpaceBefore(s[e], rest, IsClausePunct);
      [s[e]] + rest
    else
      var rest := PullPunctFrom(s, i + 1);
      KeepFirst(s, i, rest);
      RunEndStep(s, i);
      ConsNoSpaceBefore(s[i], rest, IsClausePunct);
      [s[i]] + rest
  }

  // ---------------------------------------------------------------------------
  // Step 5: `\b([A-Z])\s(?=[a-z]{4,})` becomes the letter
  // ---------------------------------------------------------------------------

  /** Step 5 at `p`: the white space after a capital letter that starts a word is dropped
      exactly when four lower-case letters follow it. */
  function Step5At(s: string, p: nat): (h: Option<Hit>)
    ensures Fits(s, p, h)
    ensures h.Some? <==> (p + 6 <= |s| && IsUpper(s[p]) && WordStart(s, p) && IsSpace(s[p + 1])
                          && forall q :: p + 2 <= q < p + 6 ==> IsLower(s[q]))
    ensures h.Some? ==> h.value == Hit(p + 2, [s[p]])
  {
    if p + 6 <= |s| && IsUpper(s[p]) && WordStart(s, p) && IsSpace(s[p + 1])
      && IsLower(s[p + 2]) && IsLower(s[p + 3]) && IsLower(s[p + 4]) && IsLower(s[p + 5])
    then
      assert s[p..p + 2] == [s[p]] + [s[p + 1]] + [];
      DeleteGap([s[p]], [s[p + 1]], []);
      assert [s[p]] + [] == [s[p]];
      Some(Hit(p + 2, [s[p]]))
    else None
  }

  // ---------------------------------------------------------------------------
  // The whole clean-up
  // ---------------------------------------------------------------------------

  /** Step 1 over the whole text. */
  function JoinSplitLetters(text: string): (r: string)
    ensures SpaceDeletion(text, r)
  {
    assert text[0..] == text;
    ReplaceScan(text, 0, (p: nat) => Step1At(text, p))
  }

  /** Step 2 over the whole text. */
  function JoinSplitPairs(text: string): (r: string)
    ensures SpaceDeletion(text, r)
  {
    assert text[0..] == text;
    ReplaceScan(text, 0, (p: nat) => Step2At(text, p))
  }

  /** Step 5 over the whole text. */
  function JoinCapitals(text: string): (r: string)
    ensures SpaceDeletion(text, r)
  {
    assert text[0..] == text;
    ReplaceScan(text, 0, (p: nat) => Step5At(text, p))
  }

  /** `normalizeText`. */
  function NormalizeText(text: string): (r: string)
    ensures NonSpace(r) == NonSpace(text)
    ensures NoSpaceBefore(r, IsSpace)
    ensures NoSpaceBefore(r, IsClausePunct)
  {
    var r1 := JoinSplitLetters(text);
    var r2 := JoinSplitPairs(r1);
    var r3 := CollapseFrom(r2, 0);
    var r4 := PullPunctFrom(r3, 0);
    var r5 := JoinCapitals(r4);
    assert r2[0..] == r2 && r3[0..] == r3;
    DeletionKeepsNonSpace(text, r1);
    DeletionKeepsNonSpace(r1, r2);
    DeletionKeepsNonSpace(r3, r4);
    DeletionKeepsNonSpace(r4, r5);
    DeletionKeepsNoSpaceBefore(r3, r4, IsSpace);
    DeletionKeepsNoSpaceBefore(r4, r5, IsSpace);
    DeletionKeepsNoSpaceBefore(r4, r5, IsClausePunct);
    r5
  }

  /** No character of `s` is white space. */
  predicate SpaceFree(s: string)
  {
    forall k :: 0 <= k < |s| ==> !IsSpace(s[k])
  }

  /** A global replacement that matches nowhere leaves the text as it is. */
  lemma {:induction false} ScanWithoutHits(s: string, i: nat, at: nat -> Option<Hit>)
    requires i <= |s|
    requires forall p :: i <= p < |s| ==> at(p).None?
    ensures forall p :: i <= p < |s| ==> Fits(s, p, at(p))
    ensures ReplaceScan(s, i, at) == s[i..]
    decreases |s| - i
  {
    if i < |s| {
      ScanWithoutHits(s, i + 1, at);
      assert s[i..] == [s[i]] + s[i + 1..];
    }
  }

  /** Step 3 leaves text without white space as it is. */
  lemma {:induction false} CollapseSpaceFree(s: string, i: nat)
    requires i <= |s| && SpaceFree(s)
    ensures CollapseFrom(s, i) == s[i..]
    decreases |s| - i
  {
    if i < |s| {
      CollapseSpaceFree(s, i + 1);
      assert s[i..] == [s[i]] + s[i + 1..];
    }
  }

  /** Step 4 leaves text without white space as it is. */
  lemma {:induction false} PullPunctSpaceFree(s: string, i: nat)
    requires i <= |s| && SpaceFree(s)
    ensures PullPunctFrom(s, i) == s[i..]
    decreases |s| - i
  {
    if i < |s| {
      PullPunctSpaceFree(s, i + 1);
      assert s[i..] == [s[i]] + s[i + 1..];
    }
  }

  /** Step 1 matches only at a letter followed by white space. */
  lemma SpaceFreeLetters(text: string)
    requires SpaceFree(text)
    ensures JoinSplitLetters(text) == text
  {
    ScanWithoutHits(text, 0, (p: nat) => Step1At(text, p));
  }

  /** Step 2 matches only at letters followed by white space. */
  lemma SpaceFreePairs(text: string)
    requires SpaceFree(text)
    ensures JoinSplitPairs(text) == text
  {
    ScanWithoutHits(text, 0, (p: nat) => Step2At(text, p));
  }

  /** Step 5 matches only at a capital followed by white space. */
  lemma SpaceFreeCapitals(text: string)
    requires SpaceFree(text)
    ensures JoinCapitals(text) == text
  {
    ScanWithoutHits(text, 0, (p: nat) => Step5At(text, p));
  }

  /** Steps 3 to 5 leave text without white space as it is. */
  lemma SpaceFreeTidy(text: string)
    requires SpaceFree(text)
    ensures JoinCapitals(PullPunctFrom(CollapseFrom(text, 0), 0)) == text
  {
    CollapseSpaceFree(text, 0);
    PullPunctSpaceFree(text, 0);
    SpaceFreeCapitals(text);
  }

  /** Every step matches only around white space, so text without any is left as it is. */
  lemma SpaceFreeUnchanged(text: string)
    requires SpaceFree(text)
    ensures NormalizeText(text) == text
  {
    SpaceFreeLetters(text);
    SpaceFreePairs(text);
    SpaceFreeTidy(text);
  }

  /** The run of `p`-characters from `j` ends at `e` when `e` is where it stops. */
  lemma {:induction false} RunEndIs(s: string, j: nat, e: nat, p: char -> bool)
    requires j <= e <= |s|
    requires forall q :: j <= q < e ==> p(s[q])
    requires e < |s| ==> !p(s[e])
    ensures RunEnd(s, j, p) == e
    decreases e - j
  {
    if j < e {
      RunEndIs(s, j + 1, e, p);
    }
  }

  /** A global replacement whose match at `i` runs to the end replaces the rest of the
      text by the match's piece. */
  lemma ScanHit(s: string, i: nat, at: nat -> Option<Hit>)
    requires i < |s|
    requires forall p :: i <= p < |s| ==> Fits(s, p, at(p))
    requires at(i).Some? && at(i).value.end == |s|
    ensures ReplaceScan(s, i, at) == at(i).value.piece
  {
  }

  /** When step 1 matches nowhere and step 2 leaves no white space, the clean-up is step
      2's result. */
  lemma JoinedBySecondStep(text: string, joined: string)
    requires JoinSplitLetters(text) == text && JoinSplitPairs(text) == joined && SpaceFree(joined)
    ensures NormalizeText(text) == joined
  {
    SpaceFreeTidy(joined);
  }

  /** Step 1 matches nowhere in two or three letters, white space, and lower-case letters:
      the only white space follows a letter that does not start a word. */
  lemma SplitWordLetters(first: string, rest: string)
    requires 2 <= |first| && forall q :: 0 <= q < |first| ==> IsLetter(first[q])
    requires forall q :: 0 <= q < |rest| ==> IsLower(rest[q])
    ensures JoinSplitLetters(first + " " + rest) == first + " " + rest
  {
    var text := first + " " + rest;
    var n := |first|;
    forall p | 0 <= p < |text| ensures Step1At(text, p).None? {
      if p + 1 == n {
        assert IsWordChar(text[p - 1]);
      } else if p + 1 < n {
        assert IsLetter(text[p + 1]);
      } else if p + 1 < |text| {
        assert IsLower(text[p + 1]);
      }
    }
    ScanWithoutHits(text, 0, (p: nat) => Step1At(text, p));
  }

  /** Step 2 joins two or three letters, white space, and three or more lower-case letters
      into one word when that word is a common word. */
  lemma SplitWordPairs(first: string, rest: string)
    requires 2 <= |first| <= 3 && forall q :: 0 <= q < |first| ==> IsLetter(first[q])
    requires 3 <= |rest| && forall q :: 0 <= q < |rest| ==> IsLower(rest[q])
    requires IsCommonWord(ToLower(first + rest))
    ensures JoinSplitPairs(first + " " + rest) == first + rest
  {
    var text := first + " " + rest;
    Step2AtStart(first, rest);
    ScanHit(text, 0, (p: nat) => Step2At(text, p));
  }

  /** Step 2's match at the start of two or three letters, a space and a common word's
      rest is the whole text, and its piece is the joined word. */
  lemma Step2AtStart(first: string, rest: string)
    requires 2 <= |first| <= 3 && forall q :: 0 <= q < |first| ==> IsLetter(first[q])
    requires 3 <= |rest| && forall q :: 0 <= q < |rest| ==> IsLower(rest[q])
    requires IsCommonWord(ToLower(first + rest))
    ensures Step2At(first + " " + rest, 0) == Some(Hit(|first| + 1 + |rest|, first + rest))
  {
    var text := first + " " + rest;
    SplitPairAtStart(first, rest);
    Step2AtJoins(text, 0, |first|, |first| + 1, |first| + 1 + |rest|);
  }

  /** Where step 2's pattern matches and the joined word is common, the hit is the
      joined word. */
  lemma Step2AtJoins(s: string, p: nat, l: nat, j: nat, k: nat)
    requires SplitPairAt(s, p) == Some((l, j, k))
    requires IsCommonWord(ToLower(s[p..l] + s[j..k]))
    ensures Step2At(s, p) == Some(Hit(k, s[p..l] + s[j..k]))
  {
  }

  /** Two or three letters, one space and lower-case letters are one match of step 2's
      pattern, with the letters before and after the space as its groups. */
  lemma SplitPairAtStart(first: string, rest: string)
    requires 2 <= |first| <= 3 && forall q :: 0 <= q < |first| ==> IsLetter(first[q])
    requires 3 <= |rest| && forall q :: 0 <= q < |rest| ==> IsLower(rest[q])
    ensures SplitPairAt(first + " " + rest, 0) == Some((|first|, |first| + 1, |first| + 1 + |rest|))
    ensures (first + " " + rest)[0..|first|] == first
    ensures (first + " " + rest)[|first| + 1..|first| + 1 + |rest|] == rest
  {
    var text := first + " " + rest;
    var n := |first|;
    assert forall q :: 0 <= q < n ==> text[q] == first[q];
    assert forall q :: n + 1 <= q < |text| ==> text[q] == rest[q - n - 1];
    assert text[n] == ' ';
    RunEndIs(text, 0, n, IsLetter);
    RunEndIs(text, n, n + 1, IsSpace);
    RunEndIs(text, n + 1, |text|, IsLower);
    var m: (nat, nat, nat) := (n, n + 1, |text|);
    assert SplitPairAt(text, 0) == Some(m);
  }

  /** A common word split after its second or third letter, as the extraction leaves
      `"Sof tware"`, is joined back into one word. */
  lemma JoinsSplitWord(first: string, rest: string)
    requires 2 <= |first| <= 3 && forall q :: 0 <= q < |first| ==> IsLetter(first[q])
    requires 3 <= |rest| && forall q :: 0 <= q < |rest| ==> IsLower(rest[q])
    requires IsCommonWord(ToLower(first + rest))
    ensures NormalizeText(first + " " + rest) == first + rest
  {
    SplitWordLetters(first, rest);
    SplitWordPairs(first, rest);
    JoinedBySecondStep(first + " " + rest, first + rest);
  }

  // ---------------------------------------------------------------------------
  // Running the clean-up twice
  // ---------------------------------------------------------------------------

  /** A global replacement with no match before `q` and one at `q` that runs to the end keeps
      the text before `q` and replaces the rest by the match's piece. */
  lemma {:induction false} ScanHitAt(s: string, i: nat, q: nat, at: nat -> Option<Hit>)
    requires i <= q < |s|
    requires forall p :: i <= p < |s| ==> Fits(s, p, at(p))
    requires forall p :: i <= p < q ==> at(p).None?
    requires at(q).Some? && at(q).value.end == |s|
    ensures ReplaceScan(s, i, at) == s[i..q] + at(q).value.piece
    decreases q - i
  {
    if i < q {
      ScanHitAt(s, i + 1, q, at);
      ScanMiss(s, i, at);
      assert s[i..q] == [s[i]] + s[i + 1..q];
    } else {
      ScanHit(s, q, at);
    }
  }

  /** Where nothing matches, the scan keeps the character and moves on by one. */
  lemma ScanMiss(s: string, i: nat, at: nat -> Option<Hit>)
    requires i < |s|
    requires forall p :: i <= p < |s| ==> Fits(s, p, at(p))
    requires at(i).None?
    ensures ReplaceScan(s, i, at) == [s[i]] + ReplaceScan(s, i + 1, at)
  {
  }

  /** Step 3 leaves text with no two white-space characters together as it is. */
  lemma {:induction false} CollapseSingleSpaces(s: string, i: nat)
    requires i <= |s| && NoSpaceBefore(s, IsSpace)
    ensures CollapseFrom(s, i) == s[i..]
    decreases |s| - i
  {
    if i < |s| {
      CollapseSingleSpaces(s, i + 1);
      assert s[i..] == [s[i]] + s[i + 1..];
    }
  }

  /** Step 4 leaves text as it is when no white space comes before another white space or a
      clause punctuation mark. */
  lemma {:induction false} PullPunctNone(s: string, i: nat)
    requires i <= |s| && NoSpaceBefore(s, IsSpace) && NoSpaceBefore(s, IsClausePunct)
    ensures PullPunctFrom(s, i) == s[i..]
    decreases |s| - i
  {
    if i < |s| {
      if IsSpace(s[i]) && i + 1 < |s| {
        RunEndIs(s, i, i + 1, IsSpace);
      }
      PullPunctNone(s, i + 1);
      assert s[i..] == [s[i]] + s[i + 1..];
    }
  }

  /** Step 5 leaves text without capitals as it is. */
  lemma NoCapitalsKept(text: string)
    requires forall q :: 0 <= q < |text| ==> !IsUpper(text[q])
    ensures JoinCapitals(text) == text
  {
    ScanWithoutHits(text, 0, (p: nat) => Step5At(text, p));
  }

  /** Where step 1's pattern matches in `a b w`: not at the first letter, which only one
      letter follows, but at the second, up to the end. */
  lemma FirstPassSplits(a: char, b: char, w: string)
    requires IsLower(a) && IsLower(b) && 2 <= |w| && forall q :: 0 <= q < |w| ==> IsLower(w[q])
    ensures var t := [a, ' ', b, ' '] + w;
      SplitLetterAt(t, 0).None? && SplitLetterAt(t, 1).None?
      && SplitLetterAt(t, 2).Some? && SplitLetterAt(t, 2).value.0 == 4 && SplitLetterAt(t, 2).value.1 == |t|
  {
    var t := [a, ' ', b, ' '] + w;
    RunEndIs(t, 1, 2, IsSpace);
    RunEndIs(t, 2, 3, IsLower);
    RunEndIs(t, 3, 4, IsSpace);
    RunEndIs(t, 4, |t|, IsLower);
  }

  /** Step 1 replaces a match of its pattern by the joined word when that begins a common
      word. */
  lemma Step1Joins(t: string, p: nat, j: nat, k: nat)
    requires SplitLetterAt(t, p) == Some((j, k)) && BeginsCommonWord(ToLower([t[p]] + t[j..k]))
    ensures Step1At(t, p) == Some(Hit(k, [t[p]] + t[j..k]))
  {
  }

  lemma GlueSpaced(a: char, b: char, w: string)
    ensures [a, ' '] + ([b] + w) == [a, ' ', b] + w
  {
  }

  /** Step 1 keeps the character where its pattern does not match. */
  lemma Step1Misses(t: string, p: nat)
    requires SplitLetterAt(t, p).None?
    ensures Step1At(t, p).None?
  {
  }

  /** `a b w`, three lower-case words of which the first two are single letters: step 1
      joins the second letter to `w` when that begins a common word; the first letter stays
      apart, since only one letter follows its white space. */
  lemma FirstPassLetters(a: char, b: char, w: string)
    requires IsLower(a) && IsLower(b) && 2 <= |w| && forall q :: 0 <= q < |w| ==> IsLower(w[q])
    requires BeginsCommonWord(ToLower([b] + w))
    ensures JoinSplitLetters([a, ' ', b, ' '] + w) == [a, ' ', b] + w
  {
    var t := [a, ' ', b, ' '] + w;
    FirstPassSplits(a, b, w);
    assert [t[2]] + t[4..|t|] == [b] + w;
    Step1Joins(t, 2, 4, |t|);
    Step1Misses(t, 0);
    Step1Misses(t, 1);
    var at := (p: nat) => Step1At(t, p);
    assert at(0).None? && at(1).None? && at(2) == Some(Hit(|t|, [b] + w));
    ScanHitAt(t, 0, 2, at);
    assert t[0..2] == [a, ' '];
    GlueSpaced(a, b, w);
  }

  /** Step 2 matches nowhere in `a bw`: the first word is one letter and the second has
      no white space after it. */
  lemma FirstPassPairs(a: char, b: char, w: string)
    requires IsLower(a) && IsLower(b) && forall q :: 0 <= q < |w| ==> IsLower(w[q])
    ensures JoinSplitPairs([a, ' ', b] + w) == [a, ' ', b] + w
  {
    var u := [a, ' ', b] + w;
    RunEndIs(u, 0, 1, IsLetter);
    RunEndIs(u, 2, |u|, IsLetter);
    RunEndIs(u, |u|, |u|, IsSpace);
    forall p | 0 <= p < |u| ensures Step2At(u, p).None? {
      if p > 2 {
        assert IsWordChar(u[p - 1]);
      }
    }
    ScanWithoutHits(u, 0, (p: nat) => Step2At(u, p));
  }

  /** Steps 3 to 5 leave text as it is when no white space comes before another white
      space or a clause punctuation mark and no letter is a capital. */
  lemma TidyKeeps(u: string)
    requires NoSpaceBefore(u, IsSpace) && NoSpaceBefore(u, IsClausePunct)
    requires forall q :: 0 <= q < |u| ==> !IsUpper(u[q])
    ensures JoinCapitals(PullPunctFrom(CollapseFrom(u, 0), 0)) == u
  {
    CollapseSingleSpaces(u, 0);
    PullPunctNone(u, 0);
    NoCapitalsKept(u);
  }

  /** `a bw` has one white space, between two lower-case letters. */
  lemma FirstPassShape(a: char, b: char, w: string)
    requires IsLower(a) && IsLower(b) && forall q :: 0 <= q < |w| ==> IsLower(w[q])
    ensures var u := [a, ' ', b] + w;
      NoSpaceBefore(u, IsSpace) && NoSpaceBefore(u, IsClausePunct)
      && forall q :: 0 <= q < |u| ==> !IsUpper(u[q])
  {
    var u := [a, ' ', b] + w;
    assert forall q :: 0 <= q < |u| && q != 1 ==> IsLower(u[q]);
  }

  /** In the second pass step 1 joins the first letter of `a bw` to the rest when that
      begins a common word. */
  lemma SecondPassLetters(a: char, b: char, w: string)
    requires IsLower(a) && IsLower(b) && 1 <= |w| && forall q :: 0 <= q < |w| ==> IsLower(w[q])
    requires BeginsCommonWord(ToLower([a, b] + w))
    ensures JoinSplitLetters([a, ' ', b] + w) == [a, b] + w
  {
    var u := [a, ' ', b] + w;
    RunEndIs(u, 1, 2, IsSpace);
    RunEndIs(u, 2, |u|, IsLower);
    var m: (nat, nat) := (2, |u|);
    assert SplitLetterAt(u, 0) == Some(m);
    assert [u[0]] + u[2..|u|] == [a, b] + w;
    Step1Joins(u, 0, 2, |u|);
    ScanHit(u, 0, (p: nat) => Step1At(u, p));
  }

  /** When step 1 leaves no white space, the clean-up is step 1's result. */
  lemma JoinedByFirstStep(text: string, joined: string)
    requires JoinSplitLetters(text) == joined && SpaceFree(joined)
    ensures NormalizeText(text) == joined
  {
    SpaceFreePairs(joined);
    SpaceFreeTidy(joined);
  }

  /** The second pass: step 1 joins the first letter of `a bw` to the rest when that begins
      a common word, and nothing is left for the later steps. */
  lemma SecondPass(a: char, b: char, w: string)
    requires IsLower(a) && IsLower(b) && 1 <= |w| && forall q :: 0 <= q < |w| ==> IsLower(w[q])
    requires BeginsCommonWord(ToLower([a, b] + w))
    ensures NormalizeText([a, ' ', b] + w) == [a, b] + w
  {
    SecondPassLetters(a, b, w);
    var v := [a, b] + w;
    assert SpaceFree(v) by {
      assert forall q :: 0 <= q < |v| ==> IsLower(v[q]);
    }
    JoinedByFirstStep([a, ' ', b] + w, v);
  }

  /** The first pass over `a b w`: only `b` and `w` are joined. */
  lemma FirstPass(a: char, b: char, w: string)
    requires IsLower(a) && IsLower(b) && 2 <= |w| && forall q :: 0 <= q < |w| ==> IsLower(w[q])
    requires BeginsCommonWord(ToLower([b] + w))
    ensures NormalizeText([a, ' ', b, ' '] + w) == [a, ' ', b] + w
  {
    var u := [a, ' ', b] + w;
    FirstPassLetters(a, b, w);
    FirstPassPairs(a, b, w);
    FirstPassShape(a, b, w);
    TidyKeeps(u);
  }

  /** Running the clean-up on its own result can change it again: in `a b w` step 1 joins
      only `b` to `w`, and on the result it joins `a` as well. */
  lemma NotIdempotent(a: char, b: char, w: string)
    requires IsLower(a) && IsLower(b) && 2 <= |w| && forall q :: 0 <= q < |w| ==> IsLower(w[q])
    requires BeginsCommonWord(ToLower([b] + w)) && BeginsCommonWord(ToLower([a, b] + w))
    ensures NormalizeText([a, ' ', b, ' '] + w) == [a, ' ', b] + w
    ensures NormalizeText(NormalizeText([a, ' ', b, ' '] + w)) == [a, b] + w
  {
    FirstPass(a, b, w);
    SecondPass(a, b, w);
  }

  /** `per` begins `performance`, and `oper` begins `operations`. */
  lemma PerAndOper()
    ensures BeginsCommonWord(ToLower("per")) && BeginsCommonWord(ToLower("oper"))
  {
    assert ToLower("per") == "per" && ToLower("oper") == "oper";
    assert StartsWith(COMMON_WORDS[38], "per");
    assert StartsWith(COMMON_WORDS[37], "oper");
  }

  /** `o p er` becomes `o per`: step 1 joins `p` and `er` only. */
  lemma FirstPassExample()
    ensures NormalizeText("o p er") == "o per"
  {
    PerAndOper();
    var w := "er";
    assert ['p'] + w == "per";
    FirstPass('o', 'p', w);
    assert ['o', ' ', 'p', ' '] + w == "o p er";
    assert ['o', ' ', 'p'] + w == "o per";
  }

  /** `o per` becomes `oper`. */
  lemma SecondPassExample()
    ensures NormalizeText("o per") == "oper"
  {
    PerAndOper();
    var w := "er";
    assert ['o', 'p'] + w == "oper";
    SecondPass('o', 'p', w);
    assert ['o', ' ', 'p'] + w == "o per";
  }

  /** The clean-up is not idempotent: `o p er` becomes `o per`, which becomes `oper`. */
  lemma NotIdempotentExample()
    ensures NormalizeText("o p er") == "o per" && NormalizeText("o per") == "oper"
  {
    FirstPassExample();
    SecondPassExample();
  }
}
