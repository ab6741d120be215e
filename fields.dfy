/** `cleanFieldValue`: every value is normalised and trimmed, then cleaned according to the
    kind of field it is stored in. */
module Fields {
  import opened Text
  import opened Normalize

  datatype FieldType = NameField | EmailField | PhoneField | UrlField | TextField | DateField

  /** `trim` only deletes white space. */
  lemma TrimDeletesSpace(s: string)
    ensures SpaceDeletion(s, Trim(s))
  {
    TrimSlice(s);
    var n := LeadingSpace(s);
    var t := Trim(s);
    var m := n + |t|;
    var a, b := s[..n], s[m..];
    assert s == a + t + b;
    DeleteEnds(a, t, b);
  }

  lemma DeleteEnds(a: string, t: string, b: string)
    requires AllSpace(a) && AllSpace(b)
    ensures SpaceDeletion(a + t + b, t)
  {
    DeleteAllSpaces(a);
    DeleteAllSpaces(b);
    DeletionRefl(t);
    DeletionConcat(t, t, b, []);
    assert t + [] == t;
    DeletionConcat(a, [], t + b, t);
    assert a + t + b == a + (t + b) && [] + t == t;
  }

  lemma {:induction false} DeletionTrans(a: string, b: string, c: string)
    requires SpaceDeletion(a, b) && SpaceDeletion(b, c)
    ensures SpaceDeletion(a, c)
    decreases |a|
  {
    if a != [] {
      if b != [] && b[0] == a[0] && SpaceDeletion(a[1..], b[1..]) {
        if c != [] && c[0] == b[0] && SpaceDeletion(b[1..], c[1..]) {
          DeletionTrans(a[1..], b[1..], c[1..]);
        } else {
          DeletionTrans(a[1..], b[1..], c);
        }
      } else {
        DeletionTrans(a[1..], b, c);
      }
    }
  }

  /** What every field starts from: `normalizeText(value).trim()`. */
  function Cleaned(value: string): (r: string)
    ensures NonSpace(r) == NonSpace(value)
    ensures NoSpaceBefore(r, IsSpace) && NoSpaceBefore(r, IsClausePunct)
  {
    var n := NormalizeText(value);
    TrimDeletesSpace(n);
    DeletionKeepsNonSpace(n, Trim(n));
    DeletionKeepsNoSpaceBefore(n, Trim(n), IsSpace);
    DeletionKeepsNoSpaceBefore(n, Trim(n), IsClausePunct);
    Trim(n)
  }

  // ---------------------------------------------------------------------------
  // Names
  // ---------------------------------------------------------------------------

  /** The characters a name keeps: `[A-Za-z\s\-']`. */
  predicate NameChar(c: char)
  {
    IsLetter(c) || IsSpace(c) || c == '-' || c == '\''
  }

  /** `w.charAt(0).toUpperCase() + w.slice(1).toLowerCase()`. */
  function Capitalize(w: string): (r: string)
    ensures |r| == |w|
  {
    if w == [] then [] else [Upper(w[0])] + ToLower(w[1..])
  }

  function CapitalizeAll(ws: seq<string>): (r: seq<string>)
    ensures |r| == |ws| && forall k :: 0 <= k < |ws| ==> r[k] == Capitalize(ws[k])
  {
    seq(|ws|, k requires 0 <= k < |ws| => Capitalize(ws[k]))
  }

  /** `split(' ').map(capitalize).join(' ')`. */
  function CapitalizeWords(s: string): string
  {
    Join(CapitalizeAll(SplitOn(s, ' ')), " ")
  }

  /** The same, character by character: a character is upper-cased at the start or after a
      space, and lower-cased everywhere else. */
  function TitleCase(s: string, atStart: bool): (r: string)
    ensures |r| == |s|
    ensures forall k :: 0 <= k < |s| ==>
      r[k] == (if (if k == 0 then atStart else s[k - 1] == ' ') then Upper(s[k]) else Lower(s[k]))
  {
    if s == [] then []
    else [if atStart then Upper(s[0]) else Lower(s[0])] + TitleCase(s[1..], s[0] == ' ')
  }

  lemma JoinPrefix(c: string, x: string, ys: seq<string>)
    ensures Join([c + x] + ys, " ") == c + Join([x] + ys, " ")
  {
    assert ([c + x] + ys)[1..] == ys && ([x] + ys)[1..] == ys;
  }

  /** The words of a string that starts with a space: an empty first word, then the words
      of the rest. */
  lemma SplitLeadingSpace(s: string)
    requires s != [] && s[0] == ' '
    ensures SplitOn(s, ' ') == [""] + SplitOn(s[1..], ' ')
  {
  }

  /** The words of a string that starts with another character: that character joins the
      first word of the rest. */
  lemma SplitLeadingChar(s: string)
    requires s != [] && s[0] != ' '
    ensures var rest := SplitOn(s[1..], ' ');
      SplitOn(s, ' ') == [[s[0]] + rest[0]] + rest[1..]
  {
  }

  /** The lower-cased first word followed by the capitalised others. */
  function LowerFirstWord(ws: seq<string>): seq<string>
    requires |ws| >= 1
  {
    [ToLower(ws[0])] + CapitalizeAll(ws[1..])
  }

  lemma CapitalizeAfterSpace(rest: seq<string>)
    requires |rest| >= 1
    ensures Join(CapitalizeAll([""] + rest), " ") == " " + Join(CapitalizeAll(rest), " ")
    ensures Join(LowerFirstWord([""] + rest), " ") == " " + Join(CapitalizeAll(rest), " ")
  {
    var caps := CapitalizeAll(rest);
    assert CapitalizeAll([""] + rest) == [""] + caps;
    assert LowerFirstWord([""] + rest) == [""] + caps;
    assert ([""] + caps)[1..] == caps;
  }

  /** Capitalising a list of words one word at a time. */
  lemma CapitalizeAllCons(w: string, ws: seq<string>)
    ensures CapitalizeAll([w] + ws) == [Capitalize(w)] + CapitalizeAll(ws)
  {
    var a, b := CapitalizeAll([w] + ws), [Capitalize(w)] + CapitalizeAll(ws);
    forall k | 0 <= k < |a| ensures a[k] == b[k] {
      if k > 0 { assert ([w] + ws)[k] == ws[k - 1]; }
    }
  }

  lemma CapitalizeFirstChar(c: char, rest: seq<string>)
    requires |rest| >= 1
    ensures var w := [c] + rest[0];
      Join(CapitalizeAll([w] + rest[1..]), " ") == [Upper(c)] + Join(LowerFirstWord(rest), " ")
      && Join(LowerFirstWord([w] + rest[1..]), " ") == [Lower(c)] + Join(LowerFirstWord(rest), " ")
  {
    var w := [c] + rest[0];
    var caps := CapitalizeAll(rest[1..]);
    CapitalizeAllCons(w, rest[1..]);
    CapitalizeHead(c, rest[0]);
    LowerHead(c, rest[0]);
    assert LowerFirstWord([w] + rest[1..]) == [[Lower(c)] + ToLower(rest[0])] + caps by {
      assert ([w] + rest[1..])[1..] == rest[1..];
    }
    assert LowerFirstWord(rest) == [ToLower(rest[0])] + caps;
    JoinPrefix([Upper(c)], ToLower(rest[0]), caps);
    JoinPrefix([Lower(c)], ToLower(rest[0]), caps);
  }

  /** Capitalising a word that starts with `c`. */
  lemma CapitalizeHead(c: char, r: string)
    ensures Capitalize([c] + r) == [Upper(c)] + ToLower(r)
  {
    assert ([c] + r)[0] == c && ([c] + r)[1..] == r;
  }

  /** Lower-casing a word that starts with `c`. */
  lemma LowerHead(c: char, r: string)
    ensures ToLower([c] + r) == [Lower(c)] + ToLower(r)
  {
    var w := [c] + r;
    assert forall k | 0 < k < |w| :: w[k] == r[k - 1];
  }

  /** Splitting on spaces, capitalising each word and joining again capitalises exactly the
      characters at the start and after a space. */
  lemma {:induction false} CapitalizeWordsIsTitleCase(s: string)
    ensures CapitalizeWords(s) == TitleCase(s, true)
    ensures TitleCase(s, false) == Join(LowerFirstWord(SplitOn(s, ' ')), " ")
  {
    if s == [] {
      assert SplitOn(s, ' ') == [""];
      assert CapitalizeAll([""]) == [""];
      assert LowerFirstWord([""]) == [""];
    } else {
      var rest := SplitOn(s[1..], ' ');
      CapitalizeWordsIsTitleCase(s[1..]);
      if s[0] == ' ' {
        SplitLeadingSpace(s);
        CapitalizeAfterSpace(rest);
      } else {
        SplitLeadingChar(s);
        CapitalizeFirstChar(s[0], rest);
      }
    }
  }

  /** The name before capitalisation: only name characters, trimmed. */
  function NameBase(cleaned: string): (base: string)
    ensures forall k :: 0 <= k < |base| ==> NameChar(base[k])
  {
    var kept := Filter(cleaned, NameChar);
    var base := Trim(kept);
    TrimSlice(kept);
    assert forall k :: 0 <= k < |base| ==> base[k] == kept[LeadingSpace(kept) + k];
    base
  }

  lemma LowerUpper(c: char)
    ensures Lower(Upper(c)) == Lower(c) && Lower(Lower(c)) == Lower(c)
  {
  }

  /** Title-casing a character: upper- or lower-cased, a space stays a space and nothing
      else becomes one. */
  lemma CaseOf(c: char, up: bool)
    ensures var d := if up then Upper(c) else Lower(c);
      Lower(d) == Lower(c) && (d == ' ' <==> c == ' ') && (NameChar(c) ==> NameChar(d))
      && (up ==> !IsLower(d)) && (!up ==> !IsUpper(d))
  {
  }

  /** What title-casing keeps: the kind of every character, and every letter up to case;
      and what it changes: the case of word starts and of the other letters. */
  lemma TitleCaseKeeps(s: string)
    requires forall k :: 0 <= k < |s| ==> NameChar(s[k])
    ensures var r := TitleCase(s, true);
      (forall k :: 0 <= k < |r| ==> NameChar(r[k]) && (r[k] == ' ' <==> s[k] == ' '))
      && ToLower(r) == ToLower(s)
      && (forall k :: 0 <= k < |r| && (k == 0 || s[k - 1] == ' ') ==> !IsLower(r[k]))
      && (forall k :: 0 <= k < |r| && !(k == 0 || s[k - 1] == ' ') ==> !IsUpper(r[k]))
  {
    var r := TitleCase(s, true);
    forall k | 0 <= k < |r|
      ensures Lower(r[k]) == Lower(s[k]) && (r[k] == ' ' <==> s[k] == ' ') && NameChar(r[k])
      ensures (k == 0 || s[k - 1] == ' ') ==> !IsLower(r[k])
      ensures !(k == 0 || s[k - 1] == ' ') ==> !IsUpper(r[k])
    {
      CaseOf(s[k], k == 0 || s[k - 1] == ' ');
    }
    assert ToLower(r) == ToLower(s);
  }

  /** Each word starts with a character that is not lower case and goes on with characters
      that are not upper case. */
  predicate WordsCapitalised(r: string)
  {
    forall k :: 0 <= k < |r| ==> if k == 0 || r[k - 1] == ' ' then !IsLower(r[k]) else !IsUpper(r[k])
  }

  /** The `name` case. */
  function CleanName(cleaned: string): (r: string)
    ensures forall k :: 0 <= k < |r| ==> NameChar(r[k])
    ensures ToLower(r) == ToLower(NameBase(cleaned))
    ensures WordsCapitalised(r)
  {
    var base := NameBase(cleaned);
    CapitalizeWordsIsTitleCase(base);
    TitleCaseKeeps(base);
    var r := CapitalizeWords(base);
    forall k | 0 <= k < |r| ensures if k == 0 || r[k - 1] == ' ' then !IsLower(r[k]) else !IsUpper(r[k]) {
      if k > 0 {
        var j := k - 1;
        assert r[j] == ' ' <==> base[j] == ' ';
      }
    }
    r
  }

  // ---------------------------------------------------------------------------
  // Phones
  // ---------------------------------------------------------------------------

  /** `replace(/\D/g, '')`. */
  function Digits(s: string): (d: string)
    ensures AllDigits(d)
  {
    Filter(s, IsDigit)
  }

  lemma {:induction false} DigitsOfDigits(s: string)
    requires AllDigits(s)
    ensures Digits(s) == s
  {
    if s != [] {
      assert s == [s[0]] + s[1..];
      DigitsOfDigits(s[1..]);
    }
  }

  lemma DigitsOfPunct(s: string)
    requires forall i :: 0 <= i < |s| ==> !IsDigit(s[i])
    ensures Digits(s) == []
  {
    if s != [] {
      assert s == [s[0]] + s[1..];
      DigitsOfPunct(s[1..]);
    }
  }

  lemma DigitsConcat(a: string, b: string)
    ensures Digits(a + b) == Digits(a) + Digits(b)
  {
    FilterConcat(a, b, IsDigit);
  }

  /** The digits of a layout: three groups of digits between separators without digits. */
  lemma DigitsOfLayout(p1: string, g1: string, p2: string, g2: string, p3: string, g3: string)
    requires Digits(p1) == [] && Digits(p2) == [] && Digits(p3) == []
    requires AllDigits(g1) && AllDigits(g2) && AllDigits(g3)
    ensures Digits(p1 + g1 + p2 + g2 + p3 + g3) == g1 + g2 + g3
  {
    DigitsOfDigits(g1);
    DigitsOfDigits(g2);
    DigitsOfDigits(g3);
    DigitsConcat(p1 + g1 + p2 + g2 + p3, g3);
    DigitsConcat(p1 + g1 + p2 + g2, p3);
    DigitsConcat(p1 + g1 + p2, g2);
    DigitsConcat(p1 + g1, p2);
    DigitsConcat(p1, g1);
  }

  /** `(NNN) NNN-NNNN`. */
  function FormatTen(d: string): (r: string)
    requires |d| == 10 && AllDigits(d)
    ensures |r| == 14 && r[0] == '(' && r[4] == ')' && r[5] == ' ' && r[9] == '-'
    ensures Digits(r) == d
  {
    var p1, p2, p3 := "(", ") ", "-";
    DigitsOfPunct(p1);
    DigitsOfPunct(p2);
    DigitsOfPunct(p3);
    DigitsOfLayout(p1, d[..3], p2, d[3..6], p3, d[6..]);
    assert d[..3] + d[3..6] + d[6..] == d;
    p1 + d[..3] + p2 + d[3..6] + p3 + d[6..]
  }

  /** `+1 (NNN) NNN-NNNN`, from eleven digits whose first is the country code: the country
      code and a space in front of the ten-digit layout of the others. */
  function FormatEleven(d: string): (r: string)
    requires |d| == 11 && AllDigits(d) && d[0] == '1'
    ensures |r| == 17 && r[0] == '+' && r[1] == '1' && r[2] == ' ' && r[3] == '(' && r[7] == ')' && r[8] == ' ' && r[12] == '-'
    ensures Digits(r) == d
  {
    var code := "+1 ";
    var rest := FormatTen(d[1..]);
    assert Digits(code) == [d[0]] by {
      assert code == "+" + [d[0]] + " ";
      DigitsOfLayout("+", [d[0]], " ", [], "", []);
      assert "+" + [d[0]] + " " + [] + "" + [] == code;
    }
    DigitsConcat(code, rest);
    assert [d[0]] + d[1..] == d;
    code + rest
  }

  /** The `phone` case: ten digits, or eleven starting with the country code 1, are
      reformatted; anything else is left as it is. */
  function CleanPhone(cleaned: string): (r: string)
    ensures var d := Digits(cleaned);
      if |d| == 10 then |r| == 14 && Digits(r) == d
      else if |d| == 11 && d[0] == '1' then |r| == 17 && r[0] == '+' && Digits(r) == d
      else r == cleaned
    ensures var d := Digits(cleaned);
      (|d| == 10 ==> r == FormatTen(d)) && (|d| == 11 && d[0] == '1' ==> r == FormatEleven(d))
  {
    var d := Digits(cleaned);
    if |d| == 10 then FormatTen(d)
    else if |d| == 11 && d[0] == '1' then FormatEleven(d)
    else cleaned
  }

  // ---------------------------------------------------------------------------
  // URLs
  // ---------------------------------------------------------------------------

  /** The `url` case: a non-empty value not starting with `http` gets `https://`. */
  function WithScheme(cleaned: string): (r: string)
    ensures r == "" <==> cleaned == ""
    ensures r != "" ==> StartsWith(r, "http")
    ensures EndsWith(r, cleaned)
    ensures StartsWith(cleaned, "http") ==> r == cleaned
    ensures cleaned != "" && !StartsWith(cleaned, "http") ==> r == "https://" + cleaned
  {
    if cleaned != "" && !StartsWith(cleaned, "http") then
      var r := "https://" + cleaned;
      assert r[..4] == "http";
      assert r[|r| - |cleaned|..] == cleaned;
      r
    else cleaned
  }

  /** Adding the scheme twice is the same as adding it once. */
  lemma WithSchemeIdempotent(cleaned: string)
    ensures WithScheme(WithScheme(cleaned)) == WithScheme(cleaned)
  {
  }

  // ---------------------------------------------------------------------------
  // Dates
  // ---------------------------------------------------------------------------

  const MONTH_PREFIXES: seq<string> :=
    ["jan", "feb", "mar", "apr", "may", "jun", "jul", "aug", "sep", "oct", "nov", "dec"]

  /** Three lower-case letters that begin a month name. */
  predicate IsMonthPrefix(a: char, b: char, c: char)
  {
    [a, b, c] in MONTH_PREFIXES
  }

  /** `\b(jan|feb|…|dec)` at `i`, any case: three letters at a word start that spell a
      month abbreviation once lower-cased. */
  predicate MonthWordAt(s: string, i: nat)
  {
    i + 3 <= |s| && WordStart(s, i) && IsLetter(s[i]) && IsLetter(s[i + 1]) && IsLetter(s[i + 2])
    && IsMonthPrefix(Lower(s[i]), Lower(s[i + 1]), Lower(s[i + 2]))
  }

  /** No month word starts inside another: every position after the first character of a
      matched word follows a word character. */
  lemma NoMonthInside(s: string, i: nat, e: nat)
    requires MonthWordAt(s, i) && e == RunEnd(s, i + 3, IsWordChar)
    ensures forall q :: i < q < e ==> !MonthWordAt(s, q)
  {
    forall q | i < q < e ensures !WordStart(s, q) {
      assert IsWordChar(s[q - 1]);
    }
  }

  /** Position `q` lies in no month word that starts at `i` or later: it starts none, and
      every month word that starts between `i` and `q` has ended by `q`. */
  predicate Plain(s: string, i: nat, q: nat)
  {
    !MonthWordAt(s, q) && forall j :: i <= j < q ==> !InMonthWord(s, j, q)
  }

  /** Position `q` follows the first letter of the month word that starts at `j`. */
  predicate InMonthWord(s: string, j: nat, q: nat)
  {
    MonthWordAt(s, j) && j < q < RunEnd(s, j + 3, IsWordChar)
  }

  /** What capitalising the month words of `s` from `i` on leaves in `r`: the same length,
      every character the same up to case, the first letter of every month word upper
      case, the rest of every month word lower case, and every other character unchanged. */
  predicate MonthsCapitalized(s: string, i: nat, r: string)
    requires i <= |s|
  {
    |r| == |s| - i
    && (forall q :: i <= q < |s| ==> Lower(r[q - i]) == Lower(s[q]))
    && (forall q :: i <= q < |s| && MonthWordAt(s, q) ==> r[q - i] == Upper(s[q]))
    && TailsLowered(s, i, r)
    && PlainKept(s, i, r)
  }

  /** Every position of `s` from `i` on that lies in no month word is unchanged in `r`. */
  predicate PlainKept(s: string, i: nat, r: string)
    requires i <= |s| && |r| == |s| - i
  {
    forall q :: i <= q < |s| && Plain(s, i, q) ==> r[q - i] == s[q]
  }

  /** Every letter after the first of a month word that starts at `i` or later is lower
      case in `r`, which holds `s` from `i` on. */
  predicate TailsLowered(s: string, i: nat, r: string)
    requires i <= |s| && |r| == |s| - i
  {
    forall j, q :: i <= j < q < |s| && InMonthWord(s, j, q) ==> r[q - i] == Lower(s[q])
  }

  /** A month word capitalised in front of the capitalised rest. */
  lemma MonthWordStep(s: string, i: nat, e: nat, rest: string)
    requires MonthWordAt(s, i) && e == RunEnd(s, i + 3, IsWordChar)
    requires MonthsCapitalized(s, e, rest)
    ensures MonthsCapitalized(s, i, [Upper(s[i])] + ToLower(s[i + 1..e]) + rest)
  {
    var word := [Upper(s[i])] + ToLower(s[i + 1..e]);
    WordKeepsLetters(s, i, e, word, rest);
    NoMonthInside(s, i, e);
    WordStartsUpper(s, i, e, word, rest);
    WordLowersTail(s, i, e, rest);
    WordKeepsPlain(s, i, e, word, rest);
  }

  /** Inside the capitalised word every letter after the first is lower case, and so is
      every letter after the first of each later month word. */
  lemma WordLowersTail(s: string, i: nat, e: nat, rest: string)
    requires MonthWordAt(s, i) && e == RunEnd(s, i + 3, IsWordChar)
    requires forall q :: i < q < e ==> !MonthWordAt(s, q)
    requires |rest| == |s| - e && TailsLowered(s, e, rest)
    ensures TailsLowered(s, i, [Upper(s[i])] + ToLower(s[i + 1..e]) + rest)
  {
    var word := [Upper(s[i])] + ToLower(s[i + 1..e]);
    var r := word + rest;
    forall j, q | i <= j < q < |s| && InMonthWord(s, j, q) ensures r[q - i] == Lower(s[q]) {
      if j == i {
        WordPartLowered(s, i, e, rest, q);
      } else {
        assert e <= j;
        RestPart(word, rest, q - i);
      }
    }
  }

  /** Inside the capitalised word, the letters after the first are lower-cased. */
  lemma WordPartLowered(s: string, i: nat, e: nat, rest: string, q: nat)
    requires i < q < e <= |s|
    ensures ([Upper(s[i])] + ToLower(s[i + 1..e]) + rest)[q - i] == Lower(s[q])
  {
    var word := [Upper(s[i])] + ToLower(s[i + 1..e]);
    assert (word + rest)[q - i] == word[q - i] == ToLower(s[i + 1..e])[q - i - 1];
  }

  /** Past the word, a capitalised text is its rest. */
  lemma RestPart(word: string, rest: string, k: nat)
    requires |word| <= k < |word| + |rest|
    ensures (word + rest)[k] == rest[k - |word|]
  {
  }

  /** A position in no month word from `i` on lies after the capitalised word, and is in
      no month word from its end on either. */
  lemma WordKeepsPlain(s: string, i: nat, e: nat, word: string, rest: string)
    requires MonthWordAt(s, i) && e == RunEnd(s, i + 3, IsWordChar)
    requires |word| == e - i
    requires |rest| == |s| - e && PlainKept(s, e, rest)
    ensures PlainKept(s, i, word + rest)
  {
    var r := word + rest;
    forall q | i <= q < |s| && Plain(s, i, q) ensures r[q - i] == s[q] {
      PlainPastWord(s, i, e, q);
      RestPart(word, rest, q - i);
    }
  }

  /** A position in no month word from `i` on, where a month word starts at `i`, lies past
      that word and is in no month word from its end on. */
  lemma PlainPastWord(s: string, i: nat, e: nat, q: nat)
    requires MonthWordAt(s, i) && e == RunEnd(s, i + 3, IsWordChar)
    requires i <= q < |s| && Plain(s, i, q)
    ensures e <= q && Plain(s, e, q)
  {
    assert !InMonthWord(s, i, q);
  }

  /** The capitalised word and the rest keep every character up to case. */
  lemma WordKeepsLetters(s: string, i: nat, e: nat, word: string, rest: string)
    requires i < e <= |s| && word == [Upper(s[i])] + ToLower(s[i + 1..e])
    requires |rest| == |s| - e && forall q :: e <= q < |s| ==> Lower(rest[q - e]) == Lower(s[q])
    ensures forall q :: i <= q < |s| ==> Lower((word + rest)[q - i]) == Lower(s[q])
  {
    var r := word + rest;
    forall q | i <= q < |s| ensures Lower(r[q - i]) == Lower(s[q]) {
      LowerUpper(s[q]);
      if q >= e {
        assert r[q - i] == rest[q - e];
      }
    }
  }

  /** The only month word that starts inside the capitalised word is the word itself. */
  lemma WordStartsUpper(s: string, i: nat, e: nat, word: string, rest: string)
    requires i < e <= |s| && |word| == e - i && word[0] == Upper(s[i])
    requires forall q :: i < q < e ==> !MonthWordAt(s, q)
    requires |rest| == |s| - e
    requires forall q :: e <= q < |s| && MonthWordAt(s, q) ==> rest[q - e] == Upper(s[q])
    ensures forall q :: i <= q < |s| && MonthWordAt(s, q) ==> (word + rest)[q - i] == Upper(s[q])
  {
    var r := word + rest;
    forall q | i < q < |s| && MonthWordAt(s, q) ensures r[q - i] == Upper(s[q]) {
      assert r[q - i] == rest[q - e];
    }
  }

  /** A character that starts no month word kept in front of the capitalised rest. */
  lemma PlainStep(s: string, i: nat, rest: string)
    requires i < |s| && !MonthWordAt(s, i)
    requires MonthsCapitalized(s, i + 1, rest)
    ensures MonthsCapitalized(s, i, [s[i]] + rest)
  {
    var r := [s[i]] + rest;
    forall q | i <= q < |s|
      ensures Lower(r[q - i]) == Lower(s[q]) && (MonthWordAt(s, q) ==> r[q - i] == Upper(s[q]))
    {
      if q > i {
        assert r[q - i] == rest[q - (i + 1)];
      }
    }
    PlainLowersTails(s, i, rest);
    PlainKeepsPlain(s, i, rest);
  }

  /** Behind a character that starts no month word, the letters after the first of each
      month word are those from the next position on. */
  lemma PlainLowersTails(s: string, i: nat, rest: string)
    requires i < |s| && !MonthWordAt(s, i)
    requires |rest| == |s| - (i + 1) && TailsLowered(s, i + 1, rest)
    ensures TailsLowered(s, i, [s[i]] + rest)
  {
    var r := [s[i]] + rest;
    forall j, q | i <= j < q < |s| && InMonthWord(s, j, q) ensures r[q - i] == Lower(s[q])
    {
      assert r[q - i] == rest[q - (i + 1)];
    }
  }

  /** Behind a character that starts no month word, the plain positions are the plain
      positions from the next position on. */
  lemma PlainKeepsPlain(s: string, i: nat, rest: string)
    requires i < |s| && !MonthWordAt(s, i)
    requires |rest| == |s| - (i + 1) && PlainKept(s, i + 1, rest)
    ensures PlainKept(s, i, [s[i]] + rest)
  {
    var r := [s[i]] + rest;
    forall q | i < q < |s| && Plain(s, i, q) ensures r[q - i] == s[q] {
      PlainFromNext(s, i, q);
      RestPart([s[i]], rest, q - i);
    }
  }

  /** A position in no month word from `i` on is in none from `i + 1` on. */
  lemma PlainFromNext(s: string, i: nat, q: nat)
    requires i < q && Plain(s, i, q)
    ensures Plain(s, i + 1, q)
  {
  }

  /** The `date` case from `i` on: each word starting with a month abbreviation is
      capitalised (`\b(jan|…|dec)\w*`, case-insensitive, global). */
  function CapitalizeMonthsFrom(s: string, i: nat): (r: string)
    requires i <= |s|
    ensures MonthsCapitalized(s, i, r)
    decreases |s| - i
  {
    if i == |s| then ""
    else if MonthWordAt(s, i) then
      var e := RunEnd(s, i + 3, IsWordChar);
      var rest := CapitalizeMonthsFrom(s, e);
      MonthWordStep(s, i, e, rest);
      [Upper(s[i])] + ToLower(s[i + 1..e]) + rest
    else
      var rest := CapitalizeMonthsFrom(s, i + 1);
      PlainStep(s, i, rest);
      [s[i]] + rest
  }

  /** The `date` case on the whole value: the same letters up to case; every month word
      starts in upper case and continues in lower case; every other character is
      unchanged. */
  function CleanDate(cleaned: string): (r: string)
    ensures ToLower(r) == ToLower(cleaned)
    ensures forall k :: 0 <= k < |r| && MonthWordAt(cleaned, k) ==> r[k] == Upper(cleaned[k])
    ensures forall j, k :: 0 <= j < k < |r| && InMonthWord(cleaned, j, k) ==> r[k] == Lower(cleaned[k])
    ensures forall k :: 0 <= k < |r| && Plain(cleaned, 0, k) ==> r[k] == cleaned[k]
    ensures MonthsCapitalized(cleaned, 0, r)
  {
    var r := CapitalizeMonthsFrom(cleaned, 0);
    assert forall k :: 0 <= k < |r| && Plain(cleaned, 0, k) ==> r[k - 0] == r[k];
    assert forall k :: 0 <= k < |r| ==> ToLower(r)[k] == ToLower(cleaned)[k] by {
      forall k | 0 <= k < |r| ensures ToLower(r)[k] == ToLower(cleaned)[k] {
        assert r[k - 0] == r[k];
      }
    }
    r
  }

  // ---------------------------------------------------------------------------
  // E-mail addresses
  // ---------------------------------------------------------------------------

  /** The `email` case: white space removed, then lower-cased. */
  function CleanEmail(cleaned: string): (r: string)
    ensures forall k :: 0 <= k < |r| ==> !IsSpace(r[k]) && !IsUpper(r[k])
    ensures |r| == |NonSpace(cleaned)| && ToLower(r) == ToLower(NonSpace(cleaned))
  {
    var e := ToLower(NonSpace(cleaned));
    assert ToLower(e) == ToLower(NonSpace(cleaned)) by {
      forall k | 0 <= k < |e| ensures ToLower(e)[k] == ToLower(NonSpace(cleaned))[k] {
        LowerUpper(NonSpace(cleaned)[k]);
      }
    }
    e
  }

  // ---------------------------------------------------------------------------
  // The whole clean-up
  // ---------------------------------------------------------------------------

  /** `cleanFieldValue`. */
  function CleanFieldValue(value: string, fieldType: FieldType): (r: string)
    ensures fieldType == NameField ==>
      (forall k :: 0 <= k < |r| ==> NameChar(r[k])) && ToLower(r) == ToLower(NameBase(Cleaned(value)))
      && WordsCapitalised(r)
    ensures fieldType == EmailField ==>
      (forall k :: 0 <= k < |r| ==> !IsSpace(r[k]) && !IsUpper(r[k]))
      && |r| == |NonSpace(value)| && ToLower(r) == ToLower(NonSpace(value))
    ensures fieldType == PhoneField ==>
      var d := Digits(Cleaned(value));
      (|d| == 10 || (|d| == 11 && d[0] == '1') ==> Digits(r) == d)
      && (|d| == 10 ==> r == FormatTen(d)) && (|d| == 11 && d[0] == '1' ==> r == FormatEleven(d))
      && (|d| != 10 && !(|d| == 11 && d[0] == '1') ==> r == Cleaned(value))
    ensures fieldType == UrlField ==>
      (r == "" <==> Cleaned(value) == "") && (r != "" ==> StartsWith(r, "http"))
      && EndsWith(r, Cleaned(value)) && (StartsWith(Cleaned(value), "http") ==> r == Cleaned(value))
      && (Cleaned(value) != "" && !StartsWith(Cleaned(value), "http") ==> r == "https://" + Cleaned(value))
    ensures fieldType == DateField ==>
      ToLower(r) == ToLower(Cleaned(value))
      && MonthsCapitalized(Cleaned(value), 0, r)
    ensures fieldType == TextField ==>
      NonSpace(r) == NonSpace(value) && NoSpaceBefore(r, IsSpace) && NoSpaceBefore(r, IsClausePunct)
  {
    var cleaned := Cleaned(value);
    match fieldType
    case NameField => CleanName(cleaned)
    case EmailField => CleanEmail(cleaned)
    case PhoneField => CleanPhone(cleaned)
    case UrlField => WithScheme(cleaned)
    case DateField => CleanDate(cleaned)
    case TextField => NormalizeText(cleaned)
  }
}
