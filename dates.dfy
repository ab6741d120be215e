/** Reading a month and year out of a date fragment, and a date range out of an entry. */
module Dates {
  import opened Text
  import opened Regex
  import opened Storage

  datatype MonthYear = MonthYear(month: string, year: string)

  /** The words that stand for an open end; `s` is already lower-cased and trimmed. */
  predicate IsPresentText(s: string)
  {
    s in ["present", "current", "now", "ongoing", "today"]
    || s in ["p", "p.", "c", "c.", "now", "now."]
  }

  /** A four-digit year that the parser accepts (between `MIN_YEAR` and `MAX_YEAR`). */
  predicate IsBoundedYear(y: string)
  {
    |y| == 4 && AllDigits(y) && MIN_YEAR <= DecimalValue(y) <= MAX_YEAR
  }

  function BoundedOr(y: string, otherwise: string): (r: string)
    requires |y| == 4 && AllDigits(y)
    ensures r == y || r == otherwise
    ensures r == y <==> IsBoundedYear(y)  || y == otherwise
  {
    if MIN_YEAR <= DecimalValue(y) <= MAX_YEAR then y else otherwise
  }

  /** The first position at or after `from` (up to `n`) where `at` succeeds. */
  function Leftmost<T>(at: nat -> Option<T>, from: nat, n: nat): (r: Option<(nat, T)>)
    decreases n + 1 - from
    ensures r.Some? ==> from <= r.value.0 <= n && at(r.value.0) == Some(r.value.1)
    ensures r.Some? ==> forall j :: from <= j < r.value.0 ==> at(j).None?
    ensures r.None? ==> forall j :: from <= j <= n ==> at(j).None?
  {
    if from > n then None
    else match at(from)
      case Some(v) => Some((from, v))
      case None => Leftmost(at, from + 1, n)
  }

  /** `\b(19|20)\d{2}\b` tried at position `i`. */
  function YearMatchAt(s: string, i: nat): (r: Option<string>)
    ensures r.Some? ==> i + 4 <= |s| && r.value == s[i..i + 4] && AllDigits(r.value)
  {
    if i + 4 <= |s| && IsBoundary(s, i) && ((s[i] == '1' && s[i + 1] == '9') || (s[i] == '2' && s[i + 1] == '0'))
       && IsDigit(s[i + 2]) && IsDigit(s[i + 3]) && IsBoundary(s, i + 4)
    then Some(s[i..i + 4])
    else None
  }

  function DigitValue(c: char): int { c as int - '0' as int }

  lemma FourDigitValue(y: string)
    requires |y| == 4 && AllDigits(y)
    ensures DecimalValue(y) == 1000 * DigitValue(y[0]) + 100 * DigitValue(y[1]) + 10 * DigitValue(y[2]) + DigitValue(y[3])
  {
    var y3, y2, y1 := y[..3], y[..2], y[..1];
    assert y3[..2] == y2 && y2[..1] == y1 && y1[..0] == [];
    assert DecimalValue(y) == DecimalValue(y3) * 10 + DigitValue(y[3]);
    assert DecimalValue(y3) == DecimalValue(y2) * 10 + DigitValue(y[2]);
    assert DecimalValue(y2) == DecimalValue(y1) * 10 + DigitValue(y[1]);
    assert DecimalValue(y1) == DigitValue(y[0]);
  }

  /** The leftmost year-like number: `str.match(/\b(19|20)\d{2}\b/)`. */
  function FindYear(s: string): (r: Option<string>)
    ensures r.Some? ==> |r.value| == 4 && AllDigits(r.value)
    ensures r.Some? ==> 1900 <= DecimalValue(r.value) <= 2099
  {
    match Leftmost((i: nat) => YearMatchAt(s, i), 0, |s|)
    case Some((_, y)) =>
      assert (y[0] == '1' && y[1] == '9') || (y[0] == '2' && y[1] == '0');
      FourDigitValue(y);
      Some(y)
    case None => None
  }

  /** `(\d{1,2})\/(\d{4})` tried at position `i`: the month digits and the year digits. */
  function SlashDateAt(s: string, i: nat): (r: Option<(string, string)>)
    ensures r.Some? ==> 1 <= |r.value.0| <= 2 && AllDigits(r.value.0) && |r.value.1| == 4 && AllDigits(r.value.1)
  {
    if i + 7 <= |s| && IsDigit(s[i]) && IsDigit(s[i + 1]) && s[i + 2] == '/' && AllDigits(s[i + 3..i + 7])
    then Some((s[i..i + 2], s[i + 3..i + 7]))
    else if i + 6 <= |s| && IsDigit(s[i]) && s[i + 1] == '/' && AllDigits(s[i + 2..i + 6])
    then Some((s[i..i + 1], s[i + 2..i + 6]))
    else None
  }

  /** `(\d{4})-(\d{1,2})` tried at position `i`: the year digits and the month digits. */
  function DashDateAt(s: string, i: nat): (r: Option<(string, string)>)
    ensures r.Some? ==> |r.value.0| == 4 && AllDigits(r.value.0) && 1 <= |r.value.1| <= 2 && AllDigits(r.value.1)
  {
    if i + 6 <= |s| && AllDigits(s[i..i + 4]) && s[i + 4] == '-' && IsDigit(s[i + 5]) then
      if i + 7 <= |s| && IsDigit(s[i + 6]) then Some((s[i..i + 4], s[i + 5..i + 7]))
      else Some((s[i..i + 4], s[i + 5..i + 6]))
    else None
  }

  function FindSlashDate(s: string): (r: Option<(string, string)>)
    ensures r.Some? ==> 1 <= |r.value.0| <= 2 && AllDigits(r.value.0) && |r.value.1| == 4 && AllDigits(r.value.1)
  {
    match Leftmost((i: nat) => SlashDateAt(s, i), 0, |s|)
    case Some((_, v)) => Some(v)
    case None => None
  }

  function FindDashDate(s: string): (r: Option<(string, string)>)
    ensures r.Some? ==> |r.value.0| == 4 && AllDigits(r.value.0) && 1 <= |r.value.1| <= 2 && AllDigits(r.value.1)
  {
    match Leftmost((i: nat) => DashDateAt(s, i), 0, |s|)
    case Some((_, v)) => Some(v)
    case None => None
  }

  /** `MONTHS[parseInt(digits) - 1]` when that index is in range, else `otherwise`. */
  function NumberedMonthOr(digits: string, otherwise: string): (r: string)
    requires AllDigits(digits)
    ensures r in MONTHS || r == otherwise
  {
    var n := DecimalValue(digits);
    if 1 <= n <= 12 then MONTHS[n - 1] else otherwise
  }

  /** `MONTHS[i].toLowerCase()`. */
  function LowerMonth(i: nat): string
    requires i < 12
  {
    ToLower(MONTHS[i])
  }

  /** The month test of the source: the full name, the first three letters, or the first
      two letters occur in `s`. */
  predicate NamesMonthAsWritten(s: string, i: nat)
    requires i < 12
  {
    Contains(s, LowerMonth(i)) || Contains(s, LowerMonth(i)[..3]) || Contains(s, LowerMonth(i)[..2])
  }

  /** The month test without the two-letter prefix: the full name or the first three letters. */
  predicate NamesMonth(s: string, i: nat)
    requires i < 12
  {
    Contains(s, LowerMonth(i)) || Contains(s, LowerMonth(i)[..3])
  }

  /** The first month, from index `i` on, that `s` names (`''` if none). */
  function MonthNamedFrom(s: string, i: nat, twoLetters: bool): (r: string)
    requires i <= 12
    decreases 12 - i
    ensures r == "" || r in MONTHS
    ensures r != "" ==> exists k :: (i <= k < 12 && r == MONTHS[k]
      && (if twoLetters then NamesMonthAsWritten(s, k) else NamesMonth(s, k)))
  {
    if i == 12 then ""
    else if (if twoLetters then NamesMonthAsWritten(s, i) else NamesMonth(s, i)) then MONTHS[i]
    else MonthNamedFrom(s, i + 1, twoLetters)
  }

  /** The season words, used only when no month was found. */
  function SeasonMonth(s: string, month: string): (r: string)
    ensures month != "" ==> r == month
    ensures r == month || r in MONTHS
  {
    var m1 := if month == "" && Contains(s, "spring") then MONTHS[2] else month;
    var m2 := if m1 == "" && Contains(s, "summer") then MONTHS[5] else m1;
    var m3 := if m2 == "" && Contains(s, "fall") then MONTHS[8] else m2;
    var m4 := if m3 == "" && Contains(s, "autumn") then MONTHS[8] else m3;
    if m4 == "" && Contains(s, "winter") then MONTHS[11] else m4
  }

  /** The year found by `\b(19|20)\d{2}\b`, kept only when it is within bounds. */
  function ScanYear(str: string): (y: string)
    ensures y == "" || IsBoundedYear(y)
  {
    match FindYear(str) case Some(t) => BoundedOr(t, "") case None => ""
  }

  predicate WellFormed(d: MonthYear)
  {
    (d.month == "" || d.month in MONTHS) && (d.year == "" || IsBoundedYear(d.year))
  }

  /** The MM/YYYY step: each of its parts overrides when valid. */
  function SlashStep(str: string, d: MonthYear): (r: MonthYear)
    ensures WellFormed(d) ==> WellFormed(r)
  {
    match FindSlashDate(str)
    case Some((mm, yy)) => MonthYear(NumberedMonthOr(mm, d.month), BoundedOr(yy, d.year))
    case None => d
  }

  /** The YYYY-MM step: applies only when no year has been found yet. */
  function DashStep(str: string, d: MonthYear): (r: MonthYear)
    ensures WellFormed(d) ==> WellFormed(r)
    ensures d.year != "" ==> r == d
  {
    match FindDashDate(str)
    case Some((yy, mm)) => if d.year == "" then MonthYear(NumberedMonthOr(mm, d.month), BoundedOr(yy, d.year)) else d
    case None => d
  }

  /** `parseMonthYear` once the month found by name (`named`) is known. */
  function ParseWithNamedMonth(str: string, s: string, named: string): (r: MonthYear)
    requires named == "" || named in MONTHS
    ensures WellFormed(r)
  {
    var d := DashStep(str, SlashStep(str, MonthYear(named, ScanYear(str))));
    MonthYear(SeasonMonth(s, d.month), d.year)
  }

  /** `parseMonthYear`, month names matched as the source matches them: by the full name,
      the first three letters or the first two letters. The result is the open end
      `('', 'Present')` exactly for the present-words; otherwise the month is `''` or a month
      name and the year `''` or an accepted four-digit year. */
  function ParseMonthYear(str: string): (r: MonthYear)
    ensures IsPresentText(Trim(ToLower(str))) <==> r == MonthYear("", "Present")
    ensures r.year == "Present" ==> r.month == ""
    ensures r.year != "Present" ==> (r.month == "" || r.month in MONTHS) && (r.year == "" || IsBoundedYear(r.year))
  {
    var s := Trim(ToLower(str));
    if IsPresentText(s) then MonthYear("", "Present")
    else ParseWithNamedMonth(str, s, MonthNamedFrom(s, 0, true))
  }

  /** `parseMonthYear` as evidently intended: month names matched by the full name or the
      three-letter abbreviation only. */
  function ParseMonthYearIntended(str: string): (r: MonthYear)
    ensures IsPresentText(Trim(ToLower(str))) <==> r == MonthYear("", "Present")
    ensures r.year == "Present" ==> r.month == ""
    ensures r.year != "Present" ==> (r.month == "" || r.month in MONTHS) && (r.year == "" || IsBoundedYear(r.year))
  {
    var s := Trim(ToLower(str));
    if IsPresentText(s) then MonthYear("", "Present")
    else ParseWithNamedMonth(str, s, MonthNamedFrom(s, 0, false))
  }

  /** The loop over the month table: the first month whose full name, three-letter
      abbreviation or two-letter prefix occurs in `s`. */
  method NamedMonthSteps(s: string) returns (month: string)
    ensures month == MonthNamedFrom(s, 0, true)
  {
    var i := 0;
    while i < 12
      invariant 0 <= i <= 12
      invariant MonthNamedFrom(s, i, true) == MonthNamedFrom(s, 0, true)
    {
      if NamesMonthAsWritten(s, i) {
        return MONTHS[i];
      }
      i := i + 1;
    }
    return "";
  }

  /** `parseMonthYear`'s reassignments of `month` and `year`, step by step. */
  method ParseMonthYearSteps(str: string) returns (month: string, year: string)
    ensures MonthYear(month, year) == ParseMonthYear(str)
  {
    var s := Trim(ToLower(str));
    if IsPresentText(s) {
      return "", "Present";
    }
    month := NamedMonthSteps(s);
    year := YearSteps(str);
    month, year := SlashSteps(str, month, year);
    month, year := DashSteps(str, month, year);
    month := SeasonSteps(s, month);
  }

  /** The bare-year test: the leftmost `\b(19|20)\d{2}\b`, kept when within bounds. */
  method YearSteps(str: string) returns (year: string)
    ensures year == ScanYear(str)
  {
    year := "";
    match FindYear(str) {
      case Some(t) =>
        if MIN_YEAR <= DecimalValue(t) <= MAX_YEAR {
          year := t;
        }
      case None =>
    }
  }

  /** The MM/YYYY test. */
  method SlashSteps(str: string, month0: string, year0: string) returns (month: string, year: string)
    ensures MonthYear(month, year) == SlashStep(str, MonthYear(month0, year0))
  {
    month, year := month0, year0;
    match FindSlashDate(str) {
      case Some((mm, yy)) =>
        var n := DecimalValue(mm);
        if 1 <= n <= 12 {
          month := MONTHS[n - 1];
        }
        if MIN_YEAR <= DecimalValue(yy) <= MAX_YEAR {
          year := yy;
        }
      case None =>
    }
  }

  /** The YYYY-MM test, which only runs while no year is known. */
  method DashSteps(str: string, month0: string, year0: string) returns (month: string, year: string)
    ensures MonthYear(month, year) == DashStep(str, MonthYear(month0, year0))
  {
    month, year := month0, year0;
    match FindDashDate(str) {
      case Some((yy, mm)) =>
        if year == "" {
          if MIN_YEAR <= DecimalValue(yy) <= MAX_YEAR {
            year := yy;
          }
          var n := DecimalValue(mm);
          if 1 <= n <= 12 {
            month := MONTHS[n - 1];
          }
        }
      case None =>
    }
  }

  /** The season tests, each applied only while no month is known. */
  method SeasonSteps(s: string, named: string) returns (month: string)
    ensures month == SeasonMonth(s, named)
  {
    month := named;
    if month == "" && Contains(s, "spring") { month := MONTHS[2]; }
    if month == "" && Contains(s, "summer") { month := MONTHS[5]; }
    if month == "" && Contains(s, "fall") { month := MONTHS[8]; }
    if month == "" && Contains(s, "autumn") { month := MONTHS[8]; }
    if month == "" && Contains(s, "winter") { month := MONTHS[11]; }
  }

  // ---------------------------------------------------------------------------
  // Date ranges

  /** `[-–—to]`, the separator class of the range patterns. */
  const Sep: Re := Chars("-\U{2013}\U{2014}to")

  const MonthYearRe: Re := Seqs([Plus(WordCh), Opt(Chr('.')), Star(Space), Rep(Digit, 4, 4)])
  const SlashRe: Re := Seqs([Rep(Digit, 1, 2), Chr('/'), Rep(Digit, 4, 4)])

  function Between(first: Re, second: Re): Re
  {
    Seqs([first, Star(Space), Plus(Sep), Star(Space), second])
  }

  /** The four range patterns, all with the `g` and `i` flags, in the order they are tried. */
  const RangePatterns: seq<Pattern> := [
    Insensitive(Between(Group(1, MonthYearRe),
      Group(2, Alts([MonthYearRe, Lit("present"), Lit("current"), Lit("ongoing"), Lit("today")])))),
    Insensitive(Between(Group(1, SlashRe), Group(2, Alts([SlashRe, Lit("present"), Lit("current"), Lit("today")])))),
    Insensitive(Seqs([B, Between(Group(1, Rep(Digit, 4, 4)),
      Group(2, Alts([Rep(Digit, 4, 4), Lit("present"), Lit("current"), Lit("today")]))), B])),
    Insensitive(Seqs([Group(1, Rep(Digit, 4, 4)), Chr('-'), Group(2, Rep(Digit, 1, 2)),
      Star(Space), Plus(Sep), Star(Space), Group(3, Rep(Digit, 4, 4)), Chr('-'),
      Group(4, Alts([Rep(Digit, 1, 2), Lit("present"), Lit("current")]))]))
  ]

  /** `/[-–—]|to/i`, which cuts a matched range into its two ends. */
  const RangeSplitter: Pattern := Insensitive(Alt(Chars("-\U{2013}\U{2014}"), Lit("to")))

  function TrimAll(xs: seq<string>): (r: seq<string>)
    ensures |r| == |xs|
    ensures forall k :: 0 <= k < |xs| ==> r[k] == Trim(xs[k])
  {
    if xs == [] then [] else [Trim(xs[0])] + TrimAll(xs[1..])
  }

  /** The two ends a range pattern yields on `text`, if it matches and the match splits
      into at least two parts. */
  function RangeEnds(p: Pattern, text: string): Option<(string, string)>
  {
    match FirstText(p, text)
    case None => None
    case Some(m) =>
      var parts := TrimAll(Split(RangeSplitter, m));
      if |parts| >= 2 then Some((parts[0], parts[1])) else None
  }

  /** The first range pattern, from index `k` on, that yields two ends. */
  function FirstRange(ps: seq<Pattern>, text: string, k: nat): (r: Option<(string, string)>)
    requires k <= |ps|
    decreases |ps| - k
    ensures r.None? ==> forall j :: k <= j < |ps| ==> RangeEnds(ps[j], text).None?
    ensures r.Some? ==> exists j :: k <= j < |ps| && RangeEnds(ps[j], text) == r
  {
    if k == |ps| then None
    else match RangeEnds(ps[k], text)
      case Some(v) => Some(v)
      case None => FirstRange(ps, text, k + 1)
  }

  /** A range with only the end year: the first year-like number, not bounds-checked. */
  function YearOnly(text: string): (r: DateRange)
    ensures r == EmptyDateRange() || (r.startMonth == "" && r.startYear == "" && r.endMonth == ""
      && FindYear(text) == Some(r.endYear))
  {
    match FindYear(text)
    case Some(y) => DateRange("", "", "", y)
    case None => EmptyDateRange()
  }

  /** `extractDateRange`: the two ends of the first range pattern that matches, each read by
      `parseMonthYear`; otherwise a bare year as the end; otherwise the empty range. An open
      end never carries a month. */
  function ExtractDateRange(text: string): (r: DateRange)
    ensures r.endYear == "Present" ==> r.endMonth == ""
    ensures r.startYear == "Present" ==> r.startMonth == ""
    ensures FirstRange(RangePatterns, text, 0).Some? ==>
      var (a, b) := FirstRange(RangePatterns, text, 0).value;
      MonthYear(r.startMonth, r.startYear) == ParseMonthYear(a) && MonthYear(r.endMonth, r.endYear) == ParseMonthYear(b)
    ensures FirstRange(RangePatterns, text, 0).None? ==>
      r == EmptyDateRange() || (r.startMonth == "" && r.startYear == "" && r.endMonth == "" && FindYear(text) == Some(r.endYear))
  {
    match FirstRange(RangePatterns, text, 0)
    case Some((a, b)) =>
      var start := ParseMonthYear(a);
      var end := ParseMonthYear(b);
      DateRange(start.month, start.year, end.month, end.year)
    case None => YearOnly(text)
  }

  /** No entry's end is read as open while also carrying a month, and a bare-year fallback
      never has a start. */
  lemma OpenEndHasNoMonth(text: string)
    ensures ExtractDateRange(text).endYear == "Present" ==> ExtractDateRange(text).endMonth == ""
    ensures FirstRange(RangePatterns, text, 0).None? ==> ExtractDateRange(text).startYear == ""
  {
  }

  // ---------------------------------------------------------------------------
  // Month names: the source also accepts a bare two-letter prefix

  /** A string without digits has no MM/YYYY or YYYY-MM part. */
  lemma NoDigitsNoNumericDate(str: string)
    requires forall k :: 0 <= k < |str| ==> !IsDigit(str[k])
    ensures FindSlashDate(str).None? && FindDashDate(str).None?
  {
  }

  /** For a word without digits, the month found by name is the month of the result. */
  lemma WordMonth(str: string, s: string, named: string)
    requires forall k :: 0 <= k < |str| ==> !IsDigit(str[k])
    requires named in MONTHS
    ensures ParseWithNamedMonth(str, s, named).month == named
  {
    NoDigitsNoNumericDate(str);
  }

  /** A word without digits reads as the month that the two-letter test finds first. */
  lemma WordReadAs(str: string, s: string, i: nat)
    requires i < 12
    requires forall k :: 0 <= k < |str| ==> !IsDigit(str[k])
    requires s == Trim(ToLower(str)) && !IsPresentText(s)
    requires MonthNamedFrom(s, 0, true) == MONTHS[i]
    ensures ParseMonthYear(str).month == MONTHS[i]
  {
    WordMonth(str, s, MONTHS[i]);
  }

  /** The same for the intended reading, where `i` is the first month named in full or by
      its three-letter abbreviation. */
  lemma WordReadAsIntended(str: string, s: string, i: nat)
    requires i < 12
    requires forall k :: 0 <= k < |str| ==> !IsDigit(str[k])
    requires s == Trim(ToLower(str)) && !IsPresentText(s)
    requires MonthNamedFrom(s, 0, false) == MONTHS[i]
    ensures ParseMonthYearIntended(str).month == MONTHS[i]
  {
    WordMonth(str, s, MONTHS[i]);
  }

  /** The first month named, when every earlier month is not. */
  lemma {:induction false} FirstNamedMonth(s: string, i: nat, from: nat, twoLetters: bool)
    requires from <= i < 12
    requires forall j :: from <= j < i ==> !(if twoLetters then NamesMonthAsWritten(s, j) else NamesMonth(s, j))
    requires if twoLetters then NamesMonthAsWritten(s, i) else NamesMonth(s, i)
    ensures MonthNamedFrom(s, from, twoLetters) == MONTHS[i]
    decreases i - from
  {
    if from < i {
      FirstNamedMonth(s, i, from + 1, twoLetters);
    }
  }

  lemma MayFirstTwoLetters(s: string)
    requires s == "may"
    ensures MonthNamedFrom(s, 0, true) == MONTHS[2]
  {
    AbsentCharNotContained(s, LowerMonth(0), 0);
    AbsentCharNotContained(s, LowerMonth(0)[..3], 0);
    AbsentCharNotContained(s, LowerMonth(0)[..2], 0);
    AbsentCharNotContained(s, LowerMonth(1), 0);
    AbsentCharNotContained(s, LowerMonth(1)[..3], 0);
    AbsentCharNotContained(s, LowerMonth(1)[..2], 0);
    OccursContains(s, LowerMonth(2)[..2], 0);
    FirstNamedMonth(s, 2, 0, true);
  }

  lemma MayByName(s: string)
    requires s == "may"
    ensures MonthNamedFrom(s, 0, false) == MONTHS[4]
  {
    AbsentCharNotContained(s, LowerMonth(0), 0);
    AbsentCharNotContained(s, LowerMonth(0)[..3], 0);
    AbsentCharNotContained(s, LowerMonth(1), 0);
    AbsentCharNotContained(s, LowerMonth(1)[..3], 0);
    AbsentCharNotContained(s, LowerMonth(2), 2);
    AbsentCharNotContained(s, LowerMonth(2)[..3], 2);
    AbsentCharNotContained(s, LowerMonth(3), 1);
    AbsentCharNotContained(s, LowerMonth(3)[..3], 1);
    OccursContains(s, LowerMonth(4), 0);
    FirstNamedMonth(s, 4, 0, false);
  }

  lemma JulyFirstTwoLetters(s: string)
    requires s == "july"
    ensures MonthNamedFrom(s, 0, true) == MONTHS[5]
  {
    forall j | 0 <= j < 5 ensures !NamesMonthAsWritten(s, j) {
      var k := if j == 0 then 1 else 0;
      assert LowerMonth(j)[..3][k] == LowerMonth(j)[..2][k] == LowerMonth(j)[k];
      AbsentCharNotContained(s, LowerMonth(j), k);
      AbsentCharNotContained(s, LowerMonth(j)[..3], k);
      AbsentCharNotContained(s, LowerMonth(j)[..2], k);
    }
    OccursContains(s, LowerMonth(5)[..2], 0);
    FirstNamedMonth(s, 5, 0, true);
  }

  lemma JulyByName(s: string)
    requires s == "july"
    ensures MonthNamedFrom(s, 0, false) == MONTHS[6]
  {
    forall j | 0 <= j < 6 ensures !NamesMonth(s, j) {
      var k := if j == 0 then 1 else if j == 5 then 2 else 0;
      assert LowerMonth(j)[..3][k] == LowerMonth(j)[k];
      AbsentCharNotContained(s, LowerMonth(j), k);
      AbsentCharNotContained(s, LowerMonth(j)[..3], k);
    }
    OccursContains(s, LowerMonth(6), 0);
    FirstNamedMonth(s, 6, 0, false);
  }

  lemma MayWord(str: string)
    requires str == "May"
    ensures Trim(ToLower(str)) == "may" && !IsPresentText("may")
    ensures forall k :: 0 <= k < |str| ==> !IsDigit(str[k])
  {
    assert ToLower(str) == "may";
    TrimUnchanged("may");
  }

  lemma JulyWord(str: string)
    requires str == "July"
    ensures Trim(ToLower(str)) == "july" && !IsPresentText("july")
    ensures forall k :: 0 <= k < |str| ==> !IsDigit(str[k])
  {
    assert ToLower(str) == "july";
    TrimUnchanged("july");
  }

  /** As written, `"May"` is read as March (`MONTHS[2]`): its first two letters are those
      of March. */
  lemma MayReadAsMarch(str: string)
    requires str == "May"
    ensures ParseMonthYear(str).month == MONTHS[2]
  {
    MayWord(str);
    var s := Trim(ToLower(str));
    MayFirstTwoLetters(s);
    WordReadAs(str, s, 2);
  }

  /** As written, `"July"` is read as June (`MONTHS[5]`). */
  lemma JulyReadAsJune(str: string)
    requires str == "July"
    ensures ParseMonthYear(str).month == MONTHS[5]
  {
    JulyWord(str);
    var s := Trim(ToLower(str));
    JulyFirstTwoLetters(s);
    WordReadAs(str, s, 5);
  }

  /** Matching by full name or three-letter abbreviation reads `"May"` as May (`MONTHS[4]`). */
  lemma MayReadAsMay(str: string)
    requires str == "May"
    ensures ParseMonthYearIntended(str).month == MONTHS[4]
  {
    MayWord(str);
    MayByName(Trim(ToLower(str)));
    WordReadAsIntended(str, Trim(ToLower(str)), 4);
  }

  /** Matching by full name or three-letter abbreviation reads `"July"` as July (`MONTHS[6]`). */
  lemma JulyReadAsJuly(str: string)
    requires str == "July"
    ensures ParseMonthYearIntended(str).month == MONTHS[6]
  {
    JulyWord(str);
    JulyByName(Trim(ToLower(str)));
    WordReadAsIntended(str, Trim(ToLower(str)), 6);
  }
}
