/** The stored résumé records, the month table and year bounds the parser relies on, and
    the two date-range helpers. */
module Storage {
  import opened Text

  const MONTHS: seq<string> :=
    ["January", "February", "March", "April", "May", "June",
     "July", "August", "September", "October", "November", "December"]

  const MIN_YEAR: nat := 1930
  const MAX_YEAR: nat := 2040

  /** Months and years are strings: `''` when absent, `'Present'` for an open end. */
  datatype DateRange = DateRange(startMonth: string, startYear: string, endMonth: string, endYear: string)

  datatype WorkExperience = WorkExperience(
    id: string, title: string, company: string, location: string, dates: DateRange,
    description: string, present: bool)

  datatype Education = Education(
    id: string, school: string, degree: string, field: string, location: string,
    dates: DateRange, gpa: Option<string>, description: string, present: bool)

  datatype LeadershipExperience = LeadershipExperience(
    id: string, role: string, organization: string, location: string, dates: DateRange,
    description: string, present: bool)

  datatype Award = Award(id: string, title: string, issuer: string, date: string, description: string)

  datatype Author = Author(firstName: string, lastName: string)

  datatype Publication = Publication(
    id: string, title: string, authors: string, authorsList: seq<Author>, journal: string,
    date: string, url: string, description: string)

  datatype Grant = Grant(
    id: string, title: string, funder: string, amount: string, dates: DateRange, description: string)

  datatype TeachingExperience = TeachingExperience(
    id: string, course: string, institution: string, role: string, dates: DateRange, description: string)

  datatype Conference = Conference(
    id: string, title: string, conference: string, location: string, date: string, description: string)

  datatype PersonalInfo = PersonalInfo(
    firstName: string, lastName: string, email: string, phone: string, linkedin: string,
    website: string, github: string, address: string)

  datatype ResumeData = ResumeData(
    personalInfo: PersonalInfo,
    workExperience: seq<WorkExperience>,
    education: seq<Education>,
    leadershipExperience: seq<LeadershipExperience>,
    awards: seq<Award>,
    publications: seq<Publication>,
    grants: seq<Grant>,
    teachingExperience: seq<TeachingExperience>,
    conferences: seq<Conference>,
    skills: seq<string>)

  /** A range with every field absent. */
  function EmptyDateRange(): (d: DateRange)
    ensures d.startMonth == "" && d.startYear == "" && d.endMonth == "" && d.endYear == ""
  {
    DateRange("", "", "", "")
  }

  /** JavaScript `a || b` on strings: `a` unless it is empty. */
  function OrElse(a: string, b: string): (r: string)
    ensures r == (if a != "" then a else b)
  {
    if a != "" then a else b
  }

  /** The start of a range as displayed: `"Month Year"` when both are known, otherwise
      the year alone (possibly empty). */
  function StartText(d: DateRange): string
  {
    if d.startMonth != "" && d.startYear != "" then d.startMonth + " " + d.startYear
    else d.startYear
  }

  /** The end of a range as displayed; an absent end year reads as `"Present"`. */
  function EndText(d: DateRange): string
  {
    if d.endMonth != "" && d.endYear != "" then d.endMonth + " " + d.endYear
    else OrElse(d.endYear, "Present")
  }

  /** `formatDateRange`. */
  function FormatDateRange(d: DateRange): (r: string)
    ensures r != ""
    ensures StartText(d) != "" ==> r == StartText(d) + " \U{2014} " + EndText(d)
    ensures StartText(d) == "" ==> r == EndText(d)
  {
    var start := StartText(d);
    var end := EndText(d);
    if start != "" && end != "" then start + " \U{2014} " + end else OrElse(OrElse(start, end), "")
  }

  lemma EndTextNonEmpty(d: DateRange)
    ensures EndText(d) != ""
    ensures d.endYear == "" ==> EndText(d) == "Present"
  {
  }

  /** An empty range displays as `"Present"`. */
  lemma FormatEmptyIsPresent()
    ensures FormatDateRange(EmptyDateRange()) == "Present"
  {
  }

  /** The start month shows only together with a start year: without a year the start
      part is empty and the month is dropped from the display. */
  lemma StartMonthNeedsYear(d: DateRange)
    ensures d.startYear == "" ==> StartText(d) == ""
    ensures d.startMonth != "" && d.startYear != "" ==> StartText(d) == d.startMonth + " " + d.startYear
    ensures d.startMonth == "" ==> StartText(d) == d.startYear
  {
  }

  /** The display carries the separator exactly when the range has a start part. */
  lemma FormatHasSeparatorIff(d: DateRange)
    ensures StartText(d) != "" <==> FormatDateRange(d) == StartText(d) + " \U{2014} " + EndText(d)
  {
    if StartText(d) == "" {
      assert |FormatDateRange(d)| == |EndText(d)|;
    }
  }
}
