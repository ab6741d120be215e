/** The whole pipeline (`parseResume`, `structureResumeText`): a file whose name does not end
    in `.pdf` is refused; otherwise the text of its pages is normalised, split into section
    buckets, and each bucket is handed to its extractor. Records take their identifiers in
    the order the extractors run. */
module Resume {
  import opened Text
  import opened Storage
  import opened Normalize
  import opened Lists
  import opened Extract
  import Sections
  import LineReconstruction
  import Personal
  import Work
  import Education
  import Leadership
  import Awards
  import Publications
  import Grants
  import Teaching
  import Conferences
  import Skills

  /** The lines `splitIntoSections` puts into bucket `b`. */
  function Bucket(text: string, b: Sections.Bucket): seq<string>
  {
    Sections.Contents(Sections.Route(Sections.IsSectionHeader, Sections.TextLines(text)), b)
  }

  function Section(text: string, s: Sections.Section): seq<string>
  {
    Bucket(text, Sections.SectionBucket(s))
  }

  /** What `extractSkills` returns for the lines. */
  function SkillsOf(lines: seq<string>): seq<string>
  {
    DedupBy(Skills.Candidates(Skills.CleanSkill, Skills.RawSkills(lines)), Skills.Same)
  }

  function WorkId(w: WorkExperience): string { w.id }
  function EducationId(e: Storage.Education): string { e.id }
  function LeadershipId(x: LeadershipExperience): string { x.id }
  function AwardId(a: Award): string { a.id }
  function PublicationId(p: Publication): string { p.id }
  function GrantId(g: Grant): string { g.id }
  function TeachingId(t: TeachingExperience): string { t.id }
  function ConferenceId(c: Conference): string { c.id }

  /** `structureResumeText`: the personal details from the header bucket and the whole
      text, then each extractor on its bucket in the order of the record literal, each one
      numbering its records after the identifiers the extractors before it have taken. */
  function StructureResumeText(h: Heuristics, text: string, ids: IdSupply): ResumeData
  {
    var work := Work.ExtractWorkExperience(h, Section(text, Sections.Experience), ids, 0);
    var taken1 := Keys(work, WorkId);
    var education := Education.EducationOf(h, Section(text, Sections.Education), ids, |taken1|);
    var taken2 := taken1 + Keys(education, EducationId);
    var leadership := Leadership.ExtractLeadership(Section(text, Sections.Leadership), ids, |taken2|);
    var taken3 := taken2 + Keys(leadership, LeadershipId);
    var awards := Awards.AwardsOf(Section(text, Sections.Awards), ids, |taken3|);
    var taken4 := taken3 + Keys(awards, AwardId);
    var publications := Publications.PublicationsOf(h, Section(text, Sections.Publications), ids, |taken4|);
    var taken5 := taken4 + Keys(publications, PublicationId);
    var grants := Grants.ExtractGrants(Section(text, Sections.Grants), ids, |taken5|);
    var taken6 := taken5 + Keys(grants, GrantId);
    var teaching := Teaching.ExtractTeaching(Section(text, Sections.Teaching), ids, |taken6|);
    var taken7 := taken6 + Keys(teaching, TeachingId);
    var conferences := Conferences.ExtractConferences(Section(text, Sections.Conferences), ids, |taken7|);
    ResumeData(Personal.ExtractPersonalInfo(Bucket(text, Sections.HeaderBucket), text), work, education,
      leadership, awards, publications, grants, teaching, conferences, SkillsOf(Section(text, Sections.Skills)))
  }

  // ---------------------------------------------------------------- parseResume

  const PDF_ONLY: string := "Only PDF files are supported. Please convert your document to PDF format."

  /** `file.name.split('.').pop()?.toLowerCase()`: the text after the last period,
      lower-cased (the whole name when it has no period). */
  function Extension(name: string): string
  {
    var parts := SplitOn(name, '.');
    ToLower(parts[|parts| - 1])
  }

  datatype Outcome = Structured(data: ResumeData) | Refused(message: string)

  /** `parseResume`, given the file name and the text fragments of its pages. */
  function ParseResume(name: string, pages: seq<seq<LineReconstruction.Fragment>>, h: Heuristics, ids: IdSupply): Outcome
  {
    if Extension(name) != "pdf" then Refused(PDF_ONLY)
    else Structured(StructureResumeText(h, NormalizeText(LineReconstruction.DocumentText(pages)), ids))
  }

  /** The last piece of `a.b` split at periods is `b` when `b` has none. */
  lemma {:induction false} SplitOnLast(a: string, b: string, c: char)
    requires c !in b
    ensures var parts := SplitOn(a + [c] + b, c); parts[|parts| - 1] == b && |parts| >= 2
  {
    var s := a + [c] + b;
    if a == [] {
      assert s[1..] == b;
      SplitOnNone(b, c);
    } else {
      SplitOnLast(a[1..], b, c);
      assert s[1..] == a[1..] + [c] + b;
    }
  }

  /** The extension of `base.ext` is `ext` lower-cased whenever `ext` has no period, whatever
      periods `base` has. */
  lemma ExtensionOf(base: string, ext: string)
    requires '.' !in ext
    ensures Extension(base + "." + ext) == ToLower(ext)
  {
    SplitOnLast(base, ext, '.');
  }

  /** A file is refused, with the one message, exactly when its extension is not `pdf`. */
  lemma RefusedIff(name: string, pages: seq<seq<LineReconstruction.Fragment>>, h: Heuristics, ids: IdSupply)
    ensures ParseResume(name, pages, h, ids).Refused? <==> Extension(name) != "pdf"
    ensures ParseResume(name, pages, h, ids).Refused? ==> ParseResume(name, pages, h, ids).message == PDF_ONLY
  {
  }

  // ---------------------------------------------------------------- identifiers

  /** Every identifier in the résumé, in the order the records were made. */
  function AllIds(r: ResumeData): seq<string>
  {
    Keys(r.workExperience, WorkId) + Keys(r.education, EducationId)
    + Keys(r.leadershipExperience, LeadershipId) + Keys(r.awards, AwardId)
    + Keys(r.publications, PublicationId) + Keys(r.grants, GrantId)
    + Keys(r.teachingExperience, TeachingId) + Keys(r.conferences, ConferenceId)
  }

  /** `xs` holds the identifiers `ids(from)`, `ids(from + 1)`, ... in order. */
  predicate NumberedFrom(xs: seq<string>, ids: IdSupply, from: nat)
  {
    forall k :: 0 <= k < |xs| ==> xs[k] == ids(from + k)
  }

  lemma NumberedConcat(a: seq<string>, b: seq<string>, ids: IdSupply)
    requires NumberedFrom(a, ids, 0) && NumberedFrom(b, ids, |a|)
    ensures NumberedFrom(a + b, ids, 0)
  {
  }

  lemma WorkIds(h: Heuristics, lines: seq<string>, ids: IdSupply, next: nat)
    ensures NumberedFrom(Keys(Work.ExtractWorkExperience(h, lines, ids, next), WorkId), ids, next)
  {
    Work.WorkDescribed(h, lines, ids, next);
  }

  lemma EducationIds(h: Heuristics, lines: seq<string>, ids: IdSupply, next: nat)
    ensures NumberedFrom(Keys(Education.EducationOf(h, lines, ids, next), EducationId), ids, next)
  {
    Education.EducationNumbered(h, lines, ids, next);
  }

  lemma LeadershipIds(lines: seq<string>, ids: IdSupply, next: nat)
    ensures NumberedFrom(Keys(Leadership.ExtractLeadership(lines, ids, next), LeadershipId), ids, next)
  {
    Leadership.LeadershipDescribed(lines, ids, next);
  }

  lemma AwardIds(lines: seq<string>, ids: IdSupply, next: nat)
    ensures NumberedFrom(Keys(Awards.AwardsOf(lines, ids, next), AwardId), ids, next)
  {
    Awards.AwardsNumbered(lines, ids, next);
  }

  lemma PublicationIds(h: Heuristics, lines: seq<string>, ids: IdSupply, next: nat)
    ensures NumberedFrom(Keys(Publications.PublicationsOf(h, lines, ids, next), PublicationId), ids, next)
  {
    Publications.PublicationsNumbered(h, lines, ids, next);
  }

  lemma GrantIds(lines: seq<string>, ids: IdSupply, next: nat)
    ensures NumberedFrom(Keys(Grants.ExtractGrants(lines, ids, next), GrantId), ids, next)
  {
    Grants.GrantsDescribed(lines, ids, next);
  }

  lemma TeachingIds(lines: seq<string>, ids: IdSupply, next: nat)
    ensures NumberedFrom(Keys(Teaching.ExtractTeaching(lines, ids, next), TeachingId), ids, next)
  {
    Teaching.TeachingDescribed(lines, ids, next);
  }

  lemma ConferenceIds(lines: seq<string>, ids: IdSupply, next: nat)
    ensures NumberedFrom(Keys(Conferences.ExtractConferences(lines, ids, next), ConferenceId), ids, next)
  {
    Conferences.ConferencesDescribed(lines, ids, next);
  }

  /** The k-th identifier made during `structureResumeText` is `ids(k)`: the extractors
      take consecutive runs of the supply, in order. */
  lemma ResumeNumbered(h: Heuristics, text: string, ids: IdSupply)
    ensures NumberedFrom(AllIds(StructureResumeText(h, text, ids)), ids, 0)
  {
    var work := Work.ExtractWorkExperience(h, Section(text, Sections.Experience), ids, 0);
    var taken1 := Keys(work, WorkId);
    WorkIds(h, Section(text, Sections.Experience), ids, 0);
    var education := Education.EducationOf(h, Section(text, Sections.Education), ids, |taken1|);
    EducationIds(h, Section(text, Sections.Education), ids, |taken1|);
    NumberedConcat(taken1, Keys(education, EducationId), ids);
    var taken2 := taken1 + Keys(education, EducationId);
    var leadership := Leadership.ExtractLeadership(Section(text, Sections.Leadership), ids, |taken2|);
    LeadershipIds(Section(text, Sections.Leadership), ids, |taken2|);
    NumberedConcat(taken2, Keys(leadership, LeadershipId), ids);
    var taken3 := taken2 + Keys(leadership, LeadershipId);
    var awards := Awards.AwardsOf(Section(text, Sections.Awards), ids, |taken3|);
    AwardIds(Section(text, Sections.Awards), ids, |taken3|);
    NumberedConcat(taken3, Keys(awards, AwardId), ids);
    var taken4 := taken3 + Keys(awards, AwardId);
    var publications := Publications.PublicationsOf(h, Section(text, Sections.Publications), ids, |taken4|);
    PublicationIds(h, Section(text, Sections.Publications), ids, |taken4|);
    NumberedConcat(taken4, Keys(publications, PublicationId), ids);
    var taken5 := taken4 + Keys(publications, PublicationId);
    var grants := Grants.ExtractGrants(Section(text, Sections.Grants), ids, |taken5|);
    GrantIds(Section(text, Sections.Grants), ids, |taken5|);
    NumberedConcat(taken5, Keys(grants, GrantId), ids);
    var taken6 := taken5 + Keys(grants, GrantId);
    var teaching := Teaching.ExtractTeaching(Section(text, Sections.Teaching), ids, |taken6|);
    TeachingIds(Section(text, Sections.Teaching), ids, |taken6|);
    NumberedConcat(taken6, Keys(teaching, TeachingId), ids);
    var taken7 := taken6 + Keys(teaching, TeachingId);
    var conferences := Conferences.ExtractConferences(Section(text, Sections.Conferences), ids, |taken7|);
    ConferenceIds(Section(text, Sections.Conferences), ids, |taken7|);
    NumberedConcat(taken7, Keys(conferences, ConferenceId), ids);
  }

  /** With an identifier supply that never repeats, no two records of a résumé share an
      identifier. */
  lemma ResumeIdsDistinct(h: Heuristics, text: string, ids: IdSupply)
    requires Fresh(ids)
    ensures var all := AllIds(StructureResumeText(h, text, ids));
      forall i, j :: 0 <= i < j < |all| ==> all[i] != all[j]
  {
    ResumeNumbered(h, text, ids);
  }
}
