# Applyly résumé parsing and form filling, modelled in Dafny

Applyly is a browser extension that reads a PDF résumé into a structured record, fills job
application forms from that record, and drafts cover letters from a job description. This
project models its deterministic core and proves properties of it.

- **The résumé pipeline** (`src/utils/parser.ts`). Once the PDF library has produced
  positioned text fragments, the pipeline runs these steps in order:
  - line reconstruction (`LineReconstruction`);
  - `normalizeText` (`Normalize`);
  - `cleanFieldValue` (`Fields`);
  - the section splitter (`Sections`);
  - entry grouping (`Entries`);
  - date parsing (`Dates`);
  - the entity extractors: work (`Work`), education (`Education`), leadership (`Leadership`),
    awards (`Awards`), publications (`Publications`), grants (`Grants`), teaching (`Teaching`),
    conferences (`Conferences`), skills (`Skills`) and the author-list parser (`Authors`);
  - `parseResume`/`structureResumeText` (`Resume`).
- **The record types** and the date-range helpers of `src/utils/storage.ts` (`Storage`).
- **The form-filling rules** of `src/content/index.ts` (`Autofill`).
- **The job-description analysis** of `src/utils/smartGenerator.ts` (`Smart`).
- **The deterministic helpers** of `src/utils/coverLetterGenerator.ts` (`CoverLetter`).

Shared helper modules:
- `Text`: JavaScript's string built-ins (`trim`, `split`, `includes`, `toLowerCase` and the
  like) over `seq<char>`.
- `Regex`: a small JavaScript regular-expression engine with backtracking in priority order for
  the simple patterns the code uses.
- `Lists`: filtering, de-duplication, prefixes and subsequences.
- `Extract`: the behaviour the extractors share.
- `Accumulate`: the "current entry" accumulator loop.

How each kind of source code is modelled:
- Pure functions of the source are Dafny functions.
- Each loop that pushes into arrays, fills a map or reassigns variables is a method with a
  loop, and the method's `ensures` ties its result to a specification function.
- The properties the code promises are proved as lemmas about those functions.
- The `<select>` element that `selectOption` assigns is a class whose method changes its value.

Foreign inputs are parameters:
- the positioned text fragments of each page, with integer row keys;
- `crypto.randomUUID`, which becomes a supply of identifiers (`IdSupply`);
- the regular-expression heuristics the code uses to detect companies, titles, schools and
  publication parts, which become the fields of the `Heuristics` record;
- the known-company table and the company and title patterns of the job-description analysis,
  which become the fields of the `JobMatchers` record.

Where the written description of the system and the code differ, the model follows the code:
- the lone sentinels are `p`, `c` and `now`, each with an optional period;
- a work entry's description drops every line when no company is found, rather than only
  the lines repeating the company.

The pipeline follows the code as written everywhere, including the three places listed
under "## Findings": the month reader with its two-letter test (`Dates.ParseMonthYear`),
the heading test that lets an earlier section's partial match win (`Sections.IsSectionHeader`)
and the description filter that drops every line when no company is found
(`Work.Describes`). Beside each, the evidently intended definition
(`Dates.ParseMonthYearIntended`, `Sections.IsSectionHeaderIntended`,
`Work.DescribesIntended`) is given with the property it was meant to have proved; nothing
else in the model uses it.

## Model

| member | source | states |
|---|---|---|
| Storage.EmptyDateRange | src/utils/storage.ts:194-199 | every field of the empty range is `''` |
| Storage.OrElse | src/utils/storage.ts:205-208 | JavaScript `a \|\| b` on strings: `a` unless it is empty, then `b` |
| Storage.FormatDateRange | src/utils/storage.ts:202-210 | the display is never empty: the start and the end joined by ` — `, or the end alone when there is no start |
| Storage.EndTextNonEmpty | src/utils/storage.ts:206-208 | the end part is never empty, and is `Present` when there is no end year |
| Storage.FormatEmptyIsPresent | src/utils/storage.ts:194-210 | the empty range displays as `Present` |
| Storage.StartMonthNeedsYear | src/utils/storage.ts:203-205 | the start month shows only together with a start year; without a year the start part is empty |
| Storage.FormatHasSeparatorIff | src/utils/storage.ts:209 | the display carries the separator exactly when the range has a start part |
| Autofill.FirstMatchAt | src/content/index.ts:117-119 | the first group with a keyword in the field's description gives the value, whatever later groups would give, even when that value is empty |
| Autofill.FirstMatchNone | src/content/index.ts:117-119 | there is no value exactly when no group has a keyword in the description |
| Autofill.FirstMatchConcat | src/content/index.ts:117-146 | trying one group list and then another is trying them joined |
| Autofill.SkillsRuleMatch | src/content/index.ts:149-151 | a description naming `skill` or `competencies` gets the skills joined with `, ` |
| Autofill.MatchingIsPriorityList | src/content/index.ts:101-154 | `findMatchingValue` is the first match over one priority list: the personal groups, the groups of the first position and of the first education entry when there are any, then the skills |
| Autofill.PersonalDecides | src/content/index.ts:117-119 | a personal group with a keyword in the description, after none that has one, decides the field, whatever the positions, education and skills |
| Autofill.OnlyMostRecent | src/content/index.ts:122-146 | only the personal details, the first position, the first education entry and the skills are read: two résumés that agree on those fill every field alike |
| Autofill.NoneIff | src/content/index.ts:153 | the field is left alone exactly when no consulted group has a keyword in the description |
| Autofill.SkillsLast | src/content/index.ts:149-153 | with no personal, position or education keyword, a description gets a value exactly when it names skills, and the value is the skills joined with `, ` |
| Autofill.CityIsFirstPart | src/content/index.ts:114 | the city is the address up to its first comma: a prefix without commas, followed by a comma unless it is the whole address |
| Autofill.MissingGpa | src/content/index.ts:141 | a missing GPA fills the GPA field with `''` |
| Autofill.FirstWhere | src/content/index.ts:161-165 | `options.find` stops at the first option that passes, and finds none exactly when none passes |
| Autofill.ChosenOptionDescribed | src/content/index.ts:156-167 | any exact match wins over every partial one; the first of its kind is taken; there is no choice exactly when no option matches either way |
| Autofill.ChooseOption | src/content/index.ts:156-167 | the two `find` loops of `selectOption` compute `ChosenOption` |
| Autofill.FirstIs | src/content/index.ts:161-165 | the first option that passes is the one `find` returns |
| Autofill.SelectElement.SelectOption | src/content/index.ts:168-170 | the chosen option's value becomes the element's value; with no matching option the element is unchanged; the options are unchanged |
| LineReconstruction.RowTexts | src/utils/parser.ts:158-162 | the texts of a row are at most the fragments, and none for a row without fragments |
| LineReconstruction.RowsInOrder | src/utils/parser.ts:156-164 | the rows of the map, each once, exactly those that have a fragment |
| LineReconstruction.GroupRows | src/utils/parser.ts:156-162 | the row map has exactly the rows that have fragments, each mapped to its texts in emission order, with the keys in insertion order |
| LineReconstruction.InsertDescending | src/utils/parser.ts:164 | inserting a new key into a strictly descending list keeps it strictly descending, with one more element |
| LineReconstruction.SortDescending | src/utils/parser.ts:164 | `sort((a, b) => b - a)` of distinct keys is strictly descending with the same keys |
| LineReconstruction.RowLines | src/utils/parser.ts:165 | each row is paired with its joined and trimmed line, in order |
| LineReconstruction.NonBlank | src/utils/parser.ts:165 | `filter(l => l)` keeps exactly the rows whose line is not blank |
| LineReconstruction.NonBlankDescending | src/utils/parser.ts:165 | dropping blank rows keeps the rows in descending order |
| LineReconstruction.ReadPage | src/utils/parser.ts:155-165 | one page of `parsePDF` computes its lines, `PageLines` |
| LineReconstruction.DocumentTextStep | src/utils/parser.ts:167 | each page appends its lines joined by line breaks, followed by a line break |
| LineReconstruction.ReadDocument | src/utils/parser.ts:149-170 | `parsePDF`'s page loop computes `DocumentText`, page by page in order |
| LineReconstruction.PageRowsDescribed | src/utils/parser.ts:156-165 | a page's lines come from distinct rows, highest first; a row shows exactly when it has a fragment and its joined, trimmed text is not blank, and it shows that text |
| LineReconstruction.RowTextsSelect | src/utils/parser.ts:159-161 | a fragment's text goes to its own row and to no other |
| LineReconstruction.OtherRowUnchanged | src/utils/parser.ts:159-161 | a fragment on another row leaves a row's line unchanged |
| LineReconstruction.SingleRowOneLine | src/utils/parser.ts:156-165 | a page whose fragments all share one row with visible text is one line |
| Normalize.NonSpace | src/utils/parser.ts:40-77 | the characters other than white space, in order: what normalisation must preserve |
| Normalize.ReplaceScan | src/utils/parser.ts:45-74 | a global replacement whose every replacement only deletes white space from its match only deletes white space |
| Normalize.SplitLetterAt | src/utils/parser.ts:45 | a match of `\b([A-Za-z])\s+([a-z]{2,})\b` has a gap made only of white space after its first letter |
| Normalize.Step1At | src/utils/parser.ts:45-54 | a replacement happens exactly where `\b([A-Za-z])\s+([a-z]{2,})\b` matches; it joins the two parts when the joined word starts a common word and otherwise keeps the match |
| Normalize.SplitPairAt | src/utils/parser.ts:57 | a match of `\b([A-Za-z]{2,3})\s+([a-z]{3,})\b` has a gap made only of white space between the two parts |
| Normalize.Step2At | src/utils/parser.ts:57-65 | a replacement happens exactly where `\b([A-Za-z]{2,3})\s+([a-z]{3,})\b` matches; it joins the two parts when the joined word is a common word and otherwise keeps the match |
| Normalize.CollapseFrom | src/utils/parser.ts:68 | collapsing runs of white space keeps every other character and leaves no white space next to white space |
| Normalize.PullPunctFrom | src/utils/parser.ts:71 | white space before `.,;:!?` is deleted, and only that |
| Normalize.Step5At | src/utils/parser.ts:74 | a replacement happens exactly at a word-initial capital followed by one white-space character and four lower-case letters, and it deletes only that white space |
| Normalize.JoinSplitLetters | src/utils/parser.ts:45-54 | the first repair over the whole text only deletes white space |
| Normalize.JoinSplitPairs | src/utils/parser.ts:57-65 | the second repair over the whole text only deletes white space |
| Normalize.JoinCapitals | src/utils/parser.ts:74 | the last repair over the whole text only deletes white space |
| Normalize.NormalizeText | src/utils/parser.ts:40-77 | normalisation keeps every character other than white space, in order, and leaves no white space next to white space and none before `.,;:!?` |
| Normalize.SpaceFreeUnchanged | src/utils/parser.ts:40-77 | text without white space comes out of normalisation unchanged: every step matches only around white space |
| Normalize.SplitWordLetters | src/utils/parser.ts:45-54 | the first repair matches nowhere in two or three letters, a space and lower-case letters |
| Normalize.SplitWordPairs | src/utils/parser.ts:57-65 | the second repair joins two or three letters, a space and three or more lower-case letters when together they make a common word |
| Normalize.JoinedBySecondStep | src/utils/parser.ts:40-77 | when the first repair finds nothing and the second leaves no white space, normalisation returns the second repair's result |
| Normalize.JoinsSplitWord | src/utils/parser.ts:57-65 | a common word split after its second or third letter (`Sof tware`) comes out of normalisation as one word |
| Normalize.FirstPass | src/utils/parser.ts:40-77 | in `a b w` (lower-case letters `a`, `b`, a lower-case word `w`), when `bw` begins a common word, normalisation joins only `b` and `w` |
| Normalize.SecondPass | src/utils/parser.ts:45-54 | in `a bw`, when `abw` begins a common word, normalisation joins all of it |
| Normalize.NotIdempotent | src/utils/parser.ts:45-54 | when both `bw` and `abw` begin common words, normalising `a b w` gives `a bw`, and normalising that again gives `abw` |
| Normalize.NotIdempotentExample | src/utils/parser.ts:45-54 | `o p er` normalises to `o per` (`per` begins `performance`), and `o per` to `oper` (`oper` begins `operations`) |
| Fields.Cleaned | src/utils/parser.ts:80 | `normalizeText(value).trim()` keeps every character other than white space and has no doubled white space and no white space before punctuation |
| Fields.CapitalizeWordsIsTitleCase | src/utils/parser.ts:87 | splitting at spaces, capitalising each word and joining again upper-cases exactly the characters at the start and after a space and lower-cases the rest |
| Fields.TitleCaseKeeps | src/utils/parser.ts:87 | title-casing keeps the kind of every character and every letter up to case |
| Fields.CleanName | src/utils/parser.ts:83-88 | a name holds only letters, white space, hyphens and apostrophes, is the filtered text up to case, and has every word start in upper case and every other letter in lower case |
| Fields.Digits | src/utils/parser.ts:95 | `replace(/\D/g, '')` leaves only digits |
| Fields.FormatTen | src/utils/parser.ts:97 | `(NNN) NNN-NNNN`, holding exactly the ten digits |
| Fields.FormatEleven | src/utils/parser.ts:99 | `+1 (NNN) NNN-NNNN`, holding exactly the eleven digits |
| Fields.CleanPhone | src/utils/parser.ts:93-101 | ten digits are laid out as `(NNN) NNN-NNNN` and eleven starting with 1 as `+1 (NNN) NNN-NNNN`, each with the digits of the number in order; anything else is left as it is |
| Fields.WithScheme | src/utils/parser.ts:102-107 | a non-empty value not starting with `http` becomes `https://` followed by the value, and a value starting with `http` is kept; the result is empty exactly when the value is, and otherwise starts with `http` and ends with the value |
| Fields.WithSchemeIdempotent | src/utils/parser.ts:104-106 | adding the scheme twice is the same as adding it once |
| Fields.CapitalizeMonthsFrom | src/utils/parser.ts:110-111 | every character is kept up to case, and every word starting with a month abbreviation starts in upper case |
| Fields.CleanDate | src/utils/parser.ts:108-112 | the date has the same letters up to case; every month word starts in upper case and the rest of the word is lower-cased; every character outside a month word is unchanged |
| Fields.CleanEmail | src/utils/parser.ts:89-92 | the e-mail address has no white space and no upper-case letter, and is the value's non-space characters up to case |
| Fields.CleanFieldValue | src/utils/parser.ts:79-119 | dispatches on the field type, and each type's guarantee holds of the normalised, trimmed value: names title-cased (a capital or non-letter after a space or at the start, no capital elsewhere), e-mail addresses, telephone numbers and dates as above, a URL kept when it starts with `http` and otherwise given `https://` in front, free text normalised |
| Dates.FindYear | src/utils/parser.ts:374 | the leftmost `\b(19\|20)\d{2}\b` match is four digits whose value lies between 1900 and 2099 |
| Dates.Leftmost | src/utils/parser.ts:374 | the leftmost position where a match succeeds: it succeeds there and at no earlier position; none means it fails everywhere |
| Dates.NumberedMonthOr | src/utils/parser.ts:385-388 | `MONTHS[n - 1]` for a month number in range, otherwise the month found so far |
| Dates.MonthNamedFrom | src/utils/parser.ts:363-371 | the month found is one that the text names (by full name or three-letter abbreviation, or also by its first two letters as written), and `''` when none is named |
| Dates.SeasonMonth | src/utils/parser.ts:409-413 | a season word sets a month only when none was found, and only to March, June, September or December |
| Dates.ScanYear | src/utils/parser.ts:374-380 | the year kept is `''` or a four-digit year between MIN_YEAR and MAX_YEAR |
| Dates.SlashStep | src/utils/parser.ts:383-393 | the MM/YYYY override keeps the result well formed |
| Dates.DashStep | src/utils/parser.ts:396-406 | the YYYY-MM step changes nothing once a year is known, and keeps the result well formed |
| Dates.ParseMonthYear | src/utils/parser.ts:352-416 | the result is `('', 'Present')` exactly for the present-words; otherwise the month is `''` or a month name and the year is `''` or an in-bounds year |
| Dates.ParseMonthYearIntended | src/utils/parser.ts:352-416 | the reading without the two-letter test keeps the same guarantees: `('', 'Present')` exactly for the present-words, and otherwise a month name or `''` and an in-bounds year or `''` |
| Dates.NamedMonthSteps | src/utils/parser.ts:363-371 | the loop over the month table returns the first month the text names |
| Dates.ParseMonthYearSteps | src/utils/parser.ts:352-416 | the sequence of reassignments of `month` and `year` computes `ParseMonthYear` |
| Dates.YearSteps | src/utils/parser.ts:374-380 | the bare-year test computes `ScanYear` |
| Dates.SlashSteps | src/utils/parser.ts:383-393 | the MM/YYYY test computes `SlashStep` |
| Dates.DashSteps | src/utils/parser.ts:396-406 | the YYYY-MM test computes `DashStep` |
| Dates.SeasonSteps | src/utils/parser.ts:409-413 | the season tests compute `SeasonMonth` |
| Dates.FirstRange | src/utils/parser.ts:431-442 | the first range pattern that yields two ends; none means no pattern yields them |
| Dates.YearOnly | src/utils/parser.ts:444-450 | the fallback is the empty range, or a range whose only part is the end year: the first year-like number |
| Dates.ExtractDateRange | src/utils/parser.ts:418-451 | when a range pattern matches, each end is its part as read by `parseMonthYear`; otherwise the result is a bare end year or the empty range; an open end never carries a month |
| Dates.OpenEndHasNoMonth | src/utils/parser.ts:356-358 | an end read as `Present` has no month, and the bare-year fallback has no start |
| Dates.NoDigitsNoNumericDate | src/utils/parser.ts:383-406 | text without digits has no MM/YYYY or YYYY-MM part |
| Dates.WordReadAs | src/utils/parser.ts:363-371 | a word without digits that is not a present-word reads as the first month it names, the two-letter test included |
| Dates.WordReadAsIntended | src/utils/parser.ts:363-371 | the same for the reading without the two-letter test |
| Dates.FirstNamedMonth | src/utils/parser.ts:363-371 | the scan stops at the first month named, given that no earlier month is named |
| Dates.MayReadAsMarch | src/utils/parser.ts:366-367 | as written, `"May"` is read as March, because `"ma"` is March's first two letters |
| Dates.JulyReadAsJune | src/utils/parser.ts:366-367 | as written, `"July"` is read as June, because `"ju"` is June's first two letters |
| Dates.MayReadAsMay | src/utils/parser.ts:363-371 | the intended reading, by full name or three-letter abbreviation, reads `"May"` as May |
| Dates.JulyReadAsJuly | src/utils/parser.ts:363-371 | the intended reading, by full name or three-letter abbreviation, reads `"July"` as July |
| Entries.GroupIntoEntries | src/utils/parser.ts:456-481 | the grouping loop computes the entries that `EntriesOf` specifies |
| Entries.NonEmptyLines | src/utils/parser.ts:463 | the lines kept are all non-empty |
| Entries.StepOpen | src/utils/parser.ts:469-471 | a line with a date, a new paragraph or a title word closes a non-empty current entry and starts the next one |
| Entries.StepExtend | src/utils/parser.ts:472-474 | any other non-empty line joins the current entry |
| Entries.EntriesDescribed | src/utils/parser.ts:456-481 | every entry has a line; together the entries are the non-empty lines, in order; every entry after the first starts with a line that may open one; and every non-empty line that may open an entry after a non-empty one starts the entry that follows those before it |
| Entries.OpenerStartsEntry | src/utils/parser.ts:466-471 | a non-empty line that may open an entry closes those before it and starts the next entry |
| Entries.JoinsCurrent | src/utils/parser.ts:472-474 | a line that may not open an entry is appended to the current one and never starts a new one |
| Entries.YearThenLetter | src/utils/parser.ts:465 | `[-–—to]` is a character class, so four digits followed by `t` or `o` count as a date |
| Sections.Tagged | src/utils/parser.ts:177-190 | the keyword table pairs each keyword of a section with that section, in order |
| Sections.BlankPunct | src/utils/parser.ts:193 | each heading decoration `[:\-–—•·_\|]` becomes a space and nothing else changes |
| Sections.CleanHeading | src/utils/parser.ts:193 | the cleaned line has no upper-case letter and no decoration, and is no longer than the line |
| Sections.WordCount | src/utils/parser.ts:198-201 | `split(/\s+/)` splits into one piece exactly when there is no white space |
| Sections.FirstHit | src/utils/parser.ts:203-222 | the first table entry that the line hits by the exact, partial, capitals or short-line rule; none hit before it, and none means none hit at all |
| Sections.HeaderIn | src/utils/parser.ts:192-225 | a line cleaned to more than 50 or fewer than 3 characters is no heading; otherwise the section of the first keyword, in table order, that the line hits, or none if no keyword hits |
| Sections.HeaderExactFirstIn | src/utils/parser.ts:192-225 | the intended heading test: matching a keyword exactly names the section that owns that keyword, and a line that matches no keyword exactly gets the same answer as from the test as written |
| Sections.ListLengths | src/utils/parser.ts:177-190 | every keyword has a length that a heading may have |
| Sections.ExactKeyword | src/utils/parser.ts:206-209 | a line that cleans to a keyword is a heading, though not always of that keyword's section |
| Sections.ExactKeywordIntended | src/utils/parser.ts:206-209 | under the intended test, a line that cleans to a keyword is a heading of that keyword's first owner |
| Sections.FirstEntryWins | src/utils/parser.ts:203-222 | a heading that hits the table's first keyword belongs to that keyword's section |
| Sections.AcademicExperienceAsWritten | src/utils/parser.ts:178-214 | the teaching keyword `academic experience` never wins: a line that cleans to it ends with ` experience`, so the experience section takes it first |
| Sections.AcademicExperienceOwner | src/utils/parser.ts:177-190 | no keyword before `academic experience` in the table is the same word |
| Sections.AcademicExperienceIntended | src/utils/parser.ts:185 | under the intended test, with exact matches first, a line that cleans to `academic experience` is a teaching heading |
| Sections.TextLines | src/utils/parser.ts:231 | the lines of the text, split at `\n`, each trimmed |
| Sections.ContentLines | src/utils/parser.ts:248-255 | the lines kept are neither empty nor headings, in order |
| Sections.Destination | src/utils/parser.ts:262-268 | before any heading a line goes to the header; under a section that has a bucket it goes to that bucket; otherwise it goes to `other` |
| Sections.EmptyBuckets | src/utils/parser.ts:232-236 | the loop starts from the twelve named buckets, all empty |
| Sections.PushCollected | src/utils/parser.ts:262-268 | appending a line to its bucket keeps the map in step with the route |
| Sections.RouteStep | src/utils/parser.ts:248-268 | each line extends the route by itself at its destination when it is content; a heading changes the current section |
| Sections.SplitIntoSections | src/utils/parser.ts:230-272 | every bucket exists, and each holds the content lines routed to it, in order |
| Sections.RouteKeepsContent | src/utils/parser.ts:248-268 | every content line is routed exactly once, in order |
| Sections.RouteAfter | src/utils/parser.ts:248-268 | lines that contain no heading go where the last heading before them said |
| Sections.AllToHeader | src/utils/parser.ts:262-263 | before the first heading, every content line goes to the header, so the ten-line cap never takes effect |
| Sections.ContentsConcat | src/utils/parser.ts:248-268 | a bucket's contents for two routes end to end are its contents for each route, joined |
| Sections.AfterHeading | src/utils/parser.ts:251-265 | after a heading and until the next one, content lines go to that section's bucket (to `other` for certifications and summaries) and no other bucket changes |
| Extract.ParsedAt | src/utils/parser.ts:1074-1086 | the k-th record pushed is the k-th kept group parsed, with the identifier `ids(next + k)` |
| Extract.RecordsFrom | src/utils/parser.ts:633-647 | every record is the draft of some entry, with the next identifier in push order |
| Extract.OpeningLine | src/utils/parser.ts:578 | the first line with its year spans and `present`/`current` removed is trimmed at both ends |
| Extract.CutYearTail | src/utils/parser.ts:607 | `replace(/\d{4}.*$/, '')` leaves a line without a four-digit run unchanged |
| Extract.StripBullet | src/utils/parser.ts:630 | a leading bullet and the white space after it are removed; a line that does not start with one is unchanged |
| Extract.Bulleted | src/utils/parser.ts:630-639 | the description of no lines is `''`; any other description starts with `• ` |
| Extract.DateTextOfText | src/utils/parser.ts:1122-1123 | `month ? month + ' ' + year : year` is empty, `Present`, an accepted year, or a month name, a space and an accepted year or nothing |
| Accumulate.Groups | src/utils/parser.ts:1068-1088 | every group the loop hands on has a line |
| Accumulate.RetainedDescribed | src/utils/parser.ts:1069 | the lines the loop reads are those not skipped, in order |
| Accumulate.StepOpen | src/utils/parser.ts:1071-1077 | an opening line closes the current group (when it has lines) and starts the next one with the line's head |
| Accumulate.StepJoin | src/utils/parser.ts:1078-1080 | any other line that is read joins the current group |
| Accumulate.GroupsDescribed | src/utils/parser.ts:1068-1088 | every group has a line; the groups' lines are the lines read, in order, each whole or cut to its head; every group after the first starts with the head of a line that opened it |
| Accumulate.OpenerStartsGroup | src/utils/parser.ts:1071-1077 | a line that opens a group closes the groups before it as they stand and starts the next group with its head |
| Accumulate.OpenersStartGroups | src/utils/parser.ts:1068-1088 | every line that opened a group starts the group that follows those before it, so the opening lines are exactly the groups' first lines |
| Accumulate.GroupsKeepLines | src/utils/parser.ts:1068-1088 | when an opening line is kept whole, the groups' lines are exactly the lines read |
| Accumulate.FlattenMarked | src/utils/parser.ts:1104-1115 | when the opening test looks only at the line, the groups' lines are the lines read with every opening line cut to its head |
| Accumulate.PushStep | src/utils/parser.ts:1072-1075 | closing a group appends its record with the next identifier when the group is kept, and otherwise changes nothing |
| Accumulate.FedFinished | src/utils/parser.ts:1083-1088 | once the last group is handed on, the records are those of all the kept groups |
| Accumulate.Collect | src/utils/parser.ts:1052-1091 | the accumulator loop yields the kept groups, parsed and numbered in order |
| Authors.SemicolonPieces | src/utils/parser.ts:832 | `split(/\s*;\s*/)` yields one piece per semicolon-separated segment |
| Authors.CommaPairs | src/utils/parser.ts:861-865 | the even-count comma heuristic yields one pair per two parts |
| Authors.Capitalise | src/utils/parser.ts:900 | the first character is upper-cased and the rest is kept |
| Authors.AuthorsOf | src/utils/parser.ts:876-906 | no more authors than pieces |
| Authors.CommaAuthor | src/utils/parser.ts:876-900 | a `Last, First` piece reads as that author: the last name capitalised, the first name without its trailing periods and commas (`J.` reads as `J`) |
| Authors.SemicolonPiecesJoined | src/utils/parser.ts:832 | the semicolon pieces of items joined with `; ` are exactly the items |
| Authors.SemicolonRaws | src/utils/parser.ts:831-833 | two or more items without semicolons, joined with `; `, are split back into those items by the semicolon strategy |
| Authors.SemicolonRawAuthors | src/utils/parser.ts:831-905 | two or more `Last, First` pieces joined with `; ` are split by the semicolon strategy and read one author per piece, in order |
| Authors.CleanAuthorsKeeps | src/utils/parser.ts:811-819 | the cleaning chain leaves a block as it is when the block has no parenthesis and no hyphen, has only single plain spaces with text after them, starts with text other than a bullet or a dash, and does not end with a semicolon |
| Authors.YearsKept | src/utils/parser.ts:812 | without a parenthesis, removing years in parentheses changes nothing |
| Authors.SemicolonKept | src/utils/parser.ts:814 | a block that ends with text other than a semicolon has no trailing semicolon to remove |
| Authors.SpacesKept | src/utils/parser.ts:815 | collapsing white space keeps single plain spaces between words as they are |
| Authors.HyphensKept | src/utils/parser.ts:819 | without a hyphen, closing up spaced hyphens changes nothing |
| Authors.CommaBlock | src/utils/parser.ts:811-819 | `Last, First` items with plain first names, joined with `; `, form a block the cleaning chain keeps |
| Authors.SemicolonAuthors | src/utils/parser.ts:803-912 | authors written `Last, First; Last, First; ...`, two or more of them, with first names that may end in `.` or `,` (as in `Smith, J.; Doe, A. B.`) and nothing for the cleaning to change, come back from `parseAuthorsToList` one per item, in order, each first name without its trailing periods and commas (round trip) |
| Authors.AuthorsNamed | src/utils/parser.ts:902-905 | every author read has a first or a last name and comes from one of the pieces |
| Authors.AuthorsOfAll | src/utils/parser.ts:876-906 | when every piece yields an author, the list is those authors, one per piece |
| Authors.ExecPairs | src/utils/parser.ts:849-853 | the `exec` loop pushes `Last, Initials` for each successive match of the global pattern |
| Authors.PairUp | src/utils/parser.ts:861-865 | the loop over `j = 0, 2, ...` computes `CommaPairs` |
| Authors.SplitAuthors | src/utils/parser.ts:829-868 | the choice between the semicolon, `and`/`&`, author-pattern and comma strategies computes `RawAuthors` |
| Authors.ReadAuthors | src/utils/parser.ts:876-906 | the push loop computes `AuthorsOf` |
| Authors.ParseAuthorsToList | src/utils/parser.ts:803-912 | `parseAuthorsToList` computes `AuthorsList` |
| Work.SplitAttempt | src/utils/parser.ts:585-601 | the split of the first line never overrides a title or a company that has already been found |
| Work.SecondLineCompany | src/utils/parser.ts:605-612 | the second line is consulted only when no company has been found and the entry has a second line |
| Work.FirstLineTitle | src/utils/parser.ts:615-617 | the first line gives a title only when none has been found and it is longer than 3 characters |
| Work.NoCompanyNoDescription | src/utils/parser.ts:620-625 | as written, with no company every line contains `''.substring(0, 10)`, so the description filter drops every line |
| Work.NoCompanyKeepsLines | src/utils/parser.ts:620-625 | with the company test applied only when there is a company, a line that is long enough, does not start with a year and holds no title is kept |
| Work.DraftWithoutCompany | src/utils/parser.ts:620-638 | an entry whose first lines name no company becomes a record with the company `Company` and an empty description |
| Work.DraftKeptIff | src/utils/parser.ts:633 | an entry yields no record exactly when it yields neither a title nor a company |
| Work.DraftNamed | src/utils/parser.ts:634-638 | a record always has a title and a company; `Position` and `Company` stand in for the missing one |
| Work.DraftDated | src/utils/parser.ts:573-640 | a record carries the date range of the whole entry, is `present` exactly when that range is open (and then has no end month), and has an empty or bulleted description |
| Work.DetectorsWin | src/utils/parser.ts:580-584 | what the detectors find on the whole entry is never overridden |
| Work.WorkDescribed | src/utils/parser.ts:563-648 | at most one record per entry; every record has a title and a company, and the k-th takes the identifier `ids(next + k)` |
| Education.ExtractEducation | src/utils/parser.ts:652-706 | the accumulator loop under the education rule parses every group |
| Education.EducationLines | src/utils/parser.ts:683-699 | the groups' lines are exactly the lines of three or more characters, in order, and every group has a line |
| Education.EducationOpeners | src/utils/parser.ts:686-695 | every group after the first starts with a line that names a school or a degree and either has a year or follows a group of three or more lines |
| Education.OpenersStartGroups | src/utils/parser.ts:686-695 | conversely, every line of three or more characters that meets the opening test after a group with lines starts the next group |
| Education.EducationEntryDescribed | src/utils/parser.ts:708-797 | the school falls back to the cleaned first line; the degree is the one detected; the field comes from the degree and otherwise from the `major\|concentration\|in` pattern; the GPA is always present; the dates are those of the whole text; the entry is `present` exactly when its range is open |
| Education.GpaPrefersLabel | src/utils/parser.ts:776-777 | the GPA comes from the `GPA:` form when there is one, then from the `/ 4.0` form, and is `''` when neither occurs |
| Education.StudyLines | src/utils/parser.ts:784 | every description line is longer than 15 characters, and the school does not contain its first 10 characters |
| Education.StudyLinesDescribed | src/utils/parser.ts:784 | the description lines are every such line, in order |
| Education.EducationNumbered | src/utils/parser.ts:694-702 | one entry per group, in order: the k-th is its group parsed, with identifier `ids(next + k)` |
| Leadership.Part | src/utils/parser.ts:1153-1154 | `parts[k]?.trim() \|\| ''`: the trimmed part, or `''` past the end |
| Leadership.DraftKeptIff | src/utils/parser.ts:1162 | an entry yields no record exactly when its first line yields neither a role nor an organization |
| Leadership.DraftNamed | src/utils/parser.ts:1165 | a record has a role and an organization; `Role` and `Organization` stand in for the missing one |
| Leadership.DraftDated | src/utils/parser.ts:1149-1167 | a record carries the date range of the whole entry, is `present` exactly when the range is open, and has an empty or bulleted description |
| Leadership.UncutLineIsRole | src/utils/parser.ts:1152-1154 | a first line that the splitter does not cut is all role, with no organization |
| Leadership.LeadershipDescribed | src/utils/parser.ts:1139-1173 | at most one record per entry; every record has a role and an organization, and the k-th takes the identifier `ids(next + k)` |
| Awards.AwardGroups | src/utils/parser.ts:1103-1115 | every award has a line |
| Awards.DropTrailingDash | src/utils/parser.ts:1125 | at most one trailing comma or dash is removed |
| Awards.ExtractAwards | src/utils/parser.ts:1097-1118 | the accumulator loop under the award rule parses every group |
| Awards.AwardLines | src/utils/parser.ts:1103-1115 | the awards' lines are all the lines, in order, with each start line stripped of its bullet |
| Awards.AwardOpeners | src/utils/parser.ts:1104-1108 | every award after the first begins with a start line (a bullet, a leading year or a trailing year), without its bullet |
| Awards.AwardDescribed | src/utils/parser.ts:1120-1133 | every award has a title, with `Award` when the cleaned first line is empty, and its description is the later lines normalised and joined |
| Awards.AwardsNumbered | src/utils/parser.ts:1106-1116 | one award per group, in order: the k-th is its group parsed, with identifier `ids(next + k)` |
| Publications.StripNumbering | src/utils/parser.ts:1077 | removing the numbering never lengthens the line |
| Publications.StripNumberingDescribed | src/utils/parser.ts:1077 | what is removed is the longest prefix made of numbering characters: the rest is a suffix of the line that does not start with one |
| Publications.ExtractPublications | src/utils/parser.ts:1052-1091 | the accumulator loop under the publication rule parses the references longer than 20 characters |
| Publications.PublicationLines | src/utils/parser.ts:1068-1081 | the references' lines are exactly the lines of five or more characters, in order, each whole or stripped of its numbering, and every reference has a line |
| Publications.PublicationOpeners | src/utils/parser.ts:1059-1077 | every reference after the first starts with a line of five or more characters that `isNewEntry` accepts, stripped of its numbering |
| Publications.OpenersStartGroups | src/utils/parser.ts:1059-1077 | conversely, every line of five or more characters that `isNewEntry` accepts after a group with lines starts the next reference, stripped of its numbering |
| Publications.ReferencesKept | src/utils/parser.ts:1072-1086 | the references parsed are exactly those whose joined text is longer than 20 characters, in order |
| Publications.PublicationDescribed | src/utils/parser.ts:914-1050 | the title found, or else the first 100 characters of the normalised text; the authors and their list; the date of the text; a URL without trailing punctuation; an empty description |
| Publications.UrlFromMatch | src/utils/parser.ts:922-923 | the URL is the first URL or DOI match with only trailing `.,;` removed, and `''` when there is no match |
| Publications.PublicationsNumbered | src/utils/parser.ts:1074-1086 | one publication per kept reference, in order, with identifier `ids(next + k)` |
| Grants.DraftKeptIff | src/utils/parser.ts:1195-1199 | an entry yields a grant exactly when its cleaned title is not empty |
| Teaching.DraftKeptIff | src/utils/parser.ts:1222-1243 | an entry yields a record exactly when it has a course |
| Conferences.DraftKeptIff | src/utils/parser.ts:1259-1274 | a line yields a conference exactly when it has 10 or more characters and a non-empty title |
| Grants.NoAmountNoFunder | src/utils/parser.ts:1189-1193 | a grant's amount and funder are `''` when the text has no amount or no funder |
| Grants.GrantsDescribed | src/utils/parser.ts:1179-1203 | at most one grant per entry; every grant has a title and an empty description, and the k-th takes the identifier `ids(next + k)` |
| Teaching.QuotedCourseWins | src/utils/parser.ts:1222-1224 | a quoted name or a course code in the text wins over the first line |
| Teaching.FirstSchoolIsEarliest | src/utils/parser.ts:1226-1236 | the institution is the match of the earliest school pattern that matches, and `''` when none matches |
| Teaching.TeachingDescribed | src/utils/parser.ts:1209-1247 | at most one record per entry; every record names a course, and the k-th takes the identifier `ids(next + k)` |
| Conferences.ConferencesDescribed | src/utils/parser.ts:1253-1278 | at most one conference per line; each comes from a line of at least 10 characters, has that line's title and an empty description, and the k-th takes the identifier `ids(next + k)` |
| Skills.SizedPieces | src/utils/parser.ts:1288 | every raw skill has 2 to 49 characters |
| Skills.SizedPiecesFrom | src/utils/parser.ts:1288 | every raw skill is a trimmed piece of the text between separators |
| Skills.Candidates | src/utils/parser.ts:1291-1292 | every candidate is non-empty and not all digits |
| Skills.CandidatesFrom | src/utils/parser.ts:1291 | every candidate is the cleaned form of a raw piece |
| Skills.ExtractSkills | src/utils/parser.ts:1284-1298 | the push loop keeps the first occurrence of each acceptable cleaned skill |
| Skills.SkillsDescribed | src/utils/parser.ts:1284-1298 | the skills have no repeats; none is empty or all digits; each is the cleaned form of a raw piece of 2 to 49 characters; each is the first candidate with its text, in candidate order; every candidate is among them |
| Personal.BlankSeparators | src/utils/parser.ts:339 | `[\|•·,]` becomes a space and nothing else changes |
| Personal.NameParts | src/utils/parser.ts:340 | the name parts are longer than one character and start with a letter |
| Personal.NamesDescribed | src/utils/parser.ts:335-343 | the names hold only letters, white space, hyphens and apostrophes, and both are `''` when the header has no first line or an empty one |
| Personal.EmailDescribed | src/utils/parser.ts:315-316 | the e-mail address is `''` when the text has none; otherwise it is the first match with white space removed and lower-cased |
| Personal.PhoneIsEarliest | src/utils/parser.ts:318-326 | the telephone number comes from the earliest pattern found in the header or in the whole text, cleaned as a telephone number, and is `''` when neither has one |
| Personal.HeaderPhoneFirst | src/utils/parser.ts:324 | a number found in the header wins over one found elsewhere in the text |
| Personal.HandleFound | src/utils/parser.ts:280-284 | the pattern loop finds no handle exactly when no pattern matches, and otherwise the handle (`match[1]`) of the first pattern that matches |
| Personal.ProfileDescribed | src/utils/parser.ts:275-297 | a LinkedIn or GitHub link is `''` exactly when no pattern matches; otherwise it begins with `http` and is `https://`, the site and the first matching pattern's handle, cleaned as a URL |
| Personal.ProfileLink | src/utils/parser.ts:282-283 | with a handle and site free of white space, the clean-up changes nothing: the link is exactly `https://`, the site and the handle |
| Personal.LinkedInLink | src/utils/parser.ts:275-285 | the LinkedIn link is `https://linkedin.com/in/` followed by the handle of the first pattern that matches |
| Personal.GitHubLink | src/utils/parser.ts:287-297 | the GitHub link is `https://github.com/` followed by the handle of the first pattern that matches |
| Lists.Keys | src/utils/parser.ts:1307-1318 | the identifiers of a list of records, one per record, in order |
| Resume.ExtensionOf | src/utils/parser.ts:126 | the extension of `base.ext` is `ext` lower-cased when `ext` has no period, whatever periods `base` has |
| Resume.RefusedIff | src/utils/parser.ts:125-140 | a file is refused with the one PDF-only message exactly when its extension is not `pdf` |
| Resume.ResumeNumbered | src/utils/parser.ts:1304-1322 | the k-th identifier made during `structureResumeText` is `ids(k)`: the extractors take consecutive runs of the supply, in the order of the record literal |
| Resume.ResumeIdsDistinct | src/utils/parser.ts:1304-1322 | given a supply of identifiers that never repeats, no two records of a résumé share an identifier |
| Smart.KnownNamed | src/utils/smartGenerator.ts:38-188 | every name in the known-company table is non-empty, so finding one ends the scan |
| Smart.DetectKnownCompany | src/utils/smartGenerator.ts:191-196 | the known-company loop returns the first table entry, in table order, whose pattern tests the text |
| Smart.DetectCorpCompany | src/utils/smartGenerator.ts:199-220 | the corporate-pattern loop returns the first acceptable trimmed group |
| Smart.DetectCompany | src/utils/smartGenerator.ts:190-220 | the corporate patterns run only when the known-company scan finds nothing |
| Smart.KnownCompanyWins | src/utils/smartGenerator.ts:191-199 | the first table entry whose pattern tests the text names the company, whatever the corporate patterns would find |
| Smart.NoKnownCompany | src/utils/smartGenerator.ts:199-220 | when no table entry tests the text, the corporate patterns on the normalised text decide |
| Smart.CorpNameDescribed | src/utils/smartGenerator.ts:209-219 | a corporate name found is the trimmed group 1 of a pattern, 3 to 50 characters long and not a bad word, and a pattern whose group qualifies is never passed over |
| Smart.PatternTitleNext | src/utils/smartGenerator.ts:240-249 | a pattern whose group is not a candidate passes the choice to the next pattern |
| Smart.DetectPatternTitle | src/utils/smartGenerator.ts:233-250 | the loop over the explicit title patterns computes `PatternTitle` |
| Smart.DetectTitle | src/utils/smartGenerator.ts:223-250 | the title scan computes `TitleOf` |
| Smart.PatternTitleDescribed | src/utils/smartGenerator.ts:240-249 | a title from an explicit pattern is a trimmed group of 5 to 80 characters that names a title keyword, with its bracketed asides removed, trimmed |
| Smart.TitleDescribed | src/utils/smartGenerator.ts:228-250 | a first line under 100 characters that names a title keyword gives the title, with its bracketed asides removed; otherwise the explicit patterns decide |
| Smart.ScanMentions | src/utils/smartGenerator.ts:270-275 | the skill loop keeps the candidates that the lower-cased text contains, in list order |
| Smart.DetectSkills | src/utils/smartGenerator.ts:258-275 | the skill scan computes `Mentioned` |
| Smart.SkillsDescribed | src/utils/smartGenerator.ts:258-307 | the skills are technical skills that the lower-cased text contains, in list order, at most 15; when fewer than 15 are found, every one the text contains is listed |
| Smart.StripMarks | src/utils/smartGenerator.ts:280 | the longest prefix of white space, bullets, dashes and asterisks is removed, and what is left is a suffix of the line |
| Smart.SortBullets | src/utils/smartGenerator.ts:278-288 | the requirements and responsibilities are the cleaned first 10 bullet lines that the two tests select |
| Smart.SortedDescribed | src/utils/smartGenerator.ts:281-287 | each list keeps its lines in order; every line has 11 to 199 characters; no line lands in both lists; every line of the right size and wording is in its list |
| Smart.BulletsDescribed | src/utils/smartGenerator.ts:278-288 | at most 10 lines are considered, each the cleaned form of a bullet line, and the two lists are selected from them |
| Smart.SeniorityLadder | src/utils/smartGenerator.ts:291-300 | the seniority is `intern` exactly for internships; otherwise it is the first of entry, senior, lead and executive whose test passes, and `mid` when none passes |
| Smart.ParseJobDescription | src/utils/smartGenerator.ts:30-312 | `parseJobDescription` computes `JobOf` |
| Smart.JobDefaults | src/utils/smartGenerator.ts:303-304 | the company defaults to `the company` and the title to `this position`; otherwise each is what its scan found |
| Smart.Experiences | src/utils/smartGenerator.ts:339-347 | one matched experience per work entry, in order |
| Smart.RecentExperiences | src/utils/smartGenerator.ts:340-347 | the loop over the first three work entries computes their matched experiences |
| Smart.LineAchievements | src/utils/smartGenerator.ts:352-360 | the inner loop keeps the cleaned metric lines of 16 to 199 characters |
| Smart.Achievements | src/utils/smartGenerator.ts:350-361 | the achievement loop over every work entry computes `AllFound` |
| Smart.BuildContext | src/utils/smartGenerator.ts:329-370 | `buildContext` computes `ContextOf` |
| Smart.MatchedSkillsDescribed | src/utils/smartGenerator.ts:330-366 | the matched skills are lower-cased résumé skills, in résumé order, at most 8, each containing or contained in a lower-cased job skill; below the cap every related résumé skill is matched |
| Smart.ExperienceOfDescribed | src/utils/smartGenerator.ts:341-346 | a matched experience keeps the entry's title and company, and its bullets are the description lines longer than 10 characters once trimmed |
| Smart.ExperiencesDescribed | src/utils/smartGenerator.ts:340-347 | the matched experiences are the first three work entries at most, in order |
| Smart.FoundDescribed | src/utils/smartGenerator.ts:353-360 | every achievement is the cleaned form of a qualifying line, and every qualifying line is found |
| Smart.AllFoundDescribed | src/utils/smartGenerator.ts:350-361 | every achievement is found in the description of some work entry |
| Smart.AchievementsDescribed | src/utils/smartGenerator.ts:350-368 | there are at most 5 achievements, each from a metric line of some work entry's description |
| Smart.FormatListCases | src/utils/smartGenerator.ts:417-422 | no items give `''`, one gives the item, two give `a and b`; only the first `maxItems` are read |
| Smart.FormatListSerial | src/utils/smartGenerator.ts:422 | from three selected items on, the items are joined by `, ` with `and ` before the last |
| Smart.AssembleAvoids | src/utils/smartGenerator.ts:428-431 | a replacement keeps out every character that neither the text nor any replacement contains |
| Smart.SanitizeClean | src/utils/smartGenerator.ts:425-433 | no bullet glyph survives `sanitize`, and its result neither starts nor ends with white space |
| CoverLetter.AnalyzeUserEdits | src/utils/coverLetterGenerator.ts:98-134 | the letter is short below 200 words, long above 400 and medium otherwise; the tone is formal exactly when the formal indicators are at least as many as the conversational ones |
| CoverLetter.AvoidPhrasesExact | src/utils/coverLetterGenerator.ts:107-117 | the phrases to avoid are exactly the listed phrases that the letter does not contain, ignoring case, in list order |
| CoverLetter.KeptPhrasesDescribed | src/utils/coverLetterGenerator.ts:120-124 | at most 3 phrases are kept, each a trimmed sentence of 21 to 149 characters; with fewer than 3, every such sentence is kept |
| CoverLetter.ScanKeywords | src/utils/coverLetterGenerator.ts:165-173 | the keyword loop pushes the match of every keyword that occurs as a word |
| CoverLetter.ExtractKeySkills | src/utils/coverLetterGenerator.ts:139-177 | `extractKeySkills` computes `KeySkills` |
| CoverLetter.TopDistinctDistinct | src/utils/coverLetterGenerator.ts:176 | `[...new Set(found)].slice(0, 7)` has at most 7 texts and no two alike |
| CoverLetter.TopDistinctOrder | src/utils/coverLetterGenerator.ts:176 | the texts kept are found ones, in the order of their first occurrence |
| CoverLetter.TopDistinctComplete | src/utils/coverLetterGenerator.ts:176 | with fewer than 7 kept, every text found is kept |
| CoverLetter.KeySkillsDescribed | src/utils/coverLetterGenerator.ts:139-177 | at most 7 distinct skills, in keyword order; each is the text matched for a keyword that occurs in the lower-cased description; with fewer than 7, every such text is included |
| CoverLetter.FindRelevantExperience | src/utils/coverLetterGenerator.ts:182-206 | the loop over the work entries computes `RelevantOf` |
| CoverLetter.RelevantDescribed | src/utils/coverLetterGenerator.ts:182-206 | at most 2 entries, in résumé order, each the summary of a relevant work entry; with fewer than 2, every relevant entry is included |
| CoverLetter.SummaryDescription | src/utils/coverLetterGenerator.ts:200 | the summary's description is the text before the first line break, or the whole description when that text is empty |
| CoverLetter.BulletAchievements | src/utils/coverLetterGenerator.ts:215-222 | the inner loop keeps the trimmed bullets that are measurable |
| CoverLetter.ExtractAchievements | src/utils/coverLetterGenerator.ts:211-226 | `extractAchievements` computes `AchievementsOf` |
| CoverLetter.AllAchievementsDescribed | src/utils/coverLetterGenerator.ts:214-223 | every achievement gathered is a trimmed, non-empty, measurable description line of one of the entries |
| CoverLetter.AchievementsDescribed | src/utils/coverLetterGenerator.ts:211-226 | at most 3 achievements, each a trimmed, non-empty, measurable description line of one of the first 3 work entries |
| CoverLetter.CleanText | src/utils/coverLetterGenerator.ts:502-541 | the nested `cleanText` computes `CleanTextOf` |
| CoverLetter.DedupKept | src/utils/coverLetterGenerator.ts:510-538 | after de-duplication by key and filtering, the lines kept have distinct keys, each is the first line with its key, every key is represented, and every de-duplicated line that passes is kept |
| CoverLetter.CleanLinesDescribed | src/utils/coverLetterGenerator.ts:504-538 | the kept lines are non-empty and trimmed; none is noise; no two share a lower-cased 50-character prefix; each is the first page line with its prefix; every de-duplicated line that is not noise is kept |
| CoverLetter.CleanTextJoined | src/utils/coverLetterGenerator.ts:540 | the cleaned text is the kept lines joined by line breaks, and the final trim removes nothing |
| CoverLetter.EarliestMarker | src/utils/coverLetterGenerator.ts:487-493 | the marker loop computes `Earliest` |
| CoverLetter.TruncateAtBoilerplate | src/utils/coverLetterGenerator.ts:459-499 | the nested `truncateAtBoilerplate` computes `TruncatedOf` |
| CoverLetter.EarliestDescribed | src/utils/coverLetterGenerator.ts:487-493 | the cut is the smallest start after position 200 of a marker's first match, and the whole length when there is none |
| CoverLetter.TruncateDescribed | src/utils/coverLetterGenerator.ts:495-498 | with no marker matching first after position 200, the text is returned unchanged; otherwise it is cut at the earliest such match and trimmed |

## Left out

- PDF decoding: pdfjs's `getDocument`, `getPage`, `getTextContent` and the worker set-up (`src/utils/parser.ts:1`, `22`, `146-153`) are asynchronous foreign calls. The pages arrive as sequences of fragments.
- `Math.round` of the fragments' floating-point y-coordinates (`src/utils/parser.ts:159`): the row key of each fragment is already an integer.
- `crypto.randomUUID`: identifiers come from an `IdSupply` indexed by a counter. The distinctness of the identifiers it hands out is a precondition (`Fresh`) of the lemmas that prove the records' identifiers distinct.
- The regular-expression heuristics, kept as uninterpreted functions of the `Heuristics` record, because their backtracking behaviour is not what the properties are about. Only the control flow around them is modelled: which strategy is tried first, the defaults, the placeholders and the drop rules. They are:
  - `detectCompany` and `detectTitle` (`src/utils/parser.ts:506-561`);
  - school, degree and field detection (`src/utils/parser.ts:716-773`);
  - the publication author, title and journal heuristics (`src/utils/parser.ts:928-1038`).
- The known-company table and the company and title patterns of `src/utils/smartGenerator.ts:38-250`: these are tests of the `JobMatchers` record. The order of the table and the "first known company wins" rule are modelled.
- `chrome.storage` (`src/utils/storage.ts:145-191`) and `chrome.runtime` messaging (`src/content/index.ts:3-9`): browser I/O.
- The content script's DOM work (`src/content/index.ts:18-96`, `173-280`): input crawling, label gathering, visibility checks, events, highlighting and the overlay. `SelectElement` stands for the one `<select>` that `selectOption` assigns.
- `fetchJobDescriptionFromUrl` (`src/utils/coverLetterGenerator.ts:394-744`): network, timeouts, `DOMParser` and JSON-LD. Only its closures `cleanText` and `truncateAtBoilerplate` are modelled.
- Random templates and the current date: `pickRandom` and the letter generators (`src/utils/smartGenerator.ts:413-415`, `438-651`), and the template generators of `src/utils/coverLetterGenerator.ts:37-83`, `231-388`. Their output is nondeterministic.
- The React components, dist/ files, docs/ scripts and build configuration are not part of this model.
- Console tracing throughout `src/utils/parser.ts`.
- Case mapping is ASCII only, and lengths count characters, not UTF-16 code units. The two agree on the ASCII text the properties talk about.
- Regex.Split: captured groups are not spliced into the result. None of the code's split patterns has a capture.
- Smart.ParseJobDescription: the optional `department` and `location` of the parsed job are not modelled, because nothing in the code sets them.
- Normalize.NormalizeText: is not idempotent, and the model proves no idempotence. `o p er` normalises to `o per` (`per` begins `performance`), and a second run gives `oper` (`oper` begins `operations`): see `Normalize.NotIdempotentExample` and, for every such pair of letters and word, `Normalize.NotIdempotent`. It is not a Finding, since nothing in the code promises a second run leaves the text alone, so there is no corrected member.
- Authors.SemicolonAuthors: the round trip is stated for blocks the cleaning at `src/utils/parser.ts:811-819` leaves as they are (no parenthesis, no hyphen, single plain spaces). Blocks the cleaning rewrites are read by the same model, but no round trip is proved for them.
- Personal.ProfileLink, Personal.LinkedInLink, Personal.GitHubLink: take as a hypothesis that the captured handle holds no white space. The handle pattern `[a-zA-Z0-9_-]+` guarantees it, but the regular-expression model proves nothing about what a group captures. Without the hypothesis, `Personal.ProfileDescribed` still gives the link as the cleaned `https://` + site + handle.
- Behaviour modelled as written although it looks unintended:
  - `findRelevantExperience` counts an entry with an empty title or company as relevant, since every text contains the empty string (`src/utils/coverLetterGenerator.ts:190-194`);
  - after `c++` or `c#`, the `\b` of the skill patterns needs a word character to follow;
  - the header's ten-line cap (`src/utils/parser.ts:257`) never takes effect, because the fallback branch pushes to `header` as well (`Sections.AllToHeader`).

## Findings

| source | as written | input that shows it | evidently intended | confidence | as-written member | corrected member |
|---|---|---|---|---|---|---|
| src/utils/parser.ts:366-367 | month by month in calendar order, a month is recognised when the text contains its full name, its three-letter abbreviation or its first two letters | `May 2020` contains `ma` and is read as March; `July 2020` contains `ju` and is read as June | a month is recognised by its full name or its three-letter abbreviation only | not executed | Dates.ParseMonthYear, Dates.MayReadAsMarch, Dates.JulyReadAsJune | Dates.ParseMonthYearIntended, Dates.MayReadAsMay, Dates.JulyReadAsJuly |
| src/utils/parser.ts:178-222 | sections and their keywords are tried in table order, and each keyword is checked for an exact match and for a match at the start or the end of the line together, so an earlier section's keyword at the end of the line wins over a later section's exact keyword | `Academic Experience` ends with ` experience`, so it is read as the experience heading, although teaching lists `academic experience` | a line equal to a keyword belongs to the section that owns that keyword | not executed | Sections.AcademicExperienceAsWritten | Sections.AcademicExperienceIntended |
| src/utils/parser.ts:620-625 | the description keeps only lines that do not contain the first ten characters of the company, and every line contains the empty string | an entry `Research Assistant` / `Built a data pipeline in Python that cleaned and merged survey responses from three research teams` (98 characters, so the second-line fallback does not take it as the company; neither line holds a company keyword, even inside a word, or `University`, `College` or `Institute`, and the second line holds no title keyword), in which no company is detected, gets an empty description | with no company, no line repeats it, so every line that passes the other tests is kept | not executed | Work.NoCompanyNoDescription, Work.DraftWithoutCompany | Work.NoCompanyKeepsLines |
